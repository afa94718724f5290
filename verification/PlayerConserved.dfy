/** No lease and no pin is lost: what the SDK has lent is the worker's pending lease or stands in a slot, and
    what is pinned is a slot's or under way to being released. */
module PlayerConserved {
  import opened Prelude
  import opened PlayerMailbox
  import opened PlayerRun
  import opened PlayerInvariant
  import opened PlayerLaws
  import opened PlayerSections
  import A = PlayerAllocator
  import S = PlayerSession

  /** A slot in use, and not given back already, holds the lease. */
  predicate InSlot(slots: seq<Slot>, returned: Option<nat>, lease: nat)
  {
    exists i :: 0 <= i < |slots| && slots[i].phase != Empty && slots[i].lease == lease && returned != Some(i)
  }

  predicate Accounted(slots: seq<Slot>, s: S.Session, returned: Option<nat>, pending: nat)
    requires S.Sized(s)
  {
    forall k :: 0 <= k < S.LEASES && s.held[k] ==> s.tickets[k] == pending || InSlot(slots, returned, s.tickets[k])
  }

  predicate AccountOf(w: World)
    requires S.Sized(w.s)
  {
    Accounted(w.m.slots, w.s, Returned(w.worker), w.pending)
  }

  /** Slots in use stay in use with their leases. */
  predicate Carries(slots: seq<Slot>, to: seq<Slot>, pending: nat)
  {
    && |to| == |slots|
    && forall i :: 0 <= i < |slots| && slots[i].phase != Empty ==>
         slots[i].lease == pending || (to[i].phase != Empty && to[i].lease == slots[i].lease)
  }

  lemma CarriesInSlot(slots: seq<Slot>, to: seq<Slot>, pending: nat, lease: nat)
    requires Carries(slots, to, pending) && InSlot(slots, None, lease)
    ensures lease == pending || InSlot(to, None, lease)
  {
    var i :| 0 <= i < |slots| && slots[i].phase != Empty && slots[i].lease == lease;
    if lease != pending { assert to[i].phase != Empty; }
  }

  lemma Carried(slots: seq<Slot>, to: seq<Slot>, s: S.Session, t: S.Session, pending: nat, left: nat)
    requires S.Sized(s) && S.Sized(t) && t.held == s.held && t.tickets == s.tickets && Accounted(slots, s, None, pending)
    requires Carries(slots, to, left) && (pending == left || InSlot(to, None, pending) || pending == 0 || !S.Held(s, pending))
    requires S.Inv(s)
    ensures Accounted(to, t, None, left)
  {
    hide InSlot, Carries;
    forall k | 0 <= k < S.LEASES && t.held[k] ensures t.tickets[k] == left || InSlot(to, None, t.tickets[k]) {
      if s.tickets[k] == pending {
        assert S.IsLease(s, k, pending);
      } else {
        CarriesInSlot(slots, to, left, s.tickets[k]);
      }
    }
  }

  // ----- the steps -----

  /** A step that rephases slots keeps the account. */
  lemma RephasedAccount(slots: seq<Slot>, to: seq<Slot>, s: S.Session, returned: Option<nat>, pending: nat)
    requires S.Sized(s) && Rephased(slots, to) && Accounted(slots, s, returned, pending)
    ensures Accounted(to, s, returned, pending)
  {
    hide InSlot, Rephased;
    forall k | 0 <= k < S.LEASES && s.held[k] ensures s.tickets[k] == pending || InSlot(to, returned, s.tickets[k]) {
      if InSlot(slots, returned, s.tickets[k]) { RephasedIn(slots, to, returned, s.tickets[k]); }
    }
  }

  lemma RephasedIn(slots: seq<Slot>, to: seq<Slot>, returned: Option<nat>, lease: nat)
    requires Rephased(slots, to) && InSlot(slots, returned, lease)
    ensures InSlot(to, returned, lease)
  {
    var i :| 0 <= i < |slots| && slots[i].phase != Empty && slots[i].lease == lease && returned != Some(i);
    assert to[i].phase != Empty && to[i].lease == lease;
  }

  lemma UiAccount(w: World, a: Action)
    requires Inv(w) && Shaped(w) && AccountOf(w) && (a.Poll? || a.UiStep? || a.SetPreserve? || a.UiCloses? || a.ReaderDone?)
    ensures Shaped(Next(w, a)) && AccountOf(Next(w, a))
  {
    hide PhasesOf, LeasesOf, PinsOf, HistoryOf, Rephased, Shaped, S.Inv, A.Inv, Mark, UiGoesOn, Close, Accounted;
    ShapedSizes(w);
    StepKeeps(w, a);
    PlayerInvariant.InvShaped(Next(w, a));
    var u := Next(w, a);
    if u != w {
      match a
      case Poll(yuvOnly) => MarkPhases(w, yuvOnly); RephasedAccount(w.m.slots, u.m.slots, w.s, Returned(w.worker), w.pending);
      case UiStep(made) => UiStepPhases(w, made); UiStepSame(w, made); RephasedAccount(w.m.slots, u.m.slots, w.s, Returned(w.worker), w.pending);
      case SetPreserve(enabled) =>
      case UiCloses => ClosePhases(w); RephasedAccount(w.m.slots, u.m.slots, w.s, Returned(w.worker), w.pending);
      case ReaderDone(i) => ReaderPhases(w, i); RephasedAccount(w.m.slots, u.m.slots, w.s, Returned(w.worker), w.pending);
    }
  }

  lemma MoveAccount(w: World)
    requires Inv(w) && Shaped(w) && AccountOf(w) && (w.worker.Promoting? || w.worker.Taking? || (w.worker.Settling? && !w.worker.returned))
    ensures forall shown, rgb, put :: S.Sized(Toil(w, shown, rgb, put).s) && AccountOf(Toil(w, shown, rgb, put))
  {
    hide PhasesOf, LeasesOf, PinsOf, HistoryOf, Rephased, S.Inv, A.Inv, Promote, TakeBack, Settle, Accounted;
    var u := Toil(w, true, true, true);
    if w.worker.Promoting? { PromotePhases(w); }
    else if w.worker.Taking? { TakePhases(w); }
    else { RetryPhases(w); }
    RephasedAccount(w.m.slots, u.m.slots, w.s, None, w.pending);
  }

  /** The slot under construction holds the pending lease. */
  lemma BuilderHolds(w: World)
    requires Inv(w) && Builder(w.worker).Some?
    ensures Shaped(w) && S.Inv(w.s) && w.pending != 0
    ensures w.m.slots[w.worker.slot].lease == w.pending && w.m.slots[w.worker.slot].phase == Building
  {
    hide PinsOf, HistoryOf, A.Inv, S.Inv, S.Held;
  }

  lemma BuildAccount(w: World, shown: bool, rgb: bool)
    requires Inv(w) && Shaped(w) && AccountOf(w) && Builder(w.worker).Some?
    ensures forall put :: S.Sized(Toil(w, shown, rgb, put).s) && AccountOf(Toil(w, shown, rgb, put))
  {
    hide Inv, Toil, S.Inv, S.Held, Accounted, InSlot, Carries;
    BuilderHolds(w);
    BuildCarries(w, shown, rgb);
    var u := Toil(w, shown, rgb, true);
    if w.worker.Filled? { PublishedIn(w); PublishToils(w); }
    Carried(w.m.slots, u.m.slots, w.s, u.s, w.pending, u.pending);
  }

  lemma PublishToils(w: World)
    requires Shaped(w) && w.worker.Filled?
    ensures forall shown, rgb, put :: Toil(w, shown, rgb, put).m == Publish(w.m, w.worker.slot)
  {
    hide Publish;
  }

  lemma BuildCarries(w: World, shown: bool, rgb: bool)
    requires Inv(w) && Shaped(w) && Builder(w.worker).Some?
    ensures var u := Toil(w, shown, rgb, true);
            && u.s == w.s && (u.pending == w.pending || w.worker.Filled?) && Returned(u.worker).None? && Carries(w.m.slots, u.m.slots, u.pending)
            && forall put :: Toil(w, shown, rgb, put) == u
  {
    hide PhasesOf, LeasesOf, PinsOf, HistoryOf, A.Inv, S.Inv, A.Acquire, A.Release, S.SlotOf, S.Held;
    BuilderHolds(w);
    CalmAbort(w);
  }

  lemma PublishedIn(w: World)
    requires Inv(w) && Shaped(w) && w.worker.Filled? && w.m.slots[w.worker.slot].lease == w.pending
    ensures InSlot(Publish(w.m, w.worker.slot).slots, None, w.pending)
  {
    hide PhasesOf, LeasesOf, PinsOf, HistoryOf, A.Inv, S.Inv;
    var i, to := w.worker.slot, Publish(w.m, w.worker.slot).slots;
    assert to[i].phase != Empty && to[i].lease == w.pending;
  }

  lemma CalmAbort(w: World)
    requires Inv(w)
    ensures w.worker.Aborting? ==> w.worker.released
  {
    hide PhasesOf, LeasesOf, PinsOf, HistoryOf, A.Inv, S.Inv;
  }

  lemma DropAccount(w: World)
    requires Inv(w) && Shaped(w) && AccountOf(w) && w.worker.Dropping?
    ensures S.Sized(DropPin(w).s) && AccountOf(DropPin(w))
  {
    hide PhasesOf, LeasesOf, PinsOf, HistoryOf, A.Inv, A.Release, S.Held, Accounted, InSlot;
    Carried(w.m.slots, DropPin(w).m.slots, w.s, w.s, w.pending, w.pending);
  }

  lemma PutAccount(w: World, put: bool)
    requires Inv(w) && Shaped(w) && AccountOf(w) && w.worker.Putting?
    ensures S.Sized(PutFrame(w, put).s) && AccountOf(PutFrame(w, put))
  {
    hide PhasesOf, LeasesOf, PinsOf, HistoryOf, A.Inv, S.Held;
    var i := w.worker.slot;
    var lease := w.m.slots[i].lease;
    var (t, ok) := S.Release(w.s, lease, put);
    S.ReleaseExactly(w.s, lease, put);
    forall k | 0 <= k < S.LEASES && t.held[k]
      ensures t.tickets[k] == w.pending || InSlot(w.m.slots, if ok then Some(i) else None, t.tickets[k])
    {
      assert w.s.held[k] && t.tickets[k] == w.s.tickets[k];
      if ok && t.tickets[k] != w.pending {
        assert t.tickets[k] != lease;
        var j :| 0 <= j < |w.m.slots| && w.m.slots[j].phase != Empty && w.m.slots[j].lease == t.tickets[k];
        assert j != i;
      }
    }
  }

  lemma DoneAccount(w: World)
    requires Inv(w) && Shaped(w) && AccountOf(w) && w.worker.Settling? && w.worker.returned
    ensures S.Sized(SettleFrame(w).s) && AccountOf(SettleFrame(w))
  {
    hide PhasesOf, LeasesOf, PinsOf, HistoryOf, A.Inv, S.Inv;
    var i, to := w.worker.slot, SettleFrame(w).m.slots;
    forall k | 0 <= k < S.LEASES && w.s.held[k] ensures w.s.tickets[k] == w.pending || InSlot(to, None, w.s.tickets[k]) {
      if w.s.tickets[k] != w.pending {
        var j :| 0 <= j < |w.m.slots| && w.m.slots[j].phase != Empty && w.m.slots[j].lease == w.s.tickets[k] && j != i;
        assert to[j] == w.m.slots[j];
      }
    }
  }

  lemma ToilAccount(w: World, shown: bool, rgb: bool, put: bool)
    requires Inv(w) && Shaped(w) && AccountOf(w)
    ensures var v := Toil(w, shown, rgb, put); S.Sized(v.s) && AccountOf(v)
  {
    hide Inv, Accounted, Shaped, PinFrame, PublishFrame, UnpinFrame, AbortFrame, TakeSlot, DropPin, PutFrame, SettleFrame, Promote;
    ShapedSizes(w);
    CalmQuarantine(w);
    match w.worker
    case Dropping(_) => DropAccount(w);
    case Putting(_) => PutAccount(w, put);
    case Settling(_, returned) => if returned { DoneAccount(w); } else { MoveAccount(w); }
    case Promoting => MoveAccount(w);
    case Taking(_) => MoveAccount(w);
    case Resting =>
    case Checking =>
    case _ => BuildAccount(w, shown, rgb);
  }

  lemma CalmQuarantine(w: World)
    requires Inv(w)
    ensures !w.worker.Quarantining?
  {
    hide PhasesOf, LeasesOf, PinsOf, HistoryOf, A.Inv, S.Inv;
  }

  lemma SubmitAccount(w: World)
    requires Inv(w) && Shaped(w) && AccountOf(w) && w.worker.Resting?
    ensures S.Sized(Submitted(w).s) && AccountOf(Submitted(w))
  {
    hide PhasesOf, LeasesOf, PinsOf, HistoryOf, A.Inv, S.Inv, S.SlotOf, S.Held, Accounted, InSlot, Admit;
    var k, u := S.SlotOf(w.s, w.pending, 0), Submitted(w);
    if w.pending != 0 && k < S.LEASES {
      var broken := w.s.faulted || w.s.frames[k].broken;
      NeverAlready(w);
      SubmittedSlot(w, broken);
      SessionOf(w);
      var m := Admit(w.m, w.pending, broken).0;
      assert Carries(w.m.slots, m.slots, w.pending);
      Carried(w.m.slots, m.slots, w.s, w.s, w.pending, w.pending);
    }
  }

  lemma SessionOf(w: World)
    requires Inv(w)
    ensures S.Inv(w.s) && (w.pending != 0 ==> S.Held(w.s, w.pending))
  {
    hide PhasesOf, PinsOf, HistoryOf, A.Inv, S.Inv, S.Held;
  }

  lemma BeginAccount(w: World, a: Action)
    requires Inv(w) && Shaped(w) && AccountOf(w) && w.worker.Resting?
    ensures var v := Begin(w, a); S.Sized(v.s) && AccountOf(v)
  {
    hide Inv, Accounted, Submitted, Close, LeaseNext, ReturnPending, Reopen, S.Close, S.Inv, S.NoneHeld, Rephased;
    match a
    case LeaseFrame(got) => LeaseAccount(w, got);
    case SubmitPending => SubmitAccount(w);
    case GiveBackPending(put) => ReturnAccount(w, put);
    case WorkerCloses =>
      ClosePhases(w);
      RephasedAccount(w.m.slots, Close(w.m).slots, w.s, None, w.pending);
    case ReopenMailbox => assert Reopen(w.m).0.slots == w.m.slots by { ReopenSlots(w.m); }
    case CloseSession(stopped, destroyed) => CloseAccount(w, stopped, destroyed);
    case OpenSession(_) => SameAccount(w, Begin(w, a).s);
    case _ =>
  }

  lemma ReopenSlots(m: Mailbox)
    ensures Reopen(m).0.slots == m.slots
  {
  }

  lemma SameAccount(w: World, t: S.Session)
    requires S.Sized(w.s) && AccountOf(w) && w.worker.Resting? && t.held == w.s.held && t.tickets == w.s.tickets && |t.frames| == S.LEASES
    ensures Accounted(w.m.slots, t, None, w.pending)
  {
    hide InSlot;
  }

  lemma CloseAccount(w: World, stopped: bool, destroyed: bool)
    requires Shaped(w) && AccountOf(w) && w.worker.Resting?
    ensures var t := S.Close(w.s, stopped, destroyed).0; S.Sized(t) && Accounted(w.m.slots, t, None, w.pending)
  {
    SameAccount(w, S.Close(w.s, stopped, destroyed).0);
  }

  lemma LeaseAccount(w: World, got: Option<S.Decoded>)
    requires Inv(w) && Shaped(w) && AccountOf(w) && w.worker.Resting?
    ensures var v := LeaseNext(w, got); S.Sized(v.s) && AccountOf(v)
  {
    hide PhasesOf, LeasesOf, PinsOf, HistoryOf, A.Inv, S.Held, InSlot;
    S.AcquireExactly(w.s, got);
  }

  lemma ReturnAccount(w: World, put: bool)
    requires Inv(w) && Shaped(w) && AccountOf(w) && w.worker.Resting?
    ensures var v := ReturnPending(w, put); S.Sized(v.s) && AccountOf(v)
  {
    hide PhasesOf, LeasesOf, PinsOf, HistoryOf, A.Inv, S.Held, InSlot, S.Release;
    S.ReleaseExactly(w.s, w.pending, put);
  }

  lemma StepAccount(w: World, a: Action)
    requires Inv(w) && Shaped(w) && AccountOf(w)
    ensures S.Sized(Next(w, a).s) && AccountOf(Next(w, a))
  {
    hide Inv, Accounted, Toil, Begin, UiGoesOn, Mark, Close, HandBack, Preserve, A.Allocate, A.FreeFrame, AnswersFair, Shaped;
    ShapedSizes(w);
    if a.Work? { ToilAccount(w, a.shown, a.rgb, a.put); }
    else if a.Poll? || a.UiStep? || a.SetPreserve? || a.UiCloses? || a.ReaderDone? { UiAccount(w, a); ShapedSizes(Next(w, a)); }
    else if !a.SdkAllocates? && !a.SdkFrees? && w.worker.Resting? { BeginAccount(w, a); }
  }

  lemma {:induction false} ReachedAccount(budget: nat, actions: seq<Action>)
    ensures var w := Reached(budget, actions); Shaped(w) && AccountOf(w)
  {
    hide Inv, Next, Shaped, Accounted;
    var w := Reached(budget, actions);
    PlayerInvariant.InvShaped(w);
    ShapedSizes(w);
    if actions == [] {
      assert Accounted(w.m.slots, w.s, None, 0) by { NothingOut(budget); }
    } else {
      var before := actions[..|actions| - 1];
      ReachedAccount(budget, before);
      StepAccount(Reached(budget, before), actions[|actions| - 1]);
    }
  }

  lemma NothingOut(budget: nat)
    ensures var w := NewWorld(budget); S.Sized(w.s) && Accounted(w.m.slots, w.s, None, 0)
  {
  }

  /** In every reachable state a lease that the SDK has out is the worker's pending one, or stands in exactly
      one slot in use; so no frame is ever lost to the decoder. */
  lemma NoLeaseIsLost(budget: nat, actions: seq<Action>, lease: nat)
    ensures var w := Reached(budget, actions);
            && Shaped(w)
            && (S.Held(w.s, lease) && lease != w.pending ==>
                  exists i :: 0 <= i < SLOTS && w.m.slots[i].phase != Empty && w.m.slots[i].lease == lease
                              && forall k :: 0 <= k < SLOTS && k != i && w.m.slots[k].phase != Empty ==> w.m.slots[k].lease != lease)
  {
    hide Inv, Reached;
    ReachedAccount(budget, actions);
    EverySlotOwnsItsLease(budget, actions);
    var w := Reached(budget, actions);
    if S.Held(w.s, lease) && lease != w.pending {
      var k :| 0 <= k < S.LEASES && S.IsLease(w.s, k, lease);
      assert InSlot(w.m.slots, Returned(w.worker), lease);
    }
  }

  // ----- pins -----

  predicate PinIn(slots: seq<Slot>, pin: nat)
  {
    exists i :: 0 <= i < |slots| && slots[i].pin == pin
  }

  /** Every pin that is out is in a slot, or loose. */
  predicate PinsIn(slots: seq<Slot>, frames: seq<A.Record>, loose: nat)
  {
    forall k :: 0 <= k < |frames| && frames[k].ticket != 0 ==> frames[k].ticket == loose || PinIn(slots, frames[k].ticket)
  }

  predicate PinsAccounted(w: World)
  {
    PinsIn(w.m.slots, w.a.frames, Loose(w.worker))
  }

  predicate SamePins(slots: seq<Slot>, to: seq<Slot>)
  {
    |to| == |slots| && forall i :: 0 <= i < |slots| ==> to[i].pin == slots[i].pin
  }

  /** Slots that keep their pins, and records that take no new ticket, keep the account. */
  lemma SamePinsIn(slots: seq<Slot>, to: seq<Slot>, frames: seq<A.Record>, now: seq<A.Record>, loose: nat)
    requires PinsIn(slots, frames, loose) && SamePins(slots, to) && |now| == |frames|
    requires forall k :: 0 <= k < |now| && now[k].ticket != 0 ==> now[k].ticket == frames[k].ticket
    ensures PinsIn(to, now, loose)
  {
    forall k | 0 <= k < |now| && now[k].ticket != 0 && now[k].ticket != loose ensures PinIn(to, now[k].ticket) {
      var i :| 0 <= i < |slots| && slots[i].pin == frames[k].ticket;
      assert to[i].pin == now[k].ticket;
    }
  }

  lemma AcquireTickets(w: World, f: A.Frame)
    ensures var (a, pin) := A.Acquire(w.a, f);
            && |a.frames| == |w.a.frames|
            && forall k :: 0 <= k < |a.frames| ==> a.frames[k].ticket == w.a.frames[k].ticket || (pin.Some? && a.frames[k].ticket == pin.value.0)
  {
    hide A.Pinnable;
  }

  lemma ReleaseTickets(a: A.Allocator, heap: A.Heap, pin: nat)
    requires A.Inv(a, heap)
    ensures var (b, h, ok) := A.Release(a, heap, pin);
            && |b.frames| == |a.frames|
            && forall k :: 0 <= k < |b.frames| && b.frames[k].ticket != 0 ==> b.frames[k].ticket == a.frames[k].ticket && (ok ==> b.frames[k].ticket != pin)
  {
    hide A.HeapFits, A.Disjoint, A.Sum, A.Layout, A.Freed;
  }

  lemma SdkTickets(w: World, a: Action)
    requires Inv(w) && Shaped(w) && (a.SdkAllocates? || a.SdkFrees?)
    ensures var v := Next(w, a);
            && |v.a.frames| == |w.a.frames| && v.m == w.m && v.worker == w.worker
            && forall k :: 0 <= k < |v.a.frames| && v.a.frames[k].ticket != 0 ==> v.a.frames[k].ticket == w.a.frames[k].ticket
  {
    hide PhasesOf, LeasesOf, PinsOf, HistoryOf, A.Inv, S.Inv, A.Layout, A.Reserve, A.Freed, AnswersFair;
  }

  /** The slot under construction has no pin yet. */
  lemma BuilderUnpinned(w: World)
    requires Inv(w) && Builder(w.worker).Some? && !w.worker.Filled?
    ensures Shaped(w) && w.m.slots[w.worker.slot].pin == 0
  {
    hide PhasesOf, LeasesOf, HistoryOf, A.Inv, S.Inv, A.Pinned, LooseLive;
  }

  lemma PinPins(w: World, shown: bool, rgb: bool)
    requires Inv(w) && Shaped(w) && PinsAccounted(w) && w.worker.Pinning?
    ensures PinsAccounted(PinFrame(w, shown, rgb))
  {
    hide PhasesOf, LeasesOf, PinsOf, HistoryOf, A.Inv, S.Inv, A.Acquire, S.SlotOf;
    BuilderUnpinned(w);
    var k, i, v := S.SlotOf(w.s, w.pending, 0), w.worker.slot, PinFrame(w, shown, rgb);
    if k < S.LEASES {
      AcquireTickets(w, w.s.frames[k].frame);
      forall r | 0 <= r < |v.a.frames| && v.a.frames[r].ticket != 0 && v.a.frames[r].ticket != Loose(v.worker)
        ensures PinIn(v.m.slots, v.a.frames[r].ticket)
      {
        if v.a.frames[r].ticket == w.a.frames[r].ticket {
          var j :| 0 <= j < |w.m.slots| && w.m.slots[j].pin == w.a.frames[r].ticket;
          assert j != i && v.m.slots[j] == w.m.slots[j];
        } else {
          assert v.m.slots[i].pin == v.a.frames[r].ticket;
        }
      }
    }
  }

  lemma UnpinPins(w: World)
    requires Inv(w) && Shaped(w) && PinsAccounted(w) && w.worker.Unpinning?
    ensures PinsAccounted(UnpinFrame(w))
  {
    hide PhasesOf, LeasesOf, PinsOf, HistoryOf, A.Inv, S.Inv, A.Release, PinIn;
    if w.worker.pin != 0 {
      ReleaseTickets(w.a, w.heap, w.worker.pin);
      StepKeeps(w, Work(true, true, true));
      CalmAbort(UnpinFrame(w));
    }
  }

  lemma AbortPins(w: World)
    requires Inv(w) && Shaped(w) && PinsAccounted(w) && w.worker.Aborting?
    ensures PinsAccounted(AbortFrame(w))
  {
    hide PhasesOf, LeasesOf, PinsOf, HistoryOf, A.Inv, S.Inv, PinsIn;
    CalmAbort(w);
    SamePinsIn(w.m.slots, AbortFrame(w).m.slots, w.a.frames, w.a.frames, 0);
  }

  lemma DropPins(w: World)
    requires Inv(w) && Shaped(w) && PinsAccounted(w) && w.worker.Dropping?
    ensures PinsAccounted(DropPin(w))
  {
    hide PhasesOf, LeasesOf, PinsOf, HistoryOf, A.Inv, S.Inv, A.Release;
    var i, v := w.worker.slot, DropPin(w);
    var pin := w.m.slots[i].pin;
    if pin != 0 {
      ReleaseTickets(w.a, w.heap, pin);
      StepKeeps(w, Work(true, true, true));
      CalmQuarantine(v);
      forall r | 0 <= r < |v.a.frames| && v.a.frames[r].ticket != 0 ensures PinIn(v.m.slots, v.a.frames[r].ticket) {
        var j :| 0 <= j < |w.m.slots| && w.m.slots[j].pin == w.a.frames[r].ticket;
        assert v.m.slots[j] == w.m.slots[j];
      }
    }
  }

  /** The other steps of the worker leave pins alone. */
  lemma OtherPins(w: World, shown: bool, rgb: bool, put: bool)
    requires Inv(w) && Shaped(w)
    requires !w.worker.Pinning? && !w.worker.Unpinning? && !w.worker.Dropping? && !w.worker.Aborting?
    ensures var v := Toil(w, shown, rgb, put); SamePins(w.m.slots, v.m.slots) && v.a == w.a && Loose(v.worker) == Loose(w.worker)
  {
    hide Inv, PinFrame, UnpinFrame, AbortFrame, DropPin, S.Release, Publish, Promote, SamePins, TakeBack, Settle;
    var i := if w.worker.Filled? || w.worker.Settling? then w.worker.slot else if w.worker.Taking? && w.worker.next < SLOTS then w.worker.next else 0;
    MailboxPins(w.m, i);
    SelfPins(w.m.slots);
  }

  /** Sections that move phases leave pins alone. */
  lemma MailboxPins(m: Mailbox, i: nat)
    requires |m.slots| == SLOTS && i < SLOTS
    ensures SamePins(m.slots, Publish(m, i).slots) && SamePins(m.slots, Promote(m).slots) && SamePins(m.slots, TakeBack(m, i).0.slots)
    ensures forall returned :: SamePins(m.slots, Settle(m, i, returned).slots)
  {
    hide Publish, Promote, MapPhase;
    PublishPins(m, i);
    PromotePins(m);
  }

  lemma PublishPins(m: Mailbox, i: nat)
    requires |m.slots| == SLOTS && i < SLOTS
    ensures SamePins(m.slots, Publish(m, i).slots)
  {
    hide MapPhase, First;
  }

  lemma PromotePins(m: Mailbox)
    requires |m.slots| == SLOTS
    ensures SamePins(m.slots, Promote(m).slots)
  {
  }

  lemma ToilPins(w: World, shown: bool, rgb: bool, put: bool)
    requires Inv(w) && Shaped(w) && PinsAccounted(w)
    ensures PinsAccounted(Toil(w, shown, rgb, put))
  {
    hide Inv, PinsIn, Shaped, PinFrame, PublishFrame, UnpinFrame, AbortFrame, TakeSlot, DropPin, PutFrame, SettleFrame, Promote, SamePins;
    match w.worker
    case Pinning(_, _) => PinPins(w, shown, rgb);
    case Unpinning(_, _, _) => UnpinPins(w);
    case Aborting(_, _, _, _) => AbortPins(w);
    case Dropping(_) => DropPins(w);
    case _ =>
      OtherPins(w, shown, rgb, put);
      SamePinsIn(w.m.slots, Toil(w, shown, rgb, put).m.slots, w.a.frames, w.a.frames, Loose(w.worker));
  }

  /** A step of another thread, or the begin of an operation, leaves pins alone. */
  lemma OutsidePins(w: World, a: Action)
    requires Inv(w) && Shaped(w) && !a.Work? && !a.SdkAllocates? && !a.SdkFrees?
    ensures var v := Next(w, a); SamePins(w.m.slots, v.m.slots) && v.a == w.a && Loose(v.worker) == Loose(w.worker)
  {
    hide Inv, Toil, Begin, SamePins, UiGoesOn, Mark, Close, HandBack;
    SelfPins(w.m.slots);
    if a.UiStep? { UiPins(w, a.made); }
    else if a.Poll? { PollPins(w.m, a.yuvOnly); }
    else if a.UiCloses? { ClosePins(w.m); }
    else if a.ReaderDone? { ReaderPins(w.m, a.slot); }
    else if !a.SetPreserve? && w.worker.Resting? { BeginPins(w, a); }
  }

  lemma ReaderPins(m: Mailbox, i: nat)
    ensures i < |m.slots| ==> SamePins(m.slots, HandBack(m, i).slots)
  {
  }

  lemma PollPins(m: Mailbox, yuvOnly: bool)
    ensures SamePins(m.slots, Mark(m, yuvOnly).0.slots)
  {
  }

  lemma ClosePins(m: Mailbox)
    ensures SamePins(m.slots, Close(m).slots)
  {
  }

  lemma UiPins(w: World, made: bool)
    requires Shaped(w)
    ensures var v := UiGoesOn(w, made); SamePins(w.m.slots, v.m.slots) && v.a == w.a && v.worker == w.worker
  {
  }

  lemma BeginPins(w: World, a: Action)
    requires Inv(w) && Shaped(w) && w.worker.Resting?
    ensures var v := Begin(w, a); SamePins(w.m.slots, v.m.slots) && v.a == w.a && Loose(v.worker) == 0
  {
    hide Inv, S.Acquire, S.Release, S.Close, S.SlotOf, Close, SamePins, Admit;
    SelfPins(w.m.slots);
    ClosePins(w.m);
    AdmitPins(w.m, w.pending);
  }

  lemma AdmitPins(m: Mailbox, lease: nat)
    ensures forall broken :: SamePins(m.slots, Admit(m, lease, broken).0.slots)
  {
  }

  lemma {:induction false} ReachedPins(budget: nat, actions: seq<Action>)
    ensures PinsAccounted(Reached(budget, actions))
  {
    hide Inv, Next, Toil, Shaped, PinsIn, SamePins;
    if actions == [] {
      assert PinsAccounted(NewWorld(budget)) by { NothingPinned(budget); }
    } else {
      var before, a := actions[..|actions| - 1], actions[|actions| - 1];
      var w := Reached(budget, before);
      ReachedPins(budget, before);
      PlayerInvariant.InvShaped(w);
      if a.Work? {
        NextToils(w, a);
        ToilPins(w, a.shown, a.rgb, a.put);
      } else if a.SdkAllocates? || a.SdkFrees? {
        SdkTickets(w, a);
        SelfPins(w.m.slots);
        SamePinsIn(w.m.slots, w.m.slots, w.a.frames, Next(w, a).a.frames, Loose(w.worker));
      } else {
        OutsidePins(w, a);
        SamePinsIn(w.m.slots, Next(w, a).m.slots, w.a.frames, w.a.frames, Loose(w.worker));
      }
    }
  }

  lemma NextToils(w: World, a: Action)
    requires Shaped(w) && a.Work?
    ensures Next(w, a) == Toil(w, a.shown, a.rgb, a.put)
  {
  }

  lemma SelfPins(slots: seq<Slot>)
    ensures SamePins(slots, slots)
  {
  }

  lemma NothingPinned(budget: nat)
    ensures PinsAccounted(NewWorld(budget))
  {
  }

  /** In every reachable state each pin that the allocator has out stands in a slot in use, or is in the hands
      of a submission that is giving up; so no memory stays pinned for ever. */
  lemma NoPinIsLost(budget: nat, actions: seq<Action>, k: nat)
    ensures var w := Reached(budget, actions);
            && Shaped(w)
            && (k < |w.a.frames| && w.a.frames[k].ticket != 0 ==>
                  || (w.worker.Unpinning? && w.worker.pin == w.a.frames[k].ticket)
                  || exists i :: 0 <= i < SLOTS && w.m.slots[i].phase != Empty && w.m.slots[i].pin == w.a.frames[k].ticket)
  {
    hide Reached, PhasesOf, LeasesOf, HistoryOf, A.Inv, S.Inv, A.Pinned, LooseLive;
    ReachedPins(budget, actions);
    var w := Reached(budget, actions);
    if k < |w.a.frames| && w.a.frames[k].ticket != 0 && w.a.frames[k].ticket != Loose(w.worker) {
      var i :| 0 <= i < |w.m.slots| && w.m.slots[i].pin == w.a.frames[k].ticket;
      assert w.m.slots[i].phase != Empty;
    }
  }
}
