/** What every step of the playback frame protocol keeps. */
module PlayerInvariant {
  import opened Prelude
  import opened PlayerMailbox
  import opened PlayerRun
  import A = PlayerAllocator
  import S = PlayerSession

  /** The slot being built by a submission. */
  function Builder(w: Worker): Option<nat>
  {
    if w.Pinning? || w.Filled? || w.Unpinning? || w.Aborting? then Some(w.slot) else None
  }

  /** The slot being given back by a drain. */
  function Dropper(w: Worker): Option<nat>
  {
    if w.Dropping? || w.Quarantining? || w.Putting? || w.Settling? then Some(w.slot) else None
  }

  function OnScreen(ui: Ui): Option<nat>
  {
    if ui.Idle? then None else Some(ui.slot)
  }

  predicate Saw(w: Worker)
  {
    (w.Pinning? || w.Filled? || w.Unpinning? || w.Aborting?) && w.saw
  }

  // ----- phases -----

  /** Each transient phase belongs to one thread's position; at most one picture is ready. */
  predicate Phases(slots: seq<Slot>, builder: Option<nat>, dropper: Option<nat>, shown: Option<nat>, preserve: bool, saw: bool)
  {
    && (forall i :: 0 <= i < |slots| ==>
          && (slots[i].phase == Building <==> builder == Some(i))
          && (slots[i].phase == Releasing <==> dropper == Some(i))
          && (slots[i].phase == Publishing <==> shown == Some(i)))
    && (forall i, k :: 0 <= i < k < |slots| && slots[i].phase == Ready ==> slots[k].phase != Ready)
    && (shown.Some? && preserve ==> NoneReady(slots))
    && (saw ==> NonePending(slots))
  }

  predicate NoneReady(slots: seq<Slot>)
  {
    forall i :: 0 <= i < |slots| ==> slots[i].phase != Ready
  }

  predicate NonePending(slots: seq<Slot>)
  {
    forall i :: 0 <= i < |slots| ==> !Pending(slots[i])
  }

  // ----- leases -----

  /** A slot whose put has succeeded and is about to be marked empty. */
  function Returned(w: Worker): Option<nat>
  {
    if w.Settling? && w.returned then Some(w.slot) else None
  }

  /** Every slot in use holds a lease of its own; the pending lease is held too, and in a slot only
      while it is being built. */
  predicate Leases(slots: seq<Slot>, s: S.Session, builder: Option<nat>, returned: Option<nat>, pending: nat)
    requires S.Sized(s)
  {
    && (forall i :: 0 <= i < |slots| && slots[i].phase != Empty ==>
          && slots[i].lease != 0 && slots[i].lease <= s.nextTicket
          && (returned != Some(i) ==> S.Held(s, slots[i].lease))
          && (slots[i].lease == pending <==> builder == Some(i)))
    && (forall i, k :: 0 <= i < k < |slots| && slots[i].phase != Empty && slots[k].phase != Empty ==>
          slots[i].lease != slots[k].lease)
    && (pending != 0 ==> S.Held(s, pending)) && (builder.Some? ==> pending != 0)
  }

  // ----- pins -----

  ghost predicate PinLive(a: A.Allocator, slot: Slot)
  {
    A.Pinned(a, slot.pin, slot.addr, slot.capacity)
  }

  /** The pin the worker holds outside any slot. */
  function Loose(w: Worker): nat
  {
    if w.Unpinning? then w.pin else 0
  }

  ghost predicate LooseLive(a: A.Allocator, pin: nat)
  {
    pin != 0 ==> exists addr, capacity :: A.Pinned(a, pin, addr, capacity)
  }

  predicate Shows(p: Phase)
  {
    p == Deferred || p == Ready || p == Publishing || p == Published
  }

  /** A pin in a slot is live; a slot that can be shown has one; one already unpinned has none. */
  ghost predicate Pins(slots: seq<Slot>, a: A.Allocator, filled: Option<nat>, builder: Option<nat>, unpinned: Option<nat>, loose: nat)
  {
    && (forall i :: 0 <= i < |slots| ==>
          && (slots[i].pin != 0 ==> PinLive(a, slots[i]))
          && (slots[i].phase == Empty ==> slots[i].pin == 0)
          && (Shows(slots[i].phase) || filled == Some(i) ==> slots[i].pin != 0)
          && (builder == Some(i) && filled != Some(i) ==> slots[i].pin == 0)
          && (unpinned == Some(i) ==> slots[i].pin == 0)
          && (slots[i].pin != 0 ==> slots[i].pin != loose))
    && (forall i, k :: 0 <= i < k < |slots| && slots[i].pin != 0 ==> slots[i].pin != slots[k].pin)
    && LooseLive(a, loose)
  }

  function FilledSlot(w: Worker): Option<nat>
  {
    if w.Filled? then Some(w.slot) else None
  }

  function Unpinned(w: Worker): Option<nat>
  {
    if w.Putting? || w.Settling? then Some(w.slot) else None
  }

  // ----- history -----

  predicate Released(log: seq<Note>, pin: nat)
  {
    PinReleased(pin) in log
  }

  /** Every pin is released at most once. */
  predicate Once(log: seq<Note>)
  {
    forall i, k :: 0 <= i < k < |log| && log[i].PinReleased? ==> log[i] != log[k]
  }

  /** No put is tried while a pin taken for its lease is out. */
  predicate PutsAfterPins(log: seq<Note>)
  {
    forall i, k :: 0 <= i < k < |log| && log[i].PinTaken? && log[k].PutTried? && log[k].lease == log[i].lease ==>
      PinReleased(log[i].pin) in log[..k]
  }

  /** A pin that is out: in a slot with its lease, or loose with the pending one. */
  predicate Out(slots: seq<Slot>, pending: nat, loose: nat, lease: nat, pin: nat)
  {
    || (exists i :: 0 <= i < |slots| && slots[i].phase != Empty && slots[i].lease == lease && slots[i].pin == pin)
    || (loose == pin && pending == lease)
  }

  predicate History(log: seq<Note>, slots: seq<Slot>, pending: nat, loose: nat, next: nat)
  {
    && Once(log) && PutsAfterPins(log)
    && (forall n :: n in log && n.PinReleased? ==> 0 < n.pin <= next)
    && (forall n :: n in log && n.PinTaken? ==> 0 < n.pin <= next && (Released(log, n.pin) || Out(slots, pending, loose, n.lease, n.pin)))
    && (forall i :: 0 <= i < |slots| && slots[i].pin != 0 ==> !Released(log, slots[i].pin) && slots[i].pin <= next)
    && (loose != 0 ==> !Released(log, loose) && loose <= next)
  }

  // ----- the invariant -----

  predicate PhasesOf(w: World)
  {
    Phases(w.m.slots, Builder(w.worker), Dropper(w.worker), OnScreen(w.ui), w.m.preserve, Saw(w.worker))
  }

  predicate LeasesOf(w: World)
    requires S.Sized(w.s)
  {
    Leases(w.m.slots, w.s, Builder(w.worker), Returned(w.worker), w.pending)
  }

  ghost predicate PinsOf(w: World)
  {
    Pins(w.m.slots, w.a, FilledSlot(w.worker), Builder(w.worker), Unpinned(w.worker), Loose(w.worker))
  }

  predicate HistoryOf(w: World)
  {
    History(w.log, w.m.slots, w.pending, Loose(w.worker), w.a.nextTicket)
  }

  /** The mailbox is never quarantined: no pin release ever fails. */
  predicate Calm(w: World)
  {
    !w.m.quarantined && !w.worker.Quarantining? && (w.worker.Aborting? ==> w.worker.released)
  }

  ghost predicate Inv(w: World)
  {
    && Shaped(w) && Calm(w) && S.Inv(w.s) && A.Inv(w.a, w.heap)
    && PhasesOf(w) && LeasesOf(w) && PinsOf(w) && HistoryOf(w)
  }

  // ----- steps that only move phases -----

  /** Slots change phase only, none between empty and in use, and what is shown has a pin. */
  predicate Rephased(slots: seq<Slot>, to: seq<Slot>)
  {
    && |to| == |slots|
    && forall i :: 0 <= i < |slots| ==>
         && to[i] == slots[i].(phase := to[i].phase)
         && (to[i].phase == Empty <==> slots[i].phase == Empty)
         && (Shows(to[i].phase) ==> slots[i].pin != 0)
  }

  lemma RephasedLeases(slots: seq<Slot>, to: seq<Slot>, s: S.Session, builder: Option<nat>, returned: Option<nat>, pending: nat)
    requires S.Sized(s) && Rephased(slots, to) && Leases(slots, s, builder, returned, pending)
    ensures Leases(to, s, builder, returned, pending)
  {
  }

  lemma RephasedPins(slots: seq<Slot>, to: seq<Slot>, a: A.Allocator, filled: Option<nat>, builder: Option<nat>, unpinned: Option<nat>, loose: nat)
    requires Rephased(slots, to) && Pins(slots, a, filled, builder, unpinned, loose)
    ensures Pins(to, a, filled, builder, unpinned, loose)
  {
    hide LooseLive, A.Pinned;
  }

  lemma RephasedHistory(log: seq<Note>, slots: seq<Slot>, to: seq<Slot>, pending: nat, loose: nat, next: nat)
    requires Rephased(slots, to) && History(log, slots, pending, loose, next)
    ensures History(log, to, pending, loose, next)
  {
    hide Once, PutsAfterPins, Released;
    forall n | n in log && n.PinTaken? && Out(slots, pending, loose, n.lease, n.pin) ensures Out(to, pending, loose, n.lease, n.pin) {
      OutRephased(slots, to, pending, loose, n.lease, n.pin);
    }
  }

  lemma OutRephased(slots: seq<Slot>, to: seq<Slot>, pending: nat, loose: nat, lease: nat, pin: nat)
    requires Rephased(slots, to) && Out(slots, pending, loose, lease, pin)
    ensures Out(to, pending, loose, lease, pin)
  {
    if !(loose == pin && pending == lease) {
      var i :| 0 <= i < |slots| && slots[i].phase != Empty && slots[i].lease == lease && slots[i].pin == pin;
      assert to[i].phase != Empty && to[i].lease == lease && to[i].pin == pin;
    }
  }

  /** A step that rephases slots and leaves the rest of the world alone keeps everything but the phases. */
  lemma RephaseKeeps(w: World, u: World)
    requires Inv(w) && Shaped(u) && Calm(u) && Rephased(w.m.slots, u.m.slots)
    requires u.s == w.s && u.a == w.a && u.heap == w.heap && u.pending == w.pending && u.log == w.log
    requires Builder(u.worker) == Builder(w.worker) && Returned(u.worker) == Returned(w.worker)
    requires FilledSlot(u.worker) == FilledSlot(w.worker) && Loose(u.worker) == Loose(w.worker)
    requires Unpinned(u.worker) == Unpinned(w.worker) || Unpinned(u.worker).None?
    requires PhasesOf(u)
    ensures Inv(u)
  {
    hide Phases, Leases, Pins, History, Rephased, S.Inv, A.Inv, Shaped;
    ShapedSizes(w);
    UnpinnedLess(u.m.slots, w.a, FilledSlot(w.worker), Builder(w.worker), Unpinned(w.worker), Loose(w.worker));
    RephasedLeases(w.m.slots, u.m.slots, w.s, Builder(w.worker), Returned(w.worker), w.pending);
    RephasedPins(w.m.slots, u.m.slots, w.a, FilledSlot(w.worker), Builder(w.worker), Unpinned(w.worker), Loose(w.worker));
    RephasedHistory(w.log, w.m.slots, u.m.slots, w.pending, Loose(w.worker), w.a.nextTicket);
  }

  lemma UnpinnedLess(slots: seq<Slot>, a: A.Allocator, filled: Option<nat>, builder: Option<nat>, unpinned: Option<nat>, loose: nat)
    ensures Pins(slots, a, filled, builder, unpinned, loose) ==> Pins(slots, a, filled, builder, None, loose)
  {
    hide PinLive, LooseLive;
  }

  lemma ShapedSizes(w: World)
    requires Shaped(w)
    ensures |w.m.slots| == SLOTS && S.Sized(w.s)
  {
  }

  // ----- the UI and the readers -----

  lemma MarkPhases(w: World, yuvOnly: bool)
    requires Inv(w) && w.ui.Idle?
    ensures var (m, i) := Mark(w.m, yuvOnly);
            var u := w.(m := m, ui := if i.Some? then Marked(i.value) else Idle);
            PhasesOf(u) && Shaped(u) && Rephased(w.m.slots, m.slots)
  {
    hide LeasesOf, HistoryOf, S.Inv, A.Inv, A.Pinned, LooseLive;
  }

  lemma UiStepPhases(w: World, made: bool)
    requires Inv(w)
    ensures var u := UiGoesOn(w, made);
            PhasesOf(u) && Shaped(u) && Calm(u) && Rephased(w.m.slots, u.m.slots)
  {
    hide LeasesOf, HistoryOf, PinsOf, S.Inv, A.Inv, Rephased;
    UiStepRephases(w, made);
  }

  lemma UiStepRephases(w: World, made: bool)
    requires Inv(w)
    ensures Rephased(w.m.slots, UiGoesOn(w, made).m.slots)
  {
    hide LeasesOf, HistoryOf, S.Inv, A.Inv, A.Pinned, LooseLive;
  }

  lemma ClosePhases(w: World)
    requires Inv(w)
    ensures var u := w.(m := Close(w.m)); PhasesOf(u) && Shaped(u) && Calm(u) && Rephased(w.m.slots, u.m.slots)
  {
    hide LeasesOf, HistoryOf, S.Inv, A.Inv, A.Pinned, LooseLive;
  }

  lemma PreservePhases(w: World, enabled: bool)
    requires Inv(w) && w.ui.Idle?
    ensures var u := w.(m := Preserve(w.m, enabled)); PhasesOf(u) && Shaped(u) && Calm(u) && Rephased(w.m.slots, u.m.slots)
  {
    hide LeasesOf, HistoryOf, S.Inv, A.Inv, A.Pinned, LooseLive;
  }

  lemma ReaderPhases(w: World, i: nat)
    requires Inv(w) && i < SLOTS && w.m.slots[i].phase == Published
    ensures var u := w.(m := HandBack(w.m, i)); PhasesOf(u) && Shaped(u) && Calm(u) && Rephased(w.m.slots, u.m.slots)
  {
    hide LeasesOf, HistoryOf, S.Inv, A.Inv, A.Pinned, LooseLive;
  }

  lemma UiKeeps(w: World, a: Action)
    requires Inv(w) && (a.Poll? || a.UiStep? || a.SetPreserve? || a.UiCloses? || a.ReaderDone?)
    ensures Shaped(w) && Inv(Next(w, a))
  {
    hide PhasesOf, LeasesOf, PinsOf, HistoryOf, Rephased, Shaped, S.Inv, A.Inv, Mark, UiGoesOn, Close;
    var u := Next(w, a);
    if u != w {
      match a
      case Poll(yuvOnly) => MarkPhases(w, yuvOnly); MarkCalm(w, yuvOnly); RephaseKeeps(w, u);
      case UiStep(made) => UiStepPhases(w, made); UiStepSame(w, made); RephaseKeeps(w, u);
      case SetPreserve(enabled) => PreservePhases(w, enabled); RephaseKeeps(w, u);
      case UiCloses => ClosePhases(w); RephaseKeeps(w, u);
      case ReaderDone(i) => ReaderPhases(w, i); RephaseKeeps(w, u);
    }
  }

  lemma MarkCalm(w: World, yuvOnly: bool)
    ensures Mark(w.m, yuvOnly).0.quarantined == w.m.quarantined
  {
  }

  lemma UiStepSame(w: World, made: bool)
    requires Shaped(w)
    ensures var u := UiGoesOn(w, made);
            && u.s == w.s && u.a == w.a && u.heap == w.heap && u.pending == w.pending && u.log == w.log && u.worker == w.worker
  {
  }

  // ----- the worker's steps that only move phases -----

  lemma WorkerCloseKeeps(w: World)
    requires Inv(w) && w.worker.Resting?
    ensures Inv(w.(m := Close(w.m)))
  {
    hide PhasesOf, LeasesOf, PinsOf, HistoryOf, Rephased, S.Inv, A.Inv, Close;
    ClosePhases(w);
    RephaseKeeps(w, w.(m := Close(w.m)));
  }

  lemma PromotePhases(w: World)
    requires Inv(w) && w.worker.Promoting?
    ensures var u := w.(m := Promote(w.m), worker := Taking(0));
            PhasesOf(u) && Shaped(u) && Calm(u) && Rephased(w.m.slots, u.m.slots)
  {
    hide LeasesOf, HistoryOf, S.Inv, A.Inv, A.Pinned, LooseLive;
  }

  lemma TakePhases(w: World)
    requires Inv(w) && w.worker.Taking?
    ensures var u := TakeSlot(w); PhasesOf(u) && Shaped(u) && Calm(u) && Rephased(w.m.slots, u.m.slots)
  {
    hide LeasesOf, HistoryOf, S.Inv, A.Inv, A.Pinned, LooseLive;
  }

  lemma RetryPhases(w: World)
    requires Inv(w) && w.worker.Settling? && !w.worker.returned
    ensures var u := SettleFrame(w); PhasesOf(u) && Shaped(u) && Calm(u) && Rephased(w.m.slots, u.m.slots)
  {
    hide LeasesOf, HistoryOf, S.Inv, A.Inv, A.Pinned, LooseLive;
  }

  lemma MoveKeeps(w: World)
    requires Inv(w) && (w.worker.Promoting? || w.worker.Taking? || (w.worker.Settling? && !w.worker.returned))
    ensures Shaped(w) && Inv(Toil(w, true, true, true)) && forall shown, rgb, put :: Toil(w, shown, rgb, put) == Toil(w, true, true, true)
  {
    hide PhasesOf, LeasesOf, PinsOf, HistoryOf, Rephased, S.Inv, A.Inv, Promote, TakeBack, Settle;
    if w.worker.Promoting? { PromotePhases(w); }
    else if w.worker.Taking? { TakePhases(w); }
    else { RetryPhases(w); }
    RephaseKeeps(w, Toil(w, true, true, true));
  }

  // ----- leases, step by step -----

  /** The mailbox never takes a lease it already holds. */
  lemma NeverAlready(w: World)
    requires Inv(w) && w.worker.Resting? && w.pending != 0
    ensures forall broken :: !Admit(w.m, w.pending, broken).1.Already?
  {
    hide PhasesOf, PinsOf, HistoryOf, S.Inv, A.Inv, S.Held;
  }

  lemma SubmitKeeps(w: World)
    requires Inv(w) && w.worker.Resting?
    ensures Shaped(w) && Inv(Submitted(w))
  {
    hide Phases, Leases, Pins, History, S.Inv, A.Inv, Admit, S.SlotOf;
    var k := S.SlotOf(w.s, w.pending, 0);
    if w.pending != 0 && k < S.LEASES {
      NeverAlready(w);
      var (m, r) := Admit(w.m, w.pending, w.s.faulted || w.s.frames[k].broken);
      if r.Into? {
        AdmitPhases(w, w.s.faulted || w.s.frames[k].broken);
        AdmitRest(w, w.s.faulted || w.s.frames[k].broken);
      }
    }
  }

  lemma AdmitPhases(w: World, broken: bool)
    requires Inv(w) && w.worker.Resting? && w.pending != 0 && Admit(w.m, w.pending, broken).1.Into?
    ensures var (m, r) := Admit(w.m, w.pending, broken);
            var u := w.(m := m, worker := Pinning(r.slot, w.m.preserve));
            PhasesOf(u) && Shaped(u) && Calm(u)
  {
    hide LeasesOf, HistoryOf, PinsOf, S.Inv, A.Inv;
  }

  lemma AdmitRest(w: World, broken: bool)
    requires Inv(w) && w.worker.Resting? && w.pending != 0 && Admit(w.m, w.pending, broken).1.Into?
    ensures var (m, r) := Admit(w.m, w.pending, broken);
            && r.slot < |m.slots| == |w.m.slots|
            && Leases(m.slots, w.s, Some(r.slot), None, w.pending)
            && Pins(m.slots, w.a, None, Some(r.slot), None, 0)
            && History(w.log, m.slots, w.pending, 0, w.a.nextTicket)
  {
    hide PhasesOf, LeasesOf, PinsOf, A.Inv, A.Pinned, Once, PutsAfterPins, Released, S.Inv, Leases, Pins;
    var (m, r) := Admit(w.m, w.pending, broken);
    AdmitLeasesAndPins(w, broken);
    assert w.m.slots[r.slot].phase == Empty;
    forall n | n in w.log && n.PinTaken? && Out(w.m.slots, w.pending, 0, n.lease, n.pin) ensures Out(m.slots, w.pending, 0, n.lease, n.pin) {
      OutElsewhere(w.m.slots, m.slots, r.slot, w.pending, 0, w.pending, 0, n.lease, n.pin);
    }
  }

  lemma AdmitLeasesAndPins(w: World, broken: bool)
    requires Inv(w) && w.worker.Resting? && w.pending != 0 && Admit(w.m, w.pending, broken).1.Into?
    ensures var (m, r) := Admit(w.m, w.pending, broken);
            && r.slot < |m.slots| == |w.m.slots|
            && Leases(m.slots, w.s, Some(r.slot), None, w.pending)
            && Pins(m.slots, w.a, None, Some(r.slot), None, 0)
  {
    hide PhasesOf, HistoryOf, A.Inv, S.Held, A.Pinned, S.Inv;
    PendingKnown(w);
  }

  lemma PendingKnown(w: World)
    requires Inv(w)
    ensures w.pending <= w.s.nextTicket
  {
    hide PhasesOf, PinsOf, HistoryOf, A.Inv;
    if w.pending != 0 { S.NoNewerLease(w.s, w.pending); }
  }

  /** What is out in another slot stays out. */
  lemma OutElsewhere(slots: seq<Slot>, to: seq<Slot>, i: nat, pending: nat, loose: nat, pending1: nat, loose1: nat, lease: nat, pin: nat)
    requires |to| == |slots| && i < |slots| && forall k :: 0 <= k < |slots| && k != i ==> to[k] == slots[k]
    requires Out(slots, pending, loose, lease, pin) && pin != 0 && loose == 0
    requires slots[i].phase == Empty || slots[i].pin == 0
    ensures Out(to, pending1, loose1, lease, pin)
  {
    var k :| 0 <= k < |slots| && slots[k].phase != Empty && slots[k].lease == lease && slots[k].pin == pin;
    assert to[k] == slots[k];
  }

  lemma LeaseKeeps(w: World, got: Option<S.Decoded>)
    requires Inv(w) && w.worker.Resting?
    ensures Shaped(w) && Inv(LeaseNext(w, got))
  {
    hide Phases, Pins, A.Inv, S.Held, S.Inv, Once, PutsAfterPins, Released, S.Acquire;
    if w.pending == 0 {
      S.AcquireKeeps(w.s, got);
      var u := LeaseNext(w, got);
      var (t, lease) := S.Acquire(w.s, got);
      assert u.s == t && t.nextTicket >= w.s.nextTicket;
      SessionSized(u.s);
      NewLease(w.m.slots, w.s, u.s, u.pending);
      forall n | n in w.log && n.PinTaken? && Out(w.m.slots, 0, 0, n.lease, n.pin) ensures Out(w.m.slots, u.pending, 0, n.lease, n.pin) {
        OutInSlot(w.m.slots, 0, u.pending, n.lease, n.pin);
      }
    }
  }

  lemma SessionSized(s: S.Session)
    requires S.Inv(s)
    ensures S.Sized(s)
  {
  }

  lemma NewLease(slots: seq<Slot>, s: S.Session, t: S.Session, pending: nat)
    requires S.Sized(s) && S.Sized(t) && Leases(slots, s, None, None, 0)
    requires t.nextTicket >= s.nextTicket && (pending != 0 ==> pending == s.nextTicket + 1)
    requires forall l: nat :: S.Held(t, l) <==> S.Held(s, l) || (pending != 0 && l == pending)
    ensures Leases(slots, t, None, None, pending)
  {
    hide S.Held;
  }

  lemma OutInSlot(slots: seq<Slot>, pending: nat, pending1: nat, lease: nat, pin: nat)
    requires Out(slots, pending, 0, lease, pin) && pin != 0
    ensures Out(slots, pending1, 0, lease, pin)
  {
  }

  lemma ReturnKeeps(w: World, put: bool)
    requires Inv(w) && w.worker.Resting?
    ensures Shaped(w) && Inv(ReturnPending(w, put))
  {
    hide Phases, Pins, A.Inv, S.Held, S.Inv, Once, PutsAfterPins, Released, Leases, History, S.Release;
    if w.pending != 0 {
      S.ReleaseKeeps(w.s, w.pending, put);
      var u := ReturnPending(w, put);
      SessionSized(u.s);
      PendingReturned(w.m.slots, w.s, u.s, w.pending, u.pending);
      PendingPutLate(w, u.pending == 0);
    }
  }

  lemma PendingReturned(slots: seq<Slot>, s: S.Session, t: S.Session, pending: nat, left: nat)
    requires S.Sized(s) && S.Sized(t) && Leases(slots, s, None, None, pending) && pending != 0 && (left == 0 || left == pending)
    requires t.nextTicket == s.nextTicket
    requires forall l: nat :: S.Held(t, l) <==> S.Held(s, l) && !(left == 0 && l == pending)
    ensures Leases(slots, t, None, None, left)
  {
    hide S.Held;
  }

  /** A lease that is in no slot has no pin out, so it may be put. */
  lemma PendingPutLate(w: World, ok: bool)
    requires Inv(w) && w.worker.Resting? && w.pending != 0
    ensures History(w.log + [PutTried(w.pending, ok)], w.m.slots, if ok then 0 else w.pending, 0, w.a.nextTicket)
  {
    hide Phases, Pins, A.Inv, S.Held, S.Inv;
    forall n | n in w.log && n.PinTaken? && n.lease == w.pending ensures Released(w.log, n.pin) {}
    PutLate(w.log, w.m.slots, w.pending, w.a.nextTicket, w.pending, ok);
    if ok {
      forall n | n in w.log && n.PinTaken? && Out(w.m.slots, w.pending, 0, n.lease, n.pin) ensures Out(w.m.slots, 0, 0, n.lease, n.pin) {
        OutInSlot(w.m.slots, w.pending, 0, n.lease, n.pin);
      }
    }
  }

  lemma PutLate(log: seq<Note>, slots: seq<Slot>, pending: nat, next: nat, lease: nat, ok: bool)
    requires History(log, slots, pending, 0, next)
    requires forall n :: n in log && n.PinTaken? && n.lease == lease ==> Released(log, n.pin)
    ensures History(log + [PutTried(lease, ok)], slots, pending, 0, next)
  {
    hide Out;
    var to := log + [PutTried(lease, ok)];
    assert forall k :: 0 <= k <= |log| ==> to[..k] == log[..k];
    assert log[..|log|] == log;
    assert forall p :: Released(log, p) <==> Released(to, p);
  }

  // ----- giving back, step by step -----

  lemma PutKeeps(w: World, put: bool)
    requires Inv(w) && w.worker.Putting?
    ensures Shaped(w) && Inv(PutFrame(w, put))
  {
    hide Phases, A.Inv, S.Held, S.Inv, Leases, History, S.Release, Pins;
    var i := w.worker.slot;
    var lease := w.m.slots[i].lease;
    S.ReleaseKeeps(w.s, lease, put);
    var u := PutFrame(w, put);
    SessionSized(u.s);
    PutSlot(w);
    SlotReturned(w.m.slots, w.s, u.s, i, w.pending, u.worker.returned);
    SlotPutLate(w, i);
    PutLate(w.log, w.m.slots, w.pending, w.a.nextTicket, lease, u.worker.returned);
  }

  lemma PutSlot(w: World)
    requires Inv(w) && w.worker.Putting?
    ensures w.m.slots[w.worker.slot].phase == Releasing && w.m.slots[w.worker.slot].pin == 0
  {
    hide Leases, History, A.Inv, S.Inv, PinLive;
  }

  lemma SlotReturned(slots: seq<Slot>, s: S.Session, t: S.Session, i: nat, pending: nat, ok: bool)
    requires S.Sized(s) && S.Sized(t) && Leases(slots, s, None, None, pending) && i < |slots| && slots[i].phase != Empty
    requires t.nextTicket == s.nextTicket
    requires forall l: nat :: S.Held(t, l) <==> S.Held(s, l) && !(ok && l == slots[i].lease)
    ensures Leases(slots, t, None, if ok then Some(i) else None, pending)
  {
    hide S.Held;
  }

  lemma SlotPutLate(w: World, i: nat)
    requires Inv(w) && i < SLOTS && w.m.slots[i].phase != Empty && w.m.slots[i].pin == 0 && Loose(w.worker) == 0
    ensures forall n :: n in w.log && n.PinTaken? && n.lease == w.m.slots[i].lease ==> Released(w.log, n.pin)
  {
    hide Phases, A.Inv, S.Held, S.Inv, Pins;
    forall n | n in w.log && n.PinTaken? && n.lease == w.m.slots[i].lease ensures Released(w.log, n.pin) {
      NotOut(w.m.slots, i, w.s, Builder(w.worker), Returned(w.worker), w.pending, n.pin);
    }
  }

  /** A slot without a pin stands for no pin of its lease. */
  lemma NotOut(slots: seq<Slot>, i: nat, s: S.Session, builder: Option<nat>, returned: Option<nat>, pending: nat, pin: nat)
    requires S.Sized(s) && Leases(slots, s, builder, returned, pending)
    requires i < |slots| && slots[i].phase != Empty && slots[i].pin == 0 && pin != 0
    ensures !Out(slots, pending, 0, slots[i].lease, pin)
  {
  }

  lemma DoneKeeps(w: World)
    requires Inv(w) && w.worker.Settling? && w.worker.returned
    ensures Shaped(w) && Inv(SettleFrame(w))
  {
    hide Phases, Leases, Pins, History, A.Inv, S.Inv;
    DonePhases(w);
    DoneSlot(w);
    SlotEmptied(w.m.slots, w.worker.slot, w.s, w.a, w.log, w.pending, w.a.nextTicket, Returned(w.worker), Unpinned(w.worker));
  }

  lemma DoneSlot(w: World)
    requires Inv(w) && w.worker.Settling?
    ensures w.m.slots[w.worker.slot].pin == 0
  {
    hide Phases, Leases, History, A.Inv, S.Inv, PinLive;
  }

  lemma DonePhases(w: World)
    requires Inv(w) && w.worker.Settling?
    ensures PhasesOf(SettleFrame(w)) && Shaped(SettleFrame(w))
  {
    hide Leases, Pins, History, A.Inv, S.Inv;
  }

  /** Emptying a slot without a pin. */
  lemma SlotEmptied(slots: seq<Slot>, i: nat, s: S.Session, a: A.Allocator, log: seq<Note>, pending: nat, next: nat,
                    returned: Option<nat>, unpinned: Option<nat>)
    requires S.Sized(s) && i < |slots| && slots[i].pin == 0 && (returned.Some? ==> returned == Some(i))
    requires Leases(slots, s, None, returned, pending) && Pins(slots, a, None, None, unpinned, 0) && History(log, slots, pending, 0, next)
    ensures var to := slots[i := slots[i].(phase := Empty)];
            Leases(to, s, None, None, pending) && Pins(to, a, None, None, None, 0) && History(log, to, pending, 0, next)
  {
    hide S.Held, PinLive, LooseLive, Once, PutsAfterPins, Released, Out;
    var to := slots[i := slots[i].(phase := Empty)];
    SamePins(slots, to, a);
    forall n | n in log && n.PinTaken? && Out(slots, pending, 0, n.lease, n.pin) ensures Out(to, pending, 0, n.lease, n.pin) {
      OutElsewhere(slots, to, i, pending, 0, pending, 0, n.lease, n.pin);
    }
  }

  lemma SamePins(slots: seq<Slot>, to: seq<Slot>, a: A.Allocator)
    requires |to| == |slots|
    requires forall k :: 0 <= k < |slots| ==> to[k].pin == slots[k].pin && to[k].addr == slots[k].addr && to[k].capacity == slots[k].capacity
    ensures forall k :: 0 <= k < |slots| ==> PinLive(a, to[k]) == PinLive(a, slots[k])
  {
    hide A.Pinned;
  }

  // ----- finishing a submission -----

  lemma AbortKeeps(w: World)
    requires Inv(w) && w.worker.Aborting?
    ensures Shaped(w) && Inv(AbortFrame(w))
  {
    hide Phases, Leases, Pins, History, A.Inv, S.Inv;
    AbortPhases(w);
    AbortSlot(w);
    BuildDropped(w.m.slots, w.worker.slot, w.s, w.a, w.log, w.pending, w.a.nextTicket);
  }

  lemma AbortPhases(w: World)
    requires Inv(w) && w.worker.Aborting?
    ensures PhasesOf(AbortFrame(w)) && Shaped(AbortFrame(w))
  {
    hide Leases, Pins, History, A.Inv, S.Inv;
  }

  lemma AbortSlot(w: World)
    requires Inv(w) && w.worker.Aborting?
    ensures w.m.slots[w.worker.slot].pin == 0 && w.m.slots[w.worker.slot].phase == Building
  {
    hide Leases, History, A.Inv, S.Inv, PinLive;
  }

  /** Giving up the slot being built; the lease stays pending. */
  lemma BuildDropped(slots: seq<Slot>, i: nat, s: S.Session, a: A.Allocator, log: seq<Note>, pending: nat, next: nat)
    requires S.Sized(s) && i < |slots| && slots[i].pin == 0
    requires Leases(slots, s, Some(i), None, pending) && Pins(slots, a, None, Some(i), None, 0) && History(log, slots, pending, 0, next)
    ensures var to := slots[i := slots[i].(phase := Empty)];
            Leases(to, s, None, None, pending) && Pins(to, a, None, None, None, 0) && History(log, to, pending, 0, next)
  {
    hide S.Held, PinLive, LooseLive, Once, PutsAfterPins, Released, Out;
    var to := slots[i := slots[i].(phase := Empty)];
    SamePins(slots, to, a);
    forall n | n in log && n.PinTaken? && Out(slots, pending, 0, n.lease, n.pin) ensures Out(to, pending, 0, n.lease, n.pin) {
      OutElsewhere(slots, to, i, pending, 0, pending, 0, n.lease, n.pin);
    }
  }

  lemma PublishKeeps(w: World)
    requires Inv(w) && w.worker.Filled?
    ensures Shaped(w) && Inv(PublishFrame(w))
  {
    hide Phases, Leases, Pins, History, A.Inv, S.Inv, Publish, Rephased;
    var i, to := w.worker.slot, Publish(w.m, w.worker.slot).slots;
    PublishPhases(w);
    PublishRephases(w);
    RephasedLeases(w.m.slots, to, w.s, Some(i), None, w.pending);
    RephasedPins(w.m.slots, to, w.a, Some(i), Some(i), None, 0);
    RephasedHistory(w.log, w.m.slots, to, w.pending, 0, w.a.nextTicket);
    PendingMoved(to, i, w.s, w.a, w.log, w.pending, w.a.nextTicket);
  }

  lemma PublishRephases(w: World)
    requires Inv(w) && w.worker.Filled?
    ensures Rephased(w.m.slots, Publish(w.m, w.worker.slot).slots)
  {
    hide LeasesOf, HistoryOf, A.Inv, S.Inv, PinLive, LooseLive;
  }

  lemma DeferredPhases(slots: seq<Slot>, i: nat, shown: Option<nat>, preserve: bool, saw: bool)
    requires i < |slots| && Phases(slots, Some(i), None, shown, preserve, saw)
    ensures Phases(slots[i := slots[i].(phase := Deferred)], None, None, shown, preserve, false)
  {
    hide Pending;
  }

  /** After a publication in place the published slot is the only one that may be ready. */
  lemma ReplacedPhases(slots: seq<Slot>, to: seq<Slot>, i: nat, shown: Option<nat>, preserve: bool, saw: bool)
    requires i < |slots| && Phases(slots, Some(i), None, shown, preserve, saw) && |to| == |slots|
    requires forall k :: 0 <= k < |slots| && k != i ==>
               to[k].phase == if slots[k].phase == Ready || slots[k].phase == Deferred then Returning else slots[k].phase
    requires to[i].phase == Ready || to[i].phase == Returning
    requires to[i].phase == Ready && preserve ==> shown.None?
    ensures Phases(to, None, None, shown, preserve, false)
  {
    hide Pending;
    assert forall k :: 0 <= k < |slots| && k != i ==> to[k].phase != Ready;
  }

  lemma PublishPhases(w: World)
    requires Inv(w) && w.worker.Filled?
    ensures var u := PublishFrame(w); PhasesOf(u) && Shaped(u) && Calm(u)
  {
    hide Phases, LeasesOf, HistoryOf, PinsOf, A.Inv, S.Inv;
    var i, u, shown := w.worker.slot, PublishFrame(w), OnScreen(w.ui);
    ShownPublishing(w);
    if w.m.preserve && Open(w.m) && Any(w.m, (s: Slot) => s.phase == Ready || s.phase == Publishing) {
      DeferredPhases(w.m.slots, i, shown, w.m.preserve, Saw(w.worker));
    } else {
      ReplacedPhases(w.m.slots, u.m.slots, i, shown, w.m.preserve, Saw(w.worker));
    }
  }

  lemma ShownPublishing(w: World)
    requires Inv(w)
    ensures OnScreen(w.ui).Some? ==> Any(w.m, (s: Slot) => s.phase == Ready || s.phase == Publishing)
  {
    hide LeasesOf, HistoryOf, PinsOf, A.Inv, S.Inv;
  }

  /** The pending lease now belongs to its slot. */
  lemma PendingMoved(slots: seq<Slot>, i: nat, s: S.Session, a: A.Allocator, log: seq<Note>, pending: nat, next: nat)
    requires S.Sized(s) && i < |slots|
    requires Leases(slots, s, Some(i), None, pending) && Pins(slots, a, Some(i), Some(i), None, 0) && History(log, slots, pending, 0, next)
    ensures Leases(slots, s, None, None, 0) && Pins(slots, a, None, None, None, 0) && History(log, slots, 0, 0, next)
  {
    hide S.Held, PinLive, LooseLive, Once, PutsAfterPins, Released, Out;
    forall n | n in log && n.PinTaken? && Out(slots, pending, 0, n.lease, n.pin) ensures Out(slots, 0, 0, n.lease, n.pin) {
      OutInSlot(slots, pending, 0, n.lease, n.pin);
    }
  }

  // ----- pins, step by step -----

  lemma SdkKeeps(w: World, a: Action)
    requires Inv(w) && (a.SdkAllocates? || a.SdkFrees?)
    ensures Shaped(w) && Inv(Next(w, a))
  {
    hide Phases, Leases, Pins, History, A.Inv, S.Inv, A.Allocate, A.FreeFrame, A.Pinned, AnswersFair;
    match a
    case SdkFrees(f) =>
      A.FreeFrameKeeps(w.a, w.heap, f);
      FreeTicket(w.a, w.heap, f);
      forall t: nat, addr, capacity | A.Pinned(w.a, t, addr, capacity)
        ensures A.Pinned(A.FreeFrame(w.a, w.heap, f).0, t, addr, capacity)
      {
        A.PinSurvivesFree(w.a, w.heap, f, t, addr, capacity);
      }
      SdkPins(w, A.FreeFrame(w.a, w.heap, f).0);
    case SdkAllocates(width, stride, height, format, answers) =>
      if AnswersFair(w, a) {
        FairAnswers(w, a);
        A.AllocateKeeps(w.a, w.heap, width, stride, height, format, answers);
        AllocateTicket(w.a, w.heap, width, stride, height, format, answers);
        forall t: nat, addr, capacity | A.Pinned(w.a, t, addr, capacity)
          ensures A.Pinned(A.Allocate(w.a, w.heap, width, stride, height, format, answers).0, t, addr, capacity)
        {
          A.PinSurvivesAllocate(w.a, w.heap, width, stride, height, format, answers, t, addr, capacity);
        }
        SdkPins(w, A.Allocate(w.a, w.heap, width, stride, height, format, answers).0);
      }
  }

  lemma FairAnswers(w: World, a: Action)
    requires a.SdkAllocates? && AnswersFair(w, a)
    ensures |a.answers| == 3
    ensures A.Layout(a.width, a.stride, a.height, a.format).Some? ==>
              A.AnswersApart(w.heap, A.Layout(a.width, a.stride, a.height, a.format).value.1, a.answers, 0)
  {
  }

  lemma FreeTicket(a: A.Allocator, heap: A.Heap, f: A.Frame)
    ensures A.FreeFrame(a, heap, f).0.nextTicket == a.nextTicket
  {
  }

  lemma AllocateTicket(a: A.Allocator, heap: A.Heap, width: int, stride: int, height: int, f: A.Format, answers: seq<Option<nat>>)
    requires |answers| == 3
    ensures A.Allocate(a, heap, width, stride, height, f, answers).0.nextTicket == a.nextTicket
  {
    hide A.Layout, A.Reserve;
  }

  lemma SdkPins(w: World, b: A.Allocator)
    requires Inv(w)
    requires forall t: nat, addr, capacity :: A.Pinned(w.a, t, addr, capacity) ==> A.Pinned(b, t, addr, capacity)
    ensures Pins(w.m.slots, b, FilledSlot(w.worker), Builder(w.worker), Unpinned(w.worker), Loose(w.worker))
  {
    hide Phases, Leases, History, A.Inv, S.Inv, A.Pinned;
  }

  lemma PinKeeps(w: World, shown: bool, rgb: bool)
    requires Inv(w) && w.worker.Pinning?
    ensures Shaped(w) && Inv(PinFrame(w, shown, rgb))
  {
    hide Phases, Leases, Pins, History, A.Inv, S.Inv, A.Acquire, S.SlotOf, A.Pinned;
    var i, k := w.worker.slot, S.SlotOf(w.s, w.pending, 0);
    PinPhases(w, shown, rgb);
    BuildingSlot(w);
    if k < S.LEASES {
      var f := w.s.frames[k].frame;
      A.AcquireKeeps(w.a, w.heap, f);
      A.AcquiredPins(w.a, w.heap, f);
      var (b, pin) := A.Acquire(w.a, f);
      if pin.Some? {
        AcquiredSlots(w, b, f);
        NewPin(w.log, w.m.slots, i, w.pending, w.a.nextTicket, pin.value.0, f.addr, pin.value.1, rgb);
        if shown {
          FilledLeases(w.m, i, w.s, w.pending, pin.value.0, f.addr, pin.value.1, rgb);
          FilledPins(w.m, i, b, w.a.nextTicket, w.pending, pin.value.0, f.addr, pin.value.1, rgb);
        } else {
          LoosePins(w.m.slots, i, b, w.a.nextTicket, pin.value.0, f.addr, pin.value.1);
        }
      } else {
        AcquireNone(w.a, f);
      }
    }
  }

  lemma AcquireNone(a: A.Allocator, f: A.Frame)
    ensures A.Acquire(a, f).1.None? ==> A.Acquire(a, f).0 == a
  {
  }

  lemma PinPhases(w: World, shown: bool, rgb: bool)
    requires Inv(w) && w.worker.Pinning?
    ensures var u := PinFrame(w, shown, rgb); PhasesOf(u) && Shaped(u) && Calm(u)
  {
    hide LeasesOf, HistoryOf, PinsOf, A.Inv, S.Inv, A.Acquire, S.SlotOf;
  }

  lemma BuildingSlot(w: World)
    requires Inv(w) && w.worker.Pinning?
    ensures var i := w.worker.slot;
            w.m.slots[i].phase == Building && w.m.slots[i].pin == 0 && w.m.slots[i].lease == w.pending != 0
    ensures forall k :: 0 <= k < SLOTS && w.m.slots[k].pin != 0 ==> w.m.slots[k].pin <= w.a.nextTicket
  {
    hide A.Inv, S.Inv, PinLive, LooseLive, Out, Once, PutsAfterPins, Released;
  }

  lemma AcquiredSlots(w: World, b: A.Allocator, f: A.Frame)
    requires Inv(w) && w.worker.Pinning? && b == A.Acquire(w.a, f).0
    ensures Pins(w.m.slots, b, None, Some(w.worker.slot), None, 0)
  {
    hide Phases, Leases, History, A.Inv, S.Inv, A.Acquire, A.Pinned;
    forall k | 0 <= k < |w.m.slots| && w.m.slots[k].pin != 0 ensures PinLive(b, w.m.slots[k]) {
      A.PinSurvivesAcquire(w.a, f, w.m.slots[k].pin, w.m.slots[k].addr, w.m.slots[k].capacity);
    }
  }

  lemma FilledLeases(m: Mailbox, i: nat, s: S.Session, pending: nat, pin: nat, addr: A.Planes, capacity: A.Planes, rgb: bool)
    requires S.Sized(s) && i < |m.slots| && m.slots[i].lease == pending && Leases(m.slots, s, Some(i), None, pending)
    ensures Leases(Fill(m, i, pending, pin, addr, capacity, rgb).slots, s, Some(i), None, pending)
  {
    hide S.Held;
  }

  lemma FilledPins(m: Mailbox, i: nat, b: A.Allocator, next: nat, pending: nat, pin: nat, addr: A.Planes, capacity: A.Planes, rgb: bool)
    requires i < |m.slots| && m.slots[i].phase == Building && Pins(m.slots, b, None, Some(i), None, 0) && pin == next + 1
    requires forall k :: 0 <= k < |m.slots| && m.slots[k].pin != 0 ==> m.slots[k].pin <= next
    requires A.Pinned(b, pin, addr, capacity)
    ensures Pins(Fill(m, i, pending, pin, addr, capacity, rgb).slots, b, Some(i), Some(i), None, 0)
  {
    hide A.Pinned, LooseLive;
  }

  lemma LoosePins(slots: seq<Slot>, i: nat, b: A.Allocator, next: nat, pin: nat, addr: A.Planes, capacity: A.Planes)
    requires Pins(slots, b, None, Some(i), None, 0) && pin == next + 1 && A.Pinned(b, pin, addr, capacity)
    requires forall k :: 0 <= k < |slots| && slots[k].pin != 0 ==> slots[k].pin <= next
    ensures Pins(slots, b, None, Some(i), None, pin)
  {
    hide A.Pinned, PinLive;
  }

  /** Taking a pin: it is new, and it is out in the slot or loose. */
  lemma NewPin(log: seq<Note>, slots: seq<Slot>, i: nat, pending: nat, next: nat, pin: nat, addr: A.Planes, capacity: A.Planes, rgb: bool)
    requires i < |slots| && slots[i].phase == Building && slots[i].pin == 0 && slots[i].lease == pending
    requires History(log, slots, pending, 0, next) && pin == next + 1
    ensures var to := log + [PinTaken(pending, pin)];
            var filled := slots[i := slots[i].(lease := pending, pin := pin, addr := addr, capacity := capacity, rgb := rgb)];
            History(to, slots, pending, pin, pin) && History(to, filled, pending, 0, pin)
  {
    hide Out;
    var to := log + [PinTaken(pending, pin)];
    var filled := slots[i := slots[i].(lease := pending, pin := pin, addr := addr, capacity := capacity, rgb := rgb)];
    LogGrown(log, PinTaken(pending, pin));
    OutFilled(slots, filled, i, pending, pin);
    forall n | n in log && n.PinTaken? && Out(slots, pending, 0, n.lease, n.pin)
      ensures Out(filled, pending, 0, n.lease, n.pin) && Out(slots, pending, pin, n.lease, n.pin)
    {
      OutElsewhere(slots, filled, i, pending, 0, pending, 0, n.lease, n.pin);
      OutElsewhere(slots, slots, i, pending, 0, pending, pin, n.lease, n.pin);
    }
  }

  lemma OutFilled(slots: seq<Slot>, filled: seq<Slot>, i: nat, pending: nat, pin: nat)
    requires |filled| == |slots| && i < |slots| && filled[i].phase != Empty && filled[i].lease == pending && filled[i].pin == pin
    ensures Out(slots, pending, pin, pending, pin) && Out(filled, pending, 0, pending, pin)
  {
  }

  /** A note that is no put keeps the order of puts; one that is no release keeps the releases. */
  lemma LogGrown(log: seq<Note>, n: Note)
    requires Once(log) && PutsAfterPins(log) && !n.PutTried? && (n.PinReleased? ==> !Released(log, n.pin))
    ensures var to := log + [n];
            Once(to) && PutsAfterPins(to) && forall p :: Released(to, p) <==> Released(log, p) || n == PinReleased(p)
  {
    var to := log + [n];
    assert forall k :: 0 <= k <= |log| ==> to[..k] == log[..k];
  }

  /** A live pin can always be released. */
  lemma ReleaseWorks(a: A.Allocator, heap: A.Heap, pin: nat, addr: A.Planes, capacity: A.Planes)
    requires A.Inv(a, heap) && A.Pinned(a, pin, addr, capacity)
    ensures A.Release(a, heap, pin).2 && A.Release(a, heap, pin).0.nextTicket == a.nextTicket
  {
    hide A.HeapFits, A.Disjoint, A.Sum, A.Layout, A.RecordFits, A.TicketsDistinct;
    var i :| 0 <= i < |a.frames| && A.IsPin(a.frames[i], pin, addr, capacity);
  }

  lemma UnpinKeeps(w: World)
    requires Inv(w) && w.worker.Unpinning?
    ensures Shaped(w) && Inv(UnpinFrame(w))
  {
    hide Phases, Leases, Pins, History, A.Inv, S.Inv, A.Release, A.Pinned;
    var pin, i := w.worker.pin, w.worker.slot;
    UnpinPhases(w);
    if pin != 0 {
      LoosePinned(w);
      var addr, capacity :| A.Pinned(w.a, pin, addr, capacity);
      ReleaseWorks(w.a, w.heap, pin, addr, capacity);
      A.ReleaseKeeps(w.a, w.heap, pin);
      SlotsAfterRelease(w, pin);
      LooseReleased(w.log, w.m.slots, w.pending, pin, w.a.nextTicket);
    }
  }

  lemma LoosePinned(w: World)
    requires Inv(w) && w.worker.Unpinning? && w.worker.pin != 0
    ensures exists addr, capacity :: A.Pinned(w.a, w.worker.pin, addr, capacity)
    ensures Pins(w.m.slots, w.a, None, Builder(w.worker), None, w.worker.pin)
    ensures History(w.log, w.m.slots, w.pending, w.worker.pin, w.a.nextTicket)
    ensures forall k :: 0 <= k < SLOTS && w.m.slots[k].pin != 0 ==> w.m.slots[k].pin != w.worker.pin
  {
    hide Phases, Leases, History, A.Inv, S.Inv, A.Pinned, PinLive;
  }

  lemma UnpinPhases(w: World)
    requires Inv(w) && w.worker.Unpinning?
    ensures var u := UnpinFrame(w); PhasesOf(u) && Shaped(u) && u.m == w.m
  {
    hide Leases, Pins, History, A.Inv, S.Inv, A.Release;
  }

  /** Releasing the loose pin leaves every slot's pin live. */
  lemma SlotsAfterRelease(w: World, pin: nat)
    requires Inv(w) && w.worker.Unpinning? && pin == w.worker.pin != 0
    ensures Pins(w.m.slots, A.Release(w.a, w.heap, pin).0, None, Some(w.worker.slot), None, 0)
  {
    hide Phases, Leases, History, A.Inv, S.Inv, A.Release, A.Pinned;
    forall k | 0 <= k < |w.m.slots| && w.m.slots[k].pin != 0 ensures PinLive(A.Release(w.a, w.heap, pin).0, w.m.slots[k]) {
      A.PinSurvivesRelease(w.a, w.heap, pin, w.m.slots[k].pin, w.m.slots[k].addr, w.m.slots[k].capacity);
    }
  }

  lemma LooseReleased(log: seq<Note>, slots: seq<Slot>, pending: nat, pin: nat, next: nat)
    requires pin != 0 && History(log, slots, pending, pin, next)
    requires forall k :: 0 <= k < |slots| && slots[k].pin != 0 ==> slots[k].pin != pin
    ensures History(log + [PinReleased(pin)], slots, pending, 0, next)
  {
    LogGrown(log, PinReleased(pin));
    hide Once, PutsAfterPins, Released;
    forall n | n in log && n.PinTaken? && Out(slots, pending, pin, n.lease, n.pin) && n.pin != pin ensures Out(slots, pending, 0, n.lease, n.pin) {}
  }

  lemma DropKeeps(w: World)
    requires Inv(w) && w.worker.Dropping?
    ensures Shaped(w) && Inv(DropPin(w))
  {
    hide Phases, Leases, Pins, History, A.Inv, S.Inv, A.Release, A.Pinned;
    var i := w.worker.slot;
    var slot := w.m.slots[i];
    if slot.pin == 0 {
      DroppedPhases(w);
      NothingToDrop(w.m.slots, w.a, i);
    } else {
      DropSlot(w);
      ReleaseWorks(w.a, w.heap, slot.pin, slot.addr, slot.capacity);
      DroppedPhases(w);
      A.ReleaseKeeps(w.a, w.heap, slot.pin);
      SlotsAfterDrop(w);
      DroppedLeases(w.m, i, w.s, w.pending);
      SlotReleased(w.log, w.m.slots, i, w.pending, w.a.nextTicket);
    }
  }

  lemma NothingToDrop(slots: seq<Slot>, a: A.Allocator, i: nat)
    requires i < |slots| && slots[i].pin == 0 && Pins(slots, a, None, None, None, 0)
    ensures Pins(slots, a, None, None, Some(i), 0)
  {
    hide PinLive, LooseLive;
  }

  lemma DropSlot(w: World)
    requires Inv(w) && w.worker.Dropping? && w.m.slots[w.worker.slot].pin != 0
    ensures var slot := w.m.slots[w.worker.slot]; slot.phase == Releasing && A.Pinned(w.a, slot.pin, slot.addr, slot.capacity)
    ensures forall k :: 0 <= k < SLOTS && k != w.worker.slot ==> w.m.slots[k].pin != w.m.slots[w.worker.slot].pin
  {
    hide Leases, History, A.Inv, S.Inv, A.Pinned;
  }

  lemma DroppedPhases(w: World)
    requires Inv(w) && w.worker.Dropping?
    requires w.m.slots[w.worker.slot].pin != 0 ==> A.Release(w.a, w.heap, w.m.slots[w.worker.slot].pin).2
    ensures var u := DropPin(w); PhasesOf(u) && Shaped(u) && Calm(u)
  {
    hide Leases, Pins, History, A.Inv, S.Inv, A.Release;
  }

  lemma DroppedLeases(m: Mailbox, i: nat, s: S.Session, pending: nat)
    requires S.Sized(s) && i < |m.slots| && Leases(m.slots, s, None, None, pending)
    ensures Leases(Unpin(m, i).slots, s, None, None, pending)
  {
    hide S.Held;
  }

  lemma SlotsAfterDrop(w: World)
    requires Inv(w) && w.worker.Dropping? && w.m.slots[w.worker.slot].pin != 0
    ensures Pins(Unpin(w.m, w.worker.slot).slots, A.Release(w.a, w.heap, w.m.slots[w.worker.slot].pin).0, None, None, Some(w.worker.slot), 0)
  {
    hide Leases, History, A.Inv, S.Inv, A.Release, A.Pinned;
    DropSlot(w);
    var pin := w.m.slots[w.worker.slot].pin;
    forall k | 0 <= k < |w.m.slots| && k != w.worker.slot && w.m.slots[k].pin != 0
      ensures PinLive(A.Release(w.a, w.heap, pin).0, w.m.slots[k])
    {
      A.PinSurvivesRelease(w.a, w.heap, pin, w.m.slots[k].pin, w.m.slots[k].addr, w.m.slots[k].capacity);
    }
  }

  lemma SlotReleased(log: seq<Note>, slots: seq<Slot>, i: nat, pending: nat, next: nat)
    requires i < |slots| && slots[i].pin != 0 && History(log, slots, pending, 0, next)
    requires forall k :: 0 <= k < |slots| && k != i ==> slots[k].pin != slots[i].pin
    ensures History(log + [PinReleased(slots[i].pin)], slots[i := slots[i].(pin := 0)], pending, 0, next)
  {
    var to, pin := slots[i := slots[i].(pin := 0)], slots[i].pin;
    LogGrown(log, PinReleased(pin));
    hide Once, PutsAfterPins, Released, Out;
    forall n | n in log && n.PinTaken? && Out(slots, pending, 0, n.lease, n.pin) && n.pin != pin ensures Out(to, pending, 0, n.lease, n.pin) {
      OutOther(slots, to, i, pending, n.lease, n.pin);
    }
  }

  lemma OutOther(slots: seq<Slot>, to: seq<Slot>, i: nat, pending: nat, lease: nat, pin: nat)
    requires i < |slots| && to == slots[i := slots[i].(pin := 0)] && Out(slots, pending, 0, lease, pin) && pin != 0 && pin != slots[i].pin
    ensures Out(to, pending, 0, lease, pin)
  {
    var k :| 0 <= k < |slots| && slots[k].phase != Empty && slots[k].lease == lease && slots[k].pin == pin;
    assert to[k] == slots[k];
  }

  // ----- every step -----

  lemma SameHeldLeases(slots: seq<Slot>, s: S.Session, t: S.Session, pending: nat)
    requires S.Sized(s) && S.Sized(t) && t.held == s.held && t.tickets == s.tickets && t.nextTicket == s.nextTicket
    requires Leases(slots, s, None, None, pending)
    ensures Leases(slots, t, None, None, pending)
  {
    forall l: nat ensures S.Held(t, l) <==> S.Held(s, l) { S.SameLeases(s, t, l); }
    hide S.Held;
  }

  lemma SessionKeeps(w: World, a: Action)
    requires Inv(w) && w.worker.Resting? && (a.CloseSession? || a.OpenSession?)
    ensures Shaped(w) && Inv(Begin(w, a))
  {
    hide Phases, Leases, Pins, History, A.Inv, S.Held;
    var u := Begin(w, a);
    if a.CloseSession? {
      S.CloseKeeps(w.s, a.stopped, a.destroyed);
      CloseTickets(w.s, a.stopped, a.destroyed);
    }
    assert S.Inv(u.s);
    SameHeldLeases(w.m.slots, w.s, u.s, w.pending);
  }

  lemma CloseTickets(s: S.Session, stopped: bool, destroyed: bool)
    ensures S.Close(s, stopped, destroyed).0.tickets == s.tickets
  {
  }

  lemma BeginKeeps(w: World, a: Action)
    requires Inv(w) && w.worker.Resting?
    ensures Shaped(w) && Inv(Begin(w, a))
  {
    hide Phases, Leases, Pins, History, A.Inv, S.Inv, LeaseNext, Submitted, ReturnPending, Close;
    match a
    case LeaseFrame(got) => LeaseKeeps(w, got);
    case SubmitPending => SubmitKeeps(w);
    case GiveBackPending(put) => ReturnKeeps(w, put);
    case WorkerCloses => WorkerCloseKeeps(w);
    case CloseSession(_, _) => SessionKeeps(w, a);
    case OpenSession(_) => SessionKeeps(w, a);
    case _ =>
  }

  lemma ToilKeeps(w: World, shown: bool, rgb: bool, put: bool)
    requires Inv(w)
    ensures Shaped(w) && Inv(Toil(w, shown, rgb, put))
  {
    hide Phases, Leases, Pins, History, A.Inv, S.Inv, PinFrame, PublishFrame, UnpinFrame, AbortFrame, TakeSlot, DropPin, PutFrame,
         SettleFrame, Promote;
    match w.worker
    case Pinning(_, _) => PinKeeps(w, shown, rgb);
    case Filled(_, _) => PublishKeeps(w);
    case Unpinning(_, _, _) => UnpinKeeps(w);
    case Aborting(_, _, _, _) => AbortKeeps(w);
    case Dropping(_) => DropKeeps(w);
    case Putting(_) => PutKeeps(w, put);
    case Settling(_, returned) => if returned { DoneKeeps(w); } else { MoveKeeps(w); }
    case Promoting => MoveKeeps(w);
    case Taking(_) => MoveKeeps(w);
    case _ =>
  }

  lemma StepKeeps(w: World, a: Action)
    requires Inv(w)
    ensures Shaped(w) && Inv(Next(w, a))
  {
    hide Inv, Toil, Begin, UiGoesOn, Mark, Close, HandBack, Preserve, A.Allocate, A.FreeFrame, AnswersFair;
    InvShaped(w);
    if a.Work? { ToilKeeps(w, a.shown, a.rgb, a.put); }
    else if a.Poll? || a.UiStep? || a.SetPreserve? || a.UiCloses? || a.ReaderDone? { UiKeeps(w, a); }
    else if a.SdkAllocates? || a.SdkFrees? { SdkKeeps(w, a); }
    else if w.worker.Resting? { BeginKeeps(w, a); }
  }

  lemma InvShaped(w: World)
    requires Inv(w)
    ensures Shaped(w)
  {
  }

  lemma CreatedKeeps(budget: nat)
    ensures Inv(NewWorld(budget))
  {
    hide A.Inv;
    A.CreatedKeeps(budget);
  }

  /** The world after a sequence of steps of any thread. */
  ghost function Reached(budget: nat, actions: seq<Action>): (w: World)
    ensures Inv(w)
  {
    if actions == [] then CreatedKeeps(budget); NewWorld(budget)
    else
      var before := Reached(budget, actions[..|actions| - 1]);
      StepKeeps(before, actions[|actions| - 1]);
      Next(before, actions[|actions| - 1])
  }
}
