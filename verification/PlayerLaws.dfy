/** What playback frame ownership promises over every run. */
module PlayerLaws {
  import opened Prelude
  import opened PlayerMailbox
  import opened PlayerRun
  import opened PlayerInvariant
  import A = PlayerAllocator
  import S = PlayerSession

  // ----- ownership -----

  /** In every reachable state each slot in use, apart from one whose put has just succeeded, holds a
      lease of its own that the SDK still has out; so does the worker's pending lease, which is in
      no slot between submissions. */
  lemma EverySlotOwnsItsLease(budget: nat, actions: seq<Action>)
    ensures var w := Reached(budget, actions);
            && Shaped(w)
            && (forall i :: 0 <= i < SLOTS && w.m.slots[i].phase != Empty ==>
                  S.Held(w.s, w.m.slots[i].lease) || w.worker == Settling(i, true))
            && (forall i, k :: 0 <= i < k < SLOTS && w.m.slots[i].phase != Empty && w.m.slots[k].phase != Empty ==>
                  w.m.slots[i].lease != w.m.slots[k].lease)
            && (w.pending != 0 ==> S.Held(w.s, w.pending))
            && (w.pending != 0 && w.worker.Resting? ==> forall i :: 0 <= i < SLOTS && w.m.slots[i].phase != Empty ==> w.m.slots[i].lease != w.pending)
  {
    hide Reached, Phases, Pins, History, A.Inv, S.Held, S.Inv;
  }

  /** Every pin is released at most once, and no put of a lease is tried while a pin taken for it is
      out; so a put that failed and is tried again never releases the pin again. */
  lemma PinsAreReleasedOnceAndFirst(budget: nat, actions: seq<Action>)
    ensures var log := Reached(budget, actions).log; Once(log) && PutsAfterPins(log)
  {
    hide Reached, Phases, Pins, Leases, A.Inv, S.Inv, Shaped;
  }

  /** Whatever a slot may show lies in memory that is handed out, also after the SDK freed the frame. */
  lemma ShownMemoryIsLive(budget: nat, actions: seq<Action>, i: nat)
    requires i < SLOTS
    ensures var w := Reached(budget, actions);
            && Shaped(w)
            && (Shows(w.m.slots[i].phase) ==>
                  forall j :: 0 <= j < 3 && w.m.slots[i].capacity[j] > 0 ==>
                    w.m.slots[i].addr[j] in w.heap && w.heap[w.m.slots[i].addr[j]] == w.m.slots[i].capacity[j])
  {
    hide Reached, Phases, Leases, History, A.Inv, S.Inv, A.Pinned;
    var w := Reached(budget, actions);
    var slot := w.m.slots[i];
    if Shows(slot.phase) {
      A.PinnedIsLive(w.a, w.heap, slot.pin, slot.addr, slot.capacity);
    }
  }

  /** The mailbox is never quarantined: with every pin the allocator's own, no release fails. */
  lemma NeverQuarantined(budget: nat, actions: seq<Action>)
    ensures var w := Reached(budget, actions); !w.m.quarantined && !w.worker.Quarantining?
  {
    hide Reached, Phases, Leases, Pins, History, A.Inv, S.Inv, Shaped;
  }

  // ----- a slot for the pending lease -----

  /** More values than places are not all different. */
  lemma {:induction false} Pigeonhole(f: seq<nat>, n: nat)
    requires |f| > n > 0 && forall i :: 0 <= i < |f| ==> f[i] < n
    ensures exists i, k :: 0 <= i < k < |f| && f[i] == f[k]
    decreases n
  {
    var last := |f| - 1;
    if n == 1 {
      assert f[0] == f[1];
    } else if exists i :: 0 <= i < last && f[i] == f[last] {
      var i :| 0 <= i < last && f[i] == f[last];
    } else {
      // move the value n - 1 out of the way
      var g := seq(last, i requires 0 <= i < last => if f[i] == n - 1 then f[last] else f[i]);
      forall i | 0 <= i < |g| ensures g[i] < n - 1 {}
      Pigeonhole(g, n - 1);
      var i, k :| 0 <= i < k < |g| && g[i] == g[k];
      assert f[i] == f[k];
    }
  }

  /** The lease of place i: a slot's, or the pending one. */
  function LeaseOf(slots: seq<Slot>, pending: nat, i: nat): nat
  {
    if i < |slots| then slots[i].lease else pending
  }

  predicate InUse(slots: seq<Slot>, i: nat)
  {
    i < |slots| ==> slots[i].phase != Empty
  }

  /** Two leases in use lie at different places of the session. */
  lemma PlacesDiffer(slots: seq<Slot>, s: S.Session, pending: nat, i: nat, k: nat)
    requires S.Sized(s) && |slots| == SLOTS && Leases(slots, s, None, None, pending) && pending != 0 && i < k <= SLOTS
    requires InUse(slots, i) && InUse(slots, k)
    ensures S.SlotOf(s, LeaseOf(slots, pending, i), 0) != S.SlotOf(s, LeaseOf(slots, pending, k), 0)
    ensures S.SlotOf(s, LeaseOf(slots, pending, i), 0) < S.LEASES
  {
    PlaceFound(s, LeaseOf(slots, pending, i));
  }

  lemma PlaceFound(s: S.Session, lease: nat)
    requires S.Sized(s) && S.Held(s, lease)
    ensures S.SlotOf(s, lease, 0) < S.LEASES
  {
    var k :| 0 <= k < S.LEASES && S.IsLease(s, k, lease);
  }

  /** Eight leases at most are out, the pending one among them, so a slot is free. */
  lemma SlotIsFree(slots: seq<Slot>, s: S.Session, pending: nat)
    requires S.Sized(s) && |slots| == SLOTS && Leases(slots, s, None, None, pending) && pending != 0
    ensures exists i :: 0 <= i < SLOTS && slots[i].phase == Empty
  {
    hide Leases, S.Held, S.SlotOf, LeaseOf, InUse;
    var f := seq(SLOTS + 1, i requires 0 <= i <= SLOTS =>
      if InUse(slots, i) then Min(S.SlotOf(s, LeaseOf(slots, pending, i), 0), S.LEASES - 1) else 0);
    Pigeonhole(f, S.LEASES);
    var i, k :| 0 <= i < k < |f| && f[i] == f[k];
    InUseIs(slots, i);
    InUseIs(slots, k);
    if InUse(slots, i) && InUse(slots, k) {
      PlacesDiffer(slots, s, pending, i, k);
      PlaceOfLease(slots, s, pending, k);
    }
  }

  lemma InUseIs(slots: seq<Slot>, i: nat)
    requires |slots| == SLOTS && i <= SLOTS
    ensures !InUse(slots, i) ==> i < SLOTS && slots[i].phase == Empty
  {
  }

  lemma PlaceOfLease(slots: seq<Slot>, s: S.Session, pending: nat, k: nat)
    requires S.Sized(s) && |slots| == SLOTS && Leases(slots, s, None, None, pending) && pending != 0 && k <= SLOTS && InUse(slots, k)
    ensures S.SlotOf(s, LeaseOf(slots, pending, k), 0) < S.LEASES
  {
    hide S.Held;
    PlaceFound(s, LeaseOf(slots, pending, k));
  }

  /** An open mailbox always takes the worker's pending lease: it is refused only when the session
      or the frame is broken, and deferred only behind an unconsumed picture under the preserve policy. */
  lemma AlwaysASlot(budget: nat, actions: seq<Action>, broken: bool)
    ensures var w := Reached(budget, actions);
            && Shaped(w)
            && (w.worker.Resting? && w.pending != 0 && !w.m.closing ==>
                  var r := Admit(w.m, w.pending, broken).1;
                  && (r.Refused? <==> broken)
                  && (r.MustWait? <==> !broken && w.m.preserve && Any(w.m, Pending))
                  && !r.Already?)
  {
    hide Reached, Phases, Pins, Leases, History, A.Inv, S.Inv, S.Held;
    var w := Reached(budget, actions);
    if w.worker.Resting? && w.pending != 0 && !w.m.closing {
      NeverAlready(w);
      SlotIsFree(w.m.slots, w.s, w.pending);
    }
  }

  // ----- the policy -----

  /** At most one picture is ready and at most one is on its way to the screen. */
  lemma AtMostOneReady(budget: nat, actions: seq<Action>)
    ensures var w := Reached(budget, actions);
            && Shaped(w)
            && (forall i, k :: 0 <= i < k < SLOTS && w.m.slots[i].phase == Ready ==> w.m.slots[k].phase != Ready)
            && (forall i, k :: 0 <= i < k < SLOTS && w.m.slots[i].phase == Publishing ==> w.m.slots[k].phase != Publishing)
  {
    hide Reached, Pins, Leases, History, A.Inv, S.Inv;
  }

  /** A published picture is given back by its last reader and by nothing else. */
  lemma PublishedUntilRead(budget: nat, actions: seq<Action>, a: Action, i: nat)
    requires i < SLOTS
    ensures var w := Reached(budget, actions);
            && Shaped(w) && |Next(w, a).m.slots| == SLOTS
            && (w.m.slots[i].phase == Published && Next(w, a).m.slots[i].phase != Published ==>
                  a == ReaderDone(i) && Next(w, a).m.slots[i].phase == Returning)
  {
    hide Reached;
    var w := Reached(budget, actions);
    StepKeeps(w, a);
    PublishedStays(w, a, i);
  }

  lemma PublishedStays(w: World, a: Action, i: nat)
    requires Inv(w) && i < SLOTS
    ensures |Next(w, a).m.slots| == SLOTS
    ensures w.m.slots[i].phase == Published && Next(w, a).m.slots[i].phase != Published ==>
              a == ReaderDone(i) && Next(w, a).m.slots[i].phase == Returning
  {
    hide LeasesOf, PinsOf, HistoryOf, A.Inv, S.Inv, A.Allocate, A.FreeFrame, Toil, Begin, UiGoesOn, Phases, AnswersFair;
    if a.Work? { PublishedThroughWork(w, a, i); }
    else if a.UiStep? { PublishedThroughUi(w, a.made, i); }
    else if w.worker.Resting? { PublishedThroughBegin(w, a, i); }
  }

  lemma ShownThroughDrain(w: World, a: Action, i: nat)
    requires Inv(w) && i < SLOTS && a.Work? && (w.worker.Taking? || w.worker.Dropping? || w.worker.Settling? || w.worker.Putting?)
    ensures var to := Toil(w, a.shown, a.rgb, a.put).m.slots;
            |to| == SLOTS && (Shows(w.m.slots[i].phase) ==> to[i].phase == w.m.slots[i].phase)
  {
    hide LeasesOf, PinsOf, HistoryOf, A.Inv, S.Inv, A.Release, S.Release, Publish, Promote, PinFrame, UnpinFrame, AbortFrame;
  }

  /** Apart from publishing and promoting, the worker leaves pictures that can be shown alone. */
  lemma ShownThroughWork(w: World, a: Action, i: nat)
    requires Inv(w) && i < SLOTS && a.Work? && !w.worker.Filled? && !w.worker.Promoting?
    ensures var to := Toil(w, a.shown, a.rgb, a.put).m.slots;
            |to| == SLOTS && (Shows(w.m.slots[i].phase) ==> to[i].phase == w.m.slots[i].phase)
  {
    hide LeasesOf, PinsOf, HistoryOf, A.Inv, S.Inv, A.Acquire, A.Release, S.SlotOf, Publish, Promote, TakeSlot, DropPin, PutFrame,
         SettleFrame;
    if w.worker.Taking? || w.worker.Dropping? || w.worker.Settling? || w.worker.Putting? { ShownThroughDrain(w, a, i); }
  }

  lemma PublishedThroughWork(w: World, a: Action, i: nat)
    requires Inv(w) && i < SLOTS && a.Work?
    ensures var to := Toil(w, a.shown, a.rgb, a.put).m.slots;
            |to| == SLOTS && (w.m.slots[i].phase == Published ==> to[i].phase == Published)
  {
    hide LeasesOf, PinsOf, HistoryOf, A.Inv, S.Inv, PinFrame, UnpinFrame, AbortFrame, TakeSlot, DropPin, PutFrame, SettleFrame;
    if !w.worker.Filled? && !w.worker.Promoting? { ShownThroughWork(w, a, i); }
  }

  lemma PublishedThroughUi(w: World, made: bool, i: nat)
    requires Inv(w) && i < SLOTS
    ensures var to := UiGoesOn(w, made).m.slots;
            |to| == SLOTS && (w.m.slots[i].phase == Published ==> to[i].phase == Published)
  {
    hide LeasesOf, PinsOf, HistoryOf, A.Inv, S.Inv;
  }

  lemma PublishedThroughBegin(w: World, a: Action, i: nat)
    requires Inv(w) && i < SLOTS
    ensures var to := Begin(w, a).m.slots;
            |to| == SLOTS && (w.m.slots[i].phase == Published ==> to[i].phase == Published)
  {
    hide LeasesOf, PinsOf, HistoryOf, Phases, A.Inv, S.Inv, S.Acquire, S.Release, S.SlotOf, S.Close;
  }

  /** An unconsumed picture is retired only by closing, or by a newer picture whose admission did not
      see the preserve policy. */
  lemma PreservedUntilConsumed(budget: nat, actions: seq<Action>, a: Action, i: nat)
    requires i < SLOTS
    ensures var w := Reached(budget, actions);
            && Shaped(w) && |Next(w, a).m.slots| == SLOTS
            && (Waiting(w.m.slots[i].phase) && Next(w, a).m.slots[i].phase == Returning ==>
                  || a.UiCloses? || a.WorkerCloses?
                  || (a.Work? && w.worker.Promoting? && w.m.closing)
                  || (a.Work? && w.worker.Filled? && !w.worker.saw))
  {
    hide Reached;
    WaitingStays(Reached(budget, actions), a, i);
  }

  predicate Waiting(p: Phase)
  {
    p == Ready || p == Deferred
  }

  lemma WaitingStays(w: World, a: Action, i: nat)
    requires Inv(w) && i < SLOTS
    ensures |Next(w, a).m.slots| == SLOTS
    ensures Waiting(w.m.slots[i].phase) && Next(w, a).m.slots[i].phase == Returning ==>
              || a.UiCloses? || a.WorkerCloses?
              || (a.Work? && w.worker.Promoting? && w.m.closing)
              || (a.Work? && w.worker.Filled? && !w.worker.saw)
  {
    hide LeasesOf, PinsOf, HistoryOf, A.Inv, S.Inv, A.Allocate, A.FreeFrame, Toil, UiGoesOn, Phases, AnswersFair;
    if a.Work? { WaitingThroughWork(w, a, i); }
    else if a.UiStep? { WaitingThroughUi(w, a.made, i); }
    else if w.worker.Resting? && !a.WorkerCloses? { WaitingThroughBegin(w, a, i); }
    else { CloseSize(w.m); }
  }

  lemma CloseSize(m: Mailbox)
    ensures |Close(m).slots| == |m.slots|
  {
  }

  lemma WaitingThroughWork(w: World, a: Action, i: nat)
    requires Inv(w) && i < SLOTS && a.Work?
    ensures var to := Toil(w, a.shown, a.rgb, a.put).m.slots;
            |to| == SLOTS && (Waiting(w.m.slots[i].phase) && to[i].phase == Returning ==>
              (w.worker.Promoting? && w.m.closing) || (w.worker.Filled? && !w.worker.saw))
  {
    hide LeasesOf, PinsOf, HistoryOf, A.Inv, S.Inv, PinFrame, UnpinFrame, AbortFrame, TakeSlot, DropPin, PutFrame, SettleFrame;
    if !w.worker.Filled? && !w.worker.Promoting? { ShownThroughWork(w, a, i); }
  }

  lemma WaitingThroughUi(w: World, made: bool, i: nat)
    requires Inv(w) && i < SLOTS
    ensures var to := UiGoesOn(w, made).m.slots;
            |to| == SLOTS && (Waiting(w.m.slots[i].phase) ==> to[i].phase != Returning)
  {
    hide LeasesOf, PinsOf, HistoryOf, A.Inv, S.Inv;
  }

  lemma WaitingThroughBegin(w: World, a: Action, i: nat)
    requires Inv(w) && i < SLOTS && !a.WorkerCloses?
    ensures var to := Begin(w, a).m.slots;
            |to| == SLOTS && (Waiting(w.m.slots[i].phase) ==> to[i].phase != Returning)
  {
    hide LeasesOf, PinsOf, HistoryOf, Phases, A.Inv, S.Inv, S.Acquire, S.Release, S.SlotOf, S.Close;
  }
}
