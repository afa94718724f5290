/** How many pictures can be deferred at once: one is not always the limit, and exactly when it is. */
module PlayerDeferred {
  import opened Prelude
  import opened PlayerMailbox
  import opened PlayerRun
  import opened PlayerInvariant
  import A = PlayerAllocator
  import S = PlayerSession

  predicate OneDeferred(slots: seq<Slot>)
  {
    forall i, k :: 0 <= i < k < |slots| && slots[i].phase == Deferred ==> slots[k].phase != Deferred
  }

  predicate NoneDeferred(slots: seq<Slot>)
  {
    forall i :: 0 <= i < |slots| ==> slots[i].phase != Deferred
  }

  /** A publication that goes behind an unconsumed picture. */
  predicate Defers(m: Mailbox)
  {
    m.preserve && Open(m) && Any(m, (s: Slot) => s.phase == Ready || s.phase == Publishing)
  }

  /** Exactly when a publication keeps at most one picture deferred: unless it is deferred itself and
      another one is already. */
  lemma DeferredExactly(m: Mailbox, i: nat)
    requires |m.slots| == SLOTS && i < SLOTS && m.slots[i].phase == Building && OneDeferred(m.slots)
    ensures OneDeferred(Publish(m, i).slots) <==> !(Defers(m) && !NoneDeferred(m.slots))
    ensures NoneDeferred(m.slots) ==> (NoneDeferred(Publish(m, i).slots) <==> !Defers(m))
  {
    var to := Publish(m, i).slots;
    if Defers(m) {
      assert to[i].phase == Deferred;
      if k :| 0 <= k < SLOTS && m.slots[k].phase == Deferred {
        assert to[k].phase == Deferred && k != i;
      }
    }
  }

  // ----- one step -----

  predicate Publishes(w: World, a: Action)
  {
    a.Work? && w.worker.Filled?
  }

  /** Nothing is newly deferred. */
  predicate NoneNew(slots: seq<Slot>, to: seq<Slot>)
  {
    |to| == |slots| && forall i :: 0 <= i < |slots| && to[i].phase == Deferred ==> slots[i].phase == Deferred
  }

  lemma NoneNewKeeps(slots: seq<Slot>, to: seq<Slot>)
    requires NoneNew(slots, to)
    ensures OneDeferred(slots) ==> OneDeferred(to)
    ensures NoneDeferred(slots) ==> NoneDeferred(to)
  {
  }

  /** No step but a publication defers a picture. */
  lemma OnlyPublishing(w: World, a: Action)
    requires Shaped(w) && !Publishes(w, a)
    ensures NoneNew(w.m.slots, Next(w, a).m.slots)
  {
    hide A.Allocate, A.FreeFrame, AnswersFair, Toil, Begin, UiGoesOn, NoneNew, Mark, Close, HandBack;
    SameSlots(w.m.slots);
    if a.Work? { WorkDefersNone(w, a); }
    else if a.UiStep? { UiDefersNone(w, a.made); }
    else if a.Poll? { MarkDefersNone(w.m, a.yuvOnly); }
    else if a.UiCloses? { CloseDefersNone(w.m); }
    else if a.ReaderDone? { if a.slot < SLOTS { HandBackDefersNone(w.m, a.slot); } }
    else if w.worker.Resting? { BeginDefersNone(w, a); }
  }

  lemma SameSlots(slots: seq<Slot>)
    ensures NoneNew(slots, slots)
  {
  }

  lemma CloseDefersNone(m: Mailbox)
    ensures NoneNew(m.slots, Close(m).slots)
  {
  }

  lemma HandBackDefersNone(m: Mailbox, i: nat)
    requires i < |m.slots|
    ensures NoneNew(m.slots, HandBack(m, i).slots)
  {
  }

  lemma MarkDefersNone(m: Mailbox, yuvOnly: bool)
    ensures NoneNew(m.slots, Mark(m, yuvOnly).0.slots)
  {
  }

  lemma UiDefersNone(w: World, made: bool)
    requires Shaped(w)
    ensures NoneNew(w.m.slots, UiGoesOn(w, made).m.slots)
  {
  }

  lemma WorkDefersNone(w: World, a: Action)
    requires Shaped(w) && a.Work? && !w.worker.Filled?
    ensures NoneNew(w.m.slots, Toil(w, a.shown, a.rgb, a.put).m.slots)
  {
    hide A.Acquire, A.Release, S.Release, S.SlotOf, Promote, NoneNew;
    SameSlots(w.m.slots);
    if OnSlot(w.worker) { SlotDefersNone(w, a); }
    else if w.worker.Promoting? { PromoteDefersNone(w.m); }
    else if w.worker.Taking? { TakeDefersNone(w); }
  }

  lemma PromoteDefersNone(m: Mailbox)
    ensures NoneNew(m.slots, Promote(m).slots)
  {
  }

  lemma TakeDefersNone(w: World)
    requires Shaped(w) && w.worker.Taking?
    ensures NoneNew(w.m.slots, TakeSlot(w).m.slots)
  {
  }

  lemma SlotDefersNone(w: World, a: Action)
    requires Shaped(w) && OnSlot(w.worker) && a.Work? && !w.worker.Filled?
    ensures NoneNew(w.m.slots, Toil(w, a.shown, a.rgb, a.put).m.slots)
  {
    hide A.Acquire, A.Release, S.Release, S.SlotOf, Promote, TakeSlot, PublishFrame;
  }

  lemma BeginDefersNone(w: World, a: Action)
    requires Shaped(w)
    ensures NoneNew(w.m.slots, Begin(w, a).m.slots)
  {
    hide S.Acquire, S.Release, S.Close, S.SlotOf, Close, NoneNew;
    SameSlots(w.m.slots);
    CloseDefersNone(w.m);
    if a.SubmitPending? { SubmitDefersNone(w); }
  }

  lemma SubmitDefersNone(w: World)
    requires Shaped(w)
    ensures NoneNew(w.m.slots, Submitted(w).m.slots)
  {
    hide S.SlotOf;
  }

  /** Exactly the steps that end with two pictures deferred: a publication under the policy, in an
      open mailbox, while one picture is ready or on its way and another is deferred already. */
  lemma StepExactly(w: World, a: Action)
    requires Inv(w) && OneDeferred(w.m.slots)
    ensures OneDeferred(Next(w, a).m.slots) <==> !(Publishes(w, a) && Defers(w.m) && !NoneDeferred(w.m.slots))
  {
    hide LeasesOf, PinsOf, HistoryOf, A.Inv, S.Inv, Publish, Next, Defers;
    if Publishes(w, a) {
      DeferredExactly(w.m, w.worker.slot);
      PublishedWorld(w, a);
    } else {
      OnlyPublishing(w, a);
      NoneNewKeeps(w.m.slots, Next(w, a).m.slots);
    }
  }

  lemma PublishedWorld(w: World, a: Action)
    requires Shaped(w) && Publishes(w, a)
    ensures Next(w, a).m == Publish(w.m, w.worker.slot)
  {
  }

  // ----- whole runs -----

  /** The world after the first n steps. */
  ghost function Past(budget: nat, actions: seq<Action>, n: nat): (w: World)
    requires n <= |actions|
    ensures Inv(w)
  {
    Reached(budget, actions[..n])
  }

  lemma PastStep(budget: nat, actions: seq<Action>, n: nat)
    requires n < |actions|
    ensures Shaped(Past(budget, actions, n))
    ensures Past(budget, actions, n + 1) == Next(Past(budget, actions, n), actions[n])
  {
    hide Inv, Next;
    InvShaped(Past(budget, actions, n));
    assert actions[..n + 1][..n] == actions[..n];
  }

  ghost predicate Doubles(budget: nat, actions: seq<Action>, n: nat)
    requires n < |actions|
  {
    var w := Past(budget, actions, n);
    Publishes(w, actions[n]) && Defers(w.m) && !NoneDeferred(w.m.slots)
  }

  /** A run never has two deferred pictures exactly when none of its publications is deferred behind
      a deferred one. */
  lemma {:induction false} RunExactly(budget: nat, actions: seq<Action>, n: nat)
    requires n <= |actions|
    ensures (forall k :: 0 <= k <= n ==> OneDeferred(Past(budget, actions, k).m.slots))
            <==> (forall k :: 0 <= k < n ==> !Doubles(budget, actions, k))
  {
    hide Inv, Next, Defers, Publishes, OneDeferred, NoneDeferred, Past;
    if n == 0 {
      Fresh(budget, actions);
    } else {
      RunExactly(budget, actions, n - 1);
      PastStep(budget, actions, n - 1);
      if OneDeferred(Past(budget, actions, n - 1).m.slots) {
        StepExactly(Past(budget, actions, n - 1), actions[n - 1]);
        assert OneDeferred(Past(budget, actions, n).m.slots) <==> !Doubles(budget, actions, n - 1);
      }
    }
  }

  lemma Fresh(budget: nat, actions: seq<Action>)
    ensures NoneDeferred(Past(budget, actions, 0).m.slots) && OneDeferred(Past(budget, actions, 0).m.slots)
  {
    assert actions[..0] == [];
  }

  /** The UI turns the policy on while the worker is between admitting a frame and publishing it. */
  predicate SwitchesOnMidway(w: World, a: Action)
  {
    a == SetPreserve(true) && !w.m.preserve && Builder(w.worker).Some?
  }

  /** What a caller keeps by never doing so: no picture is deferred, and a submission under way
      has seen the policy if it is on. */
  predicate Steady(w: World)
  {
    && |w.m.slots| == SLOTS && NoneDeferred(w.m.slots)
    && (Builder(w.worker).Some? && w.m.preserve ==> Saw(w.worker))
  }

  lemma SteadyKeeps(w: World, a: Action)
    requires Inv(w) && Steady(w) && !SwitchesOnMidway(w, a)
    ensures Steady(Next(w, a))
  {
    hide LeasesOf, PinsOf, HistoryOf, A.Inv, S.Inv, Publish, Next, Defers;
    if Publishes(w, a) {
      DeferredExactly(w.m, w.worker.slot);
      NothingToDeferFor(w);
      AfterPublishing(w, a);
    } else {
      OnlyPublishing(w, a);
      NoneNewKeeps(w.m.slots, Next(w, a).m.slots);
    }
    SeenKeeps(w, a);
  }

  lemma NothingToDeferFor(w: World)
    requires Inv(w) && Steady(w) && w.worker.Filled?
    ensures !Defers(w.m)
  {
    hide LeasesOf, PinsOf, HistoryOf, A.Inv, S.Inv;
  }

  /** A submission under way keeps what it saw; a new one sees the policy as it is. */
  lemma SeenKeeps(w: World, a: Action)
    requires Shaped(w) && (Builder(w.worker).Some? && w.m.preserve ==> Saw(w.worker)) && !SwitchesOnMidway(w, a)
    ensures Builder(Next(w, a).worker).Some? && Next(w, a).m.preserve ==> Saw(Next(w, a).worker)
  {
    hide Next, OneDeferred;
    WorkerMoves(w, a);
    PolicyMoves(w, a);
  }

  /** Where the worker goes: a submission goes on with what it saw or ends, and begins only from rest. */
  lemma WorkerMoves(w: World, a: Action)
    requires Shaped(w)
    ensures var u := Next(w, a).worker;
            && (Builder(w.worker).Some? && Builder(u).Some? ==> Saw(u) == Saw(w.worker))
            && (Builder(w.worker).None? && Builder(u).Some? ==>
                  a.SubmitPending? && w.worker.Resting? && Saw(u) == w.m.preserve && Next(w, a).m.preserve == w.m.preserve
                  && !(w.m.preserve && Any(w.m, Pending)))
  {
    hide A.Allocate, A.FreeFrame, AnswersFair, Toil, UiGoesOn, Close, Reopen, Mark, HandBack, S.Acquire, S.Release, S.Close, S.SlotOf;
    if a.Work? { WorkMoves(w, a); }
    if a.UiStep? { UiMoves(w, a.made); }
  }

  lemma WorkMoves(w: World, a: Action)
    requires Shaped(w) && a.Work?
    ensures var u := Toil(w, a.shown, a.rgb, a.put).worker;
            && (Builder(w.worker).Some? && Builder(u).Some? ==> Saw(u) == Saw(w.worker))
            && (Builder(w.worker).None? ==> Builder(u).None?)
  {
    hide A.Acquire, A.Release, S.Release, S.SlotOf, Promote, TakeBack, Publish, Abort, Fill;
  }

  lemma UiMoves(w: World, made: bool)
    requires Shaped(w)
    ensures UiGoesOn(w, made).worker == w.worker
  {
  }

  /** Only the UI's switch changes the policy. */
  lemma PolicyMoves(w: World, a: Action)
    requires Shaped(w)
    ensures Next(w, a).m.preserve == w.m.preserve || a == SetPreserve(Next(w, a).m.preserve)
  {
    hide A.Allocate, A.FreeFrame, AnswersFair, Toil, Begin, S.Acquire, S.Release, S.Close, S.SlotOf;
    if a.Work? { WorkPolicy(w, a); }
    else if w.worker.Resting? { BeginPolicy(w, a); }
  }

  lemma WorkPolicy(w: World, a: Action)
    requires Shaped(w) && a.Work?
    ensures Toil(w, a.shown, a.rgb, a.put).m.preserve == w.m.preserve
  {
    hide A.Acquire, A.Release, S.Release, S.SlotOf, PinFrame, UnpinFrame, DropPin, PutFrame;
    if w.worker.Pinning? || w.worker.Unpinning? || w.worker.Dropping? || w.worker.Putting? { PinPolicy(w, a); }
  }

  lemma PinPolicy(w: World, a: Action)
    requires Shaped(w) && a.Work? && (w.worker.Pinning? || w.worker.Unpinning? || w.worker.Dropping? || w.worker.Putting?)
    ensures Toil(w, a.shown, a.rgb, a.put).m.preserve == w.m.preserve
  {
    hide A.Acquire, A.Release, S.Release, S.SlotOf, Publish, Promote, TakeSlot, AbortFrame, SettleFrame;
  }

  lemma BeginPolicy(w: World, a: Action)
    requires Shaped(w)
    ensures Begin(w, a).m.preserve == w.m.preserve
  {
    hide S.Acquire, S.Release, S.Close, S.SlotOf;
  }

  /** A caller that turns the policy on only between submissions never has a deferred picture. */
  lemma {:induction false} NeverSwitchedMidway(budget: nat, actions: seq<Action>, n: nat)
    requires n <= |actions|
    requires forall k :: 0 <= k < n ==> !SwitchesOnMidway(Past(budget, actions, k), actions[k])
    ensures Steady(Past(budget, actions, n))
  {
    hide Inv, Next, SwitchesOnMidway, Past, NoneDeferred;
    if n == 0 {
      Fresh(budget, actions);
      StartsIdle(budget, actions);
    } else {
      NeverSwitchedMidway(budget, actions, n - 1);
      PastStep(budget, actions, n - 1);
      SteadyKeeps(Past(budget, actions, n - 1), actions[n - 1]);
    }
  }

  lemma StartsIdle(budget: nat, actions: seq<Action>)
    ensures var w := Past(budget, actions, 0); w.worker.Resting? && |w.m.slots| == SLOTS
  {
    assert actions[..0] == [];
  }

  /** The UI turns the policy off while a picture is deferred. */
  predicate SwitchesOffDeferred(w: World, a: Action)
  {
    a == SetPreserve(false) && !NoneDeferred(w.m.slots)
  }

  /** While a picture is deferred, the policy is on and nothing is being submitted. */
  predicate Guarded(w: World)
  {
    && |w.m.slots| == SLOTS && OneDeferred(w.m.slots)
    && (!NoneDeferred(w.m.slots) ==> w.m.preserve && Builder(w.worker).None?)
  }

  lemma GuardedKeeps(w: World, a: Action)
    requires Inv(w) && Guarded(w) && !SwitchesOffDeferred(w, a)
    ensures Guarded(Next(w, a))
  {
    hide LeasesOf, PinsOf, HistoryOf, A.Inv, S.Inv, Publish, Next, Defers;
    StepExactly(w, a);
    if Publishes(w, a) {
      DeferredExactly(w.m, w.worker.slot);
      AfterPublishing(w, a);
    } else {
      OnlyPublishing(w, a);
      NoneNewKeeps(w.m.slots, Next(w, a).m.slots);
      if !NoneDeferred(w.m.slots) { NoneEnters(w, a); }
    }
  }

  lemma AfterPublishing(w: World, a: Action)
    requires Shaped(w) && Publishes(w, a)
    ensures var u := Next(w, a);
            && u == w.(m := Publish(w.m, w.worker.slot), worker := Resting, pending := 0)
            && u.m.preserve == w.m.preserve && |u.m.slots| == SLOTS
    ensures Defers(w.m) ==> w.m.preserve
  {
  }

  /** Under the policy a deferred picture keeps further frames out. */
  lemma NoneEnters(w: World, a: Action)
    requires Shaped(w) && w.m.preserve && Builder(w.worker).None? && !NoneDeferred(w.m.slots) && !SwitchesOffDeferred(w, a)
    ensures Next(w, a).m.preserve && Builder(Next(w, a).worker).None?
  {
    hide Next;
    WorkerMoves(w, a);
    PolicyMoves(w, a);
    assert Any(w.m, Pending);
  }

  /** A caller that turns the policy off only while no picture is deferred has at most one. */
  lemma {:induction false} NeverSwitchedOff(budget: nat, actions: seq<Action>, n: nat)
    requires n <= |actions|
    requires forall k :: 0 <= k < n ==> !SwitchesOffDeferred(Past(budget, actions, k), actions[k])
    ensures OneDeferred(Past(budget, actions, n).m.slots) && Guarded(Past(budget, actions, n))
  {
    hide Inv, Next, SwitchesOffDeferred, Past, NoneDeferred, OneDeferred;
    if n == 0 {
      Fresh(budget, actions);
      StartsIdle(budget, actions);
    } else {
      NeverSwitchedOff(budget, actions, n - 1);
      PastStep(budget, actions, n - 1);
      GuardedKeeps(Past(budget, actions, n - 1), actions[n - 1]);
    }
  }

  /** A picture is deferred only when the policy was switched on after its own admission. */
  lemma DeferredMeansSwitchedOn(budget: nat, actions: seq<Action>)
    ensures var w := Reached(budget, actions);
            && Shaped(w)
            && (w.worker.Filled? && Publish(w.m, w.worker.slot).slots[w.worker.slot].phase == Deferred ==>
                  w.m.preserve && !w.worker.saw)
  {
    hide Reached, LeasesOf, PinsOf, HistoryOf, A.Inv, S.Inv;
  }

  // ----- the witness: seven pictures deferred at once -----

  function Address(n: nat): nat
  {
    A.LINE * (n + 1)
  }

  /** Frame number n: one byte, in a cache line of its own. */
  function FrameOf(n: nat): A.Frame
  {
    A.Frame(true, [Address(n), 0, 0], [1, 0, 0], 1, 1, A.Yuv400)
  }

  function RecordOf(n: nat, ticket: nat): A.Record
  {
    A.Record([Address(n), 0, 0], [1, 0, 0], [A.LINE, 0, 0], 1, 1, A.Yuv400, ticket, true, false)
  }

  /** One frame more: decoded, leased, admitted with the policy off, and published with the policy on
      unless it is the first. */
  function Round(n: nat): seq<Action>
  {
    [SdkAllocates(1, 1, 1, A.Yuv400, [Some(Address(n)), None, None]),
     LeaseFrame(Some(S.Decoded(n, FrameOf(n), false))),
     SetPreserve(false),
     SubmitPending,
     Work(true, false, true),
     SetPreserve(n > 0),
     Work(true, false, true)]
  }

  function Rounds(n: nat): seq<Action>
  {
    if n == 0 then [OpenSession(true)] else Rounds(n - 1) + Round(n - 1)
  }

  predicate Quiet(w: World)
  {
    && Shaped(w) && w.worker.Resting? && w.ui.Idle? && Open(w.m)
    && S.Usable(w.s) && w.s.started && !w.s.paused && w.s.hasVideo
  }

  /** The mailbox after n rounds. */
  predicate Filled(slots: seq<Slot>, n: nat)
    requires |slots| == SLOTS
  {
    && (forall k :: n <= k < SLOTS ==> slots[k].phase == Empty)
    && (forall k :: 1 <= k < n && k < SLOTS ==> slots[k].phase == Deferred)
    && (0 < n ==> slots[0].phase == Ready)
    && (forall k :: 0 <= k < n && k < SLOTS ==> slots[k].lease == k + 1)
  }

  /** The first n places of the session are leased. */
  predicate LeasedTo(s: S.Session, n: nat)
  {
    && S.Sized(s) && s.nextTicket == n
    && (forall k :: 0 <= k < S.LEASES ==> (s.held[k] <==> k < n))
    && (forall k :: 0 <= k < n && k < S.LEASES ==> s.tickets[k] == k + 1 && s.frames[k] == S.Decoded(k, FrameOf(k), false))
  }

  /** The first n frames are live, the first p of them pinned. */
  predicate TableTo(a: A.Allocator, n: nat, p: nat)
  {
    && |a.frames| == A.FRAME_COUNT && a.budget == 256 && a.used == A.LINE * n && a.nextTicket == p
    && (forall k :: 0 <= k < n && k < A.FRAME_COUNT ==> a.frames[k] == RecordOf(k, if k < p then k + 1 else 0))
    && (forall k :: n <= k < A.FRAME_COUNT ==> !a.frames[k].live)
  }

  predicate HeapTo(h: A.Heap, n: nat)
  {
    forall b :: b in h ==> b <= A.LINE * n && h[b] == A.LINE
  }

  predicate Stage(w: World, n: nat)
  {
    Quiet(w) && Filled(w.m.slots, n) && LeasedTo(w.s, n) && TableTo(w.a, n, n) && HeapTo(w.heap, n) && w.pending == 0
  }

  lemma TinyLayout()
    ensures A.Layout(1, 1, 1, A.Yuv400) == Some(([1, 0, 0], [A.LINE, 0, 0]))
  {
  }

  lemma Allocates(a: A.Allocator, h: A.Heap, n: nat)
    requires n < 8 && TableTo(a, n, n) && HeapTo(h, n)
    ensures A.AnswersApart(h, [A.LINE, 0, 0], [Some(Address(n)), None, None], 0)
    ensures var r := A.Allocate(a, h, 1, 1, 1, A.Yuv400, [Some(Address(n)), None, None]);
            TableTo(r.0, n + 1, n) && HeapTo(r.1, n + 1)
  {
    hide A.Layout;
    TinyLayout();
    FindIs(a.frames, (r: A.Record) => !r.live, n, 0);
    TinyReserve(h, n);
  }

  lemma TinyReserve(h: A.Heap, n: nat)
    requires n < 8 && HeapTo(h, n)
    ensures A.AnswersApart(h, [A.LINE, 0, 0], [Some(Address(n)), None, None], 0)
    ensures A.Reserve(h, [A.LINE, 0, 0], [Some(Address(n)), None, None], 0, [0, 0, 0])
            == Some((h[Address(n) := A.LINE], [Address(n), 0, 0]))
  {
    var capacity: A.Planes, answers := [A.LINE, 0, 0], [Some(Address(n)), None, None];
    var to, addr: A.Planes := h[Address(n) := A.LINE], [Address(n), 0, 0];
    assert A.Reserve(to, capacity, answers, 2, addr) == A.Reserve(to, capacity, answers, 3, addr) == Some((to, addr));
    assert A.Reserve(to, capacity, answers, 1, addr) == Some((to, addr));
    var none: A.Planes := [0, 0, 0];
    assert none[0 := Address(n)] == addr;
    assert A.AnswersApart(to, capacity, answers, 2) && A.AnswersApart(to, capacity, answers, 1);
  }

  lemma Leased(s: S.Session, n: nat)
    requires n < S.LEASES && LeasedTo(s, n) && S.Usable(s) && s.started && !s.paused && s.hasVideo
    ensures var (t, lease) := S.Acquire(s, Some(S.Decoded(n, FrameOf(n), false)));
            && LeasedTo(t, n + 1) && S.Usable(t) && t.started && !t.paused && t.hasVideo && lease == Some(n + 1)
            && S.SlotOf(t, n + 1, 0) == n
  {
    FindIs(s.held, (h: bool) => !h, n, 0);
    var t := S.Acquire(s, Some(S.Decoded(n, FrameOf(n), false))).0;
    PlaceIs(t, n);
  }

  lemma PlaceIs(s: S.Session, n: nat)
    requires n < S.LEASES && LeasedTo(s, n + 1)
    ensures S.SlotOf(s, n + 1, 0) == n
  {
    assert S.IsLease(s, n, n + 1);
  }

  lemma Admitted(m: Mailbox, n: nat)
    requires n < SLOTS && |m.slots| == SLOTS && Filled(m.slots, n) && Open(m) && !m.preserve
    ensures Admit(m, n + 1, false) == (m.(slots := m.slots[n := m.slots[n].(phase := Building, lease := n + 1)]), Into(n))
  {
    FindIs(m.slots, (s: Slot) => s.phase != Empty && s.lease == n + 1, SLOTS, 0);
    FindIs(m.slots, (s: Slot) => s.phase == Empty, n, 0);
  }

  lemma Pinned(a: A.Allocator, n: nat)
    requires n < 8 && TableTo(a, n + 1, n)
    ensures var (b, pin) := A.Acquire(a, FrameOf(n));
            TableTo(b, n + 1, n + 1) && pin == Some((n + 1, [A.LINE, 0, 0]))
  {
    hide A.Layout;
    TinyLayout();
    var f := FrameOf(n);
    forall k | 0 <= k < n ensures !A.Matches(a.frames[k], f) {
      assert a.frames[k].addr[0] != f.addr[0];
    }
    assert A.Pinnable(a.frames[n], f);
    FindIs(a.frames, (r: A.Record) => A.Pinnable(r, f), n, 0);
    assert A.Acquire(a, f).1 == Some((n + 1, [A.LINE, 0, 0]));
    assert A.Acquire(a, f).0 == a.(frames := a.frames[n := RecordOf(n, n + 1)], nextTicket := n + 1);
  }

  lemma Published(m: Mailbox, n: nat)
    requires n < SLOTS && |m.slots| == SLOTS && Open(m) && m.preserve == (n > 0)
    requires m.slots[n].phase == Building && m.slots[n].lease == n + 1 && Filled(m.slots[n := m.slots[n].(phase := Empty)], n)
    ensures |Publish(m, n).slots| == SLOTS && Filled(Publish(m, n).slots, n + 1) && Open(Publish(m, n))
  {
    forall k | 0 <= k < SLOTS && k != n ensures m.slots[k] == m.slots[n := m.slots[n].(phase := Empty)][k] {}
    if n > 0 { FindIs(m.slots, (s: Slot) => s.phase == Ready || s.phase == Publishing, 0, 0); }
  }

  lemma Allocated(w: World, n: nat)
    requires n < 8 && Stage(w, n)
    ensures var u := Next(w, Round(n)[0]);
            u == w.(a := u.a, heap := u.heap) && TableTo(u.a, n + 1, n) && HeapTo(u.heap, n + 1)
  {
    hide TableTo, HeapTo, A.Allocate, A.AnswersApart, A.Layout;
    TinyLayout();
    Allocates(w.a, w.heap, n);
  }

  lemma LeaseTaken(w: World, n: nat)
    requires n < 8 && Quiet(w) && LeasedTo(w.s, n) && w.pending == 0
    ensures var u := Next(w, Round(n)[1]);
            u == w.(s := u.s, pending := n + 1) && LeasedTo(u.s, n + 1) && Quiet(u)
  {
    hide LeasedTo, S.Acquire;
    Leased(w.s, n);
  }

  lemma Entered(w: World, n: nat)
    requires n < 8 && Quiet(w) && LeasedTo(w.s, n + 1) && w.pending == n + 1 && Filled(w.m.slots, n) && !w.m.preserve
    ensures Next(w, SubmitPending)
            == w.(m := w.m.(slots := w.m.slots[n := w.m.slots[n].(phase := Building, lease := n + 1)]), worker := Pinning(n, false))
  {
    hide Admit;
    PlaceIs(w.s, n);
    assert w.s.frames[n] == S.Decoded(n, FrameOf(n), false);
    Admitted(w.m, n);
  }

  lemma PinnedFrame(w: World, n: nat)
    requires n < 8 && Shaped(w) && w.worker == Pinning(n, false) && w.pending == n + 1
    requires LeasedTo(w.s, n + 1) && TableTo(w.a, n + 1, n)
    ensures var u := Next(w, Work(true, false, true));
            && u == w.(a := u.a, m := Fill(w.m, n, n + 1, n + 1, FrameOf(n).addr, [A.LINE, 0, 0], false),
                       worker := Worker.Filled(n, false), log := u.log)
            && TableTo(u.a, n + 1, n + 1)
  {
    hide A.Acquire, TableTo;
    PlaceIs(w.s, n);
    assert w.s.frames[n] == S.Decoded(n, FrameOf(n), false);
    Pinned(w.a, n);
  }

  lemma OneRound(w: World, n: nat)
    requires n < 8 && Stage(w, n)
    ensures var r := Round(n);
            var w1 := Next(w, r[0]);
            && Shaped(w1) && var w2 := Next(w1, r[1]);
            && Shaped(w2) && var w3 := Next(w2, r[2]);
            && Shaped(w3) && var w4 := Next(w3, r[3]);
            && Shaped(w4) && var w5 := Next(w4, r[4]);
            && Shaped(w5) && var w6 := Next(w5, r[5]);
            && Shaped(w6) && Stage(Next(w6, r[6]), n + 1)
  {
    hide TableTo, HeapTo, LeasedTo, Begin, Toil, Publish, AnswersFair, A.Allocate;
    var r := Round(n);
    Allocated(w, n);
    var w1 := Next(w, r[0]);
    LeaseTaken(w1, n);
    var w2 := Next(w1, r[1]);
    var w3 := Next(w2, r[2]);
    Entered(w3, n);
    var w4 := Next(w3, r[3]);
    PinnedFrame(w4, n);
    var w5 := Next(w4, r[4]);
    var w6 := Next(w5, r[5]);
    EmptiedAgain(w.m.slots, n, FrameOf(n).addr, [A.LINE, 0, 0]);
    Published(w6.m, n);
    AfterPublishing(w6, r[6]);
  }

  lemma EmptiedAgain(slots: seq<Slot>, n: nat, addr: A.Planes, capacity: A.Planes)
    requires |slots| == SLOTS && n < SLOTS && Filled(slots, n)
    ensures var built := slots[n := slots[n].(phase := Building, lease := n + 1)];
            var to := built[n := built[n].(lease := n + 1, pin := n + 1, addr := addr, capacity := capacity, rgb := false)];
            to[n].phase == Building && to[n].lease == n + 1 && Filled(to[n := to[n].(phase := Empty)], n)
  {
  }

  lemma ReachedNext(budget: nat, actions: seq<Action>, a: Action)
    ensures Shaped(Reached(budget, actions))
    ensures Reached(budget, actions + [a]) == Next(Reached(budget, actions), a)
  {
    hide Inv, Next;
    InvShaped(Reached(budget, actions));
    assert (actions + [a])[..|actions|] == actions;
  }

  lemma ReachedRound(budget: nat, actions: seq<Action>, n: nat)
    requires n < 8 && Stage(Reached(budget, actions), n)
    ensures Stage(Reached(budget, actions + Round(n)), n + 1)
  {
    hide Inv, Next, Reached, Stage;
    var r := Round(n);
    var done := actions;
    OneRound(Reached(budget, actions), n);
    ReachedNext(budget, actions, r[0]);
    ReachedNext(budget, actions + r[..1], r[1]);
    ReachedNext(budget, actions + r[..2], r[2]);
    ReachedNext(budget, actions + r[..3], r[3]);
    ReachedNext(budget, actions + r[..4], r[4]);
    ReachedNext(budget, actions + r[..5], r[5]);
    ReachedNext(budget, actions + r[..6], r[6]);
    assert actions + r[..1] == actions + [r[0]];
    assert actions + r[..2] == (actions + r[..1]) + [r[1]];
    assert actions + r[..3] == (actions + r[..2]) + [r[2]];
    assert actions + r[..4] == (actions + r[..3]) + [r[3]];
    assert actions + r[..5] == (actions + r[..4]) + [r[4]];
    assert actions + r[..6] == (actions + r[..5]) + [r[5]];
    assert actions + r == (actions + r[..6]) + [r[6]];
  }

  /** The concrete run: each round turns the policy off, lets a frame in, and turns it on again before
      the frame is published. After n rounds every slot but the first is deferred, up to seven at once. */
  lemma {:induction false} ManyDeferred(n: nat)
    requires n <= SLOTS
    ensures Stage(Reached(256, Rounds(n)), n)
    decreases n
  {
    hide Inv, Reached, Stage, Round;
    if n == 0 {
      SessionOpened();
    } else {
      ManyDeferred(n - 1);
      ReachedRound(256, Rounds(n - 1), n - 1);
    }
  }

  lemma SessionOpened()
    ensures Stage(Reached(256, [OpenSession(true)]), 0)
  {
    hide Inv, Next, NewWorld, Stage, Reached;
    var start: seq<Action> := [];
    ReachedNext(256, start, OpenSession(true));
    assert start + [OpenSession(true)] == [OpenSession(true)];
    NothingDone();
    OpensFirst();
  }

  lemma NothingDone()
    ensures Reached(256, []) == NewWorld(256)
  {
    hide Inv, NewWorld;
  }

  lemma OpensFirst()
    ensures Shaped(NewWorld(256)) && Stage(Next(NewWorld(256), OpenSession(true)), 0)
  {
  }

  /** So the one-deferred property fails of a reachable state, and the caller conditions above are not idle. */
  lemma TwoDeferred()
    ensures !OneDeferred(Reached(256, Rounds(3)).m.slots)
  {
    hide Inv, Reached;
    ManyDeferred(3);
    var slots := Reached(256, Rounds(3)).m.slots;
    assert slots[1].phase == Deferred && slots[2].phase == Deferred;
  }
}
