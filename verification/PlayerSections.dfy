/** What each section under the mailbox mutex does to the slots, over every reachable state, in terms of
    the slots' phases alone; and that a drain whose puts succeed gives back every slot that was due. */
module PlayerSections {
  import opened Prelude
  import opened PlayerMailbox
  import opened PlayerRun
  import opened PlayerInvariant
  import opened PlayerLaws
  import A = PlayerAllocator
  import S = PlayerSession

  /** Slot i changes its phase, and nothing else of the mailbox changes. */
  predicate OnlyPhase(m: Mailbox, n: Mailbox, i: nat, phase: Phase)
    requires |m.slots| == |n.slots| == SLOTS && i < SLOTS
  {
    && n == m.(slots := n.slots) && n.slots[i] == m.slots[i].(phase := phase)
    && forall k :: 0 <= k < SLOTS && k != i ==> n.slots[k] == m.slots[k]
  }

  /** The slots of m that were waiting to be shown are due to be returned in n, except slot `but`; the others stay. */
  predicate Retires(m: Mailbox, n: Mailbox, but: Option<nat>)
    requires |m.slots| == |n.slots| == SLOTS
  {
    forall k :: 0 <= k < SLOTS && but != Some(k) ==>
      n.slots[k] == if m.slots[k].phase == Ready || m.slots[k].phase == Deferred then m.slots[k].(phase := Returning) else m.slots[k]
  }

  predicate Sound(w: World, v: World)
  {
    Shaped(w) && Shaped(v)
  }

  lemma Both(budget: nat, actions: seq<Action>, a: Action)
    ensures var w := Reached(budget, actions); Inv(w) && Shaped(w) && Inv(Next(w, a)) && Sound(w, Next(w, a))
  {
    hide Inv, Reached, Next, Shaped;
    var w := Reached(budget, actions);
    StepKeeps(w, a);
    InvCalm(w);
    InvCalm(Next(w, a));
  }

  lemma InvCalm(w: World)
    requires Inv(w)
    ensures Shaped(w) && !w.m.quarantined
  {
    hide PhasesOf, LeasesOf, PinsOf, HistoryOf, A.Inv, S.Inv;
  }

  // ----- the UI -----

  /** A poll of an idle UI hands out a slot exactly when the mailbox is open and some slot is ready, and not
      RGB for the older interface; that slot was ready and is on its way to the screen, and nothing else
      changes. Any other poll changes nothing. */
  lemma PollExactly(budget: nat, actions: seq<Action>, yuvOnly: bool)
    ensures var w := Reached(budget, actions); var v := Next(w, Poll(yuvOnly));
            && Sound(w, v) && v == w.(m := v.m, ui := v.ui) && (!w.ui.Idle? ==> v == w)
            && (w.ui.Idle? ==>
                  && (v.ui.Marked? <==>
                        && !w.m.closing && !w.m.quarantined
                        && exists i :: 0 <= i < SLOTS && w.m.slots[i].phase == Ready && (yuvOnly ==> !w.m.slots[i].rgb))
                  && (v.ui.Marked? ==>
                        && w.m.slots[v.ui.slot].phase == Ready && (yuvOnly ==> !w.m.slots[v.ui.slot].rgb)
                        && OnlyPhase(w.m, v.m, v.ui.slot, Publishing))
                  && (!v.ui.Marked? ==> v == w))
  {
    hide Inv, Reached;
    Both(budget, actions, Poll(yuvOnly));
  }

  /** The image was made and may keep the picture exactly in an open mailbox; else the slot is to be unmarked. */
  lemma RetainExactly(budget: nat, actions: seq<Action>, made: bool)
    ensures var w := Reached(budget, actions); var v := Next(w, UiStep(made));
            && Sound(w, v) && v == w.(m := v.m, ui := v.ui)
            && (w.ui.Marked? ==>
                  && w.m.slots[w.ui.slot].phase == Publishing
                  && if made && !w.m.closing && !w.m.quarantined
                     then v.ui == Idle && OnlyPhase(w.m, v.m, w.ui.slot, Published)
                     else v.ui == Unmarking(w.ui.slot) && v.m == w.m)
            && (w.ui.Idle? ==> v == w)
  {
    hide Inv, Reached;
    var w := Reached(budget, actions);
    Both(budget, actions, UiStep(made));
    PublishingIsMarked(w);
  }

  lemma PublishingIsMarked(w: World)
    requires Inv(w)
    ensures Shaped(w) && (!w.ui.Idle? ==> w.m.slots[w.ui.slot].phase == Publishing)
  {
    hide LeasesOf, PinsOf, HistoryOf, A.Inv, S.Inv;
  }

  /** A picture whose image was not made is ready again exactly under the preserve policy in an open mailbox,
      and is otherwise due to be returned. */
  lemma UnmarkExactly(budget: nat, actions: seq<Action>, made: bool)
    ensures var w := Reached(budget, actions); var v := Next(w, UiStep(made));
            && Sound(w, v)
            && (w.ui.Unmarking? ==>
                  && v == w.(m := v.m, ui := Idle)
                  && OnlyPhase(w.m, v.m, w.ui.slot, if w.m.preserve && !w.m.closing && !w.m.quarantined then Ready else Returning))
  {
    hide Inv, Reached;
    Both(budget, actions, UiStep(made));
  }

  /** The last reader gives a published picture back; no other report of one has an effect. */
  lemma ReaderExactly(budget: nat, actions: seq<Action>, i: nat)
    requires i < SLOTS
    ensures var w := Reached(budget, actions); var v := Next(w, ReaderDone(i));
            && Sound(w, v) && v == w.(m := v.m)
            && if w.m.slots[i].phase == Published then OnlyPhase(w.m, v.m, i, Returning) else v == w
  {
    hide Inv, Reached;
    Both(budget, actions, ReaderDone(i));
  }

  /** Closing, by either side, retires what waits to be shown and leaves what is shown or on its way. */
  lemma CloseExactly(budget: nat, actions: seq<Action>, a: Action)
    requires a.UiCloses? || a.WorkerCloses?
    ensures var w := Reached(budget, actions); var v := Next(w, a);
            && Sound(w, v)
            && if (if a.UiCloses? then w.ui.Idle? else w.worker.Resting?)
               then v == w.(m := v.m) && v.m == w.m.(closing := true, slots := v.m.slots) && Retires(w.m, v.m, None)
               else v == w
  {
    hide Inv, Reached;
    Both(budget, actions, a);
  }

  /** A closed mailbox opens again exactly when every slot is empty. */
  lemma ReopenExactly(budget: nat, actions: seq<Action>)
    ensures var w := Reached(budget, actions); var v := Next(w, ReopenMailbox);
            && Sound(w, v)
            && if w.worker.Resting? && w.m.closing && !w.m.quarantined && forall i :: 0 <= i < SLOTS ==> w.m.slots[i].phase == Empty
               then v == w.(m := w.m.(closing := false)) else v == w
  {
    hide Inv, Reached;
    Both(budget, actions, ReopenMailbox);
  }

  // ----- the worker's publication -----

  /** A filled slot waits behind a picture that is ready or on its way when the policy asks for that in an
      open mailbox; else it takes the place of all that wait, or is due to be returned in a closed one. */
  lemma PublishExactly(budget: nat, actions: seq<Action>, shown: bool, rgb: bool, put: bool)
    ensures var w := Reached(budget, actions); var v := Next(w, Work(shown, rgb, put));
            && Sound(w, v)
            && (w.worker.Filled? ==>
                  var i := w.worker.slot;
                  && v == w.(m := v.m, worker := Resting, pending := 0)
                  && if && w.m.preserve && !w.m.closing && !w.m.quarantined
                        && exists k :: 0 <= k < SLOTS && (w.m.slots[k].phase == Ready || w.m.slots[k].phase == Publishing)
                     then OnlyPhase(w.m, v.m, i, Deferred)
                     else
                       && v.m == w.m.(slots := v.m.slots) && Retires(w.m, v.m, Some(i))
                       && v.m.slots[i] == w.m.slots[i].(phase := if w.m.closing || w.m.quarantined then Returning else Ready))
  {
    hide Inv, Reached;
    var w := Reached(budget, actions);
    Both(budget, actions, Work(shown, rgb, put));
    if w.worker.Filled? { PublishedSlots(w, w.worker.slot); }
  }

  lemma PublishedSlots(w: World, i: nat)
    requires Inv(w) && w.worker.Filled? && w.worker.slot == i
    ensures Shaped(w) && i < SLOTS && |Publish(w.m, i).slots| == SLOTS && w.m.slots[i].phase == Building
    ensures var n := Publish(w.m, i);
            if && w.m.preserve && !w.m.closing && !w.m.quarantined
               && exists k :: 0 <= k < SLOTS && (w.m.slots[k].phase == Ready || w.m.slots[k].phase == Publishing)
            then OnlyPhase(w.m, n, i, Deferred)
            else
              && n == w.m.(slots := n.slots) && Retires(w.m, n, Some(i))
              && n.slots[i] == w.m.slots[i].(phase := if w.m.closing || w.m.quarantined then Returning else Ready)
  {
    hide LeasesOf, PinsOf, HistoryOf, A.Inv, S.Inv;
  }

  /** A deferred picture is promoted exactly when nothing is ready or on its way: it is ready in an open
      mailbox and due to be returned in a closing one. */
  lemma PromoteExactly(budget: nat, actions: seq<Action>, shown: bool, rgb: bool, put: bool)
    ensures var w := Reached(budget, actions); var v := Next(w, Work(shown, rgb, put));
            && Sound(w, v)
            && (w.worker.Promoting? ==>
                  && v == w.(m := v.m, worker := Taking(0))
                  && if || (exists k :: 0 <= k < SLOTS && (w.m.slots[k].phase == Ready || w.m.slots[k].phase == Publishing))
                        || (forall k :: 0 <= k < SLOTS ==> w.m.slots[k].phase != Deferred)
                     then v.m == w.m
                     else exists i: nat :: i < SLOTS && w.m.slots[i].phase == Deferred
                                           && OnlyPhase(w.m, v.m, i, if w.m.closing then Returning else Ready))
  {
    hide Inv, Reached;
    var w := Reached(budget, actions);
    Both(budget, actions, Work(shown, rgb, put));
    if w.worker.Promoting? { PromotedSlot(w.m); }
  }

  lemma PromotedSlot(m: Mailbox)
    requires |m.slots| == SLOTS
    ensures |Promote(m).slots| == SLOTS
    ensures if || (exists k :: 0 <= k < SLOTS && (m.slots[k].phase == Ready || m.slots[k].phase == Publishing))
               || (forall k :: 0 <= k < SLOTS ==> m.slots[k].phase != Deferred)
            then Promote(m) == m
            else exists i: nat :: i < SLOTS && m.slots[i].phase == Deferred && OnlyPhase(m, Promote(m), i, if m.closing then Returning else Ready)
  {
    var i := First(m, (s: Slot) => s.phase == Deferred);
    if i < SLOTS && Promote(m) != m { assert OnlyPhase(m, Promote(m), i, if m.closing then Returning else Ready); }
  }

  // ----- the worker's submission -----

  /** The pending lease enters a slot that was empty exactly when neither the session nor its frame is broken,
      the mailbox is open, and no picture waits under the preserve policy; else nothing changes. */
  lemma SubmitExactly(budget: nat, actions: seq<Action>, k: nat)
    requires var w := Reached(budget, actions); Shaped(w) && w.worker.Resting? && w.pending != 0 && S.IsLease(w.s, k, w.pending)
    ensures var w := Reached(budget, actions); var v := Next(w, SubmitPending);
            && Sound(w, v)
            && if || w.s.faulted || w.s.frames[k].broken || w.m.closing
                  || (w.m.preserve && exists i :: 0 <= i < SLOTS && w.m.slots[i].phase in {Ready, Publishing, Deferred})
               then v == w
               else
                 && v == w.(m := v.m, worker := v.worker) && v.worker.Pinning? && v.worker.saw == w.m.preserve
                 && v.m == w.m.(slots := v.m.slots) && Enters(w.m, v.m, v.worker.slot, w.pending)
  {
    hide Inv, Reached, Admit;
    var w := Reached(budget, actions);
    Both(budget, actions, SubmitPending);
    OnePlace(w, k);
    SubmittedSlot(w, w.s.faulted || w.s.frames[k].broken);
  }

  /** A slot that was empty is being built for a lease. */
  predicate Enters(m: Mailbox, n: Mailbox, i: nat, lease: nat)
    requires |m.slots| == |n.slots| == SLOTS && i < SLOTS
  {
    && m.slots[i].phase == Empty && n.slots[i] == m.slots[i].(phase := Building, lease := lease)
    && forall k :: 0 <= k < SLOTS && k != i ==> n.slots[k] == m.slots[k]
  }

  lemma OnePlace(w: World, k: nat)
    requires Inv(w)
    ensures S.Sized(w.s) && (S.IsLease(w.s, k, w.pending) ==> S.SlotOf(w.s, w.pending, 0) == k)
  {
    hide PhasesOf, PinsOf, HistoryOf, LeasesOf, A.Inv;
  }

  lemma SubmittedSlot(w: World, broken: bool)
    requires Inv(w) && w.worker.Resting? && w.pending != 0
    ensures Shaped(w)
    ensures var (m, r) := Admit(w.m, w.pending, broken);
            && |m.slots| == SLOTS
            && if || broken || w.m.closing
                  || (w.m.preserve && exists i :: 0 <= i < SLOTS && w.m.slots[i].phase in {Ready, Publishing, Deferred})
               then m == w.m && (r.Refused? || r.MustWait?)
               else r.Into? && r.slot < SLOTS && m == w.m.(slots := m.slots) && Enters(w.m, m, r.slot, w.pending)
  {
    hide PhasesOf, PinsOf, HistoryOf, A.Inv, S.Inv, S.Held, Shaped;
    NeverAlready(w);
    ShapedSizes(w);
    FreeWhenPending(w);
    InvCalm(w);
    assert forall s: Slot :: Pending(s) <==> s.phase in {Ready, Publishing, Deferred};
  }

  lemma FreeWhenPending(w: World)
    requires Inv(w) && w.worker.Resting? && w.pending != 0
    ensures |w.m.slots| == SLOTS && exists i :: 0 <= i < SLOTS && w.m.slots[i].phase == Empty
  {
    hide PhasesOf, PinsOf, HistoryOf, A.Inv, S.Inv, Leases;
    SlotIsFree(w.m.slots, w.s, w.pending);
  }

  /** A pinned frame that can be shown fills the slot with its own lease, pin, memory and kind; otherwise the
      slot is abandoned, after its pin if it has one is released. */
  lemma PinExactly(budget: nat, actions: seq<Action>, shown: bool, rgb: bool, put: bool, k: nat)
    requires var w := Reached(budget, actions); Shaped(w) && w.worker.Pinning? && S.IsLease(w.s, k, w.pending)
    ensures var w := Reached(budget, actions); var v := Next(w, Work(shown, rgb, put));
            var i, f := w.worker.slot, w.s.frames[k].frame;
            var (a, pin) := A.Acquire(w.a, f);
            && Sound(w, v) && v == w.(a := a, m := v.m, worker := v.worker, log := v.log)
            && if pin.Some? && shown then
                 && v.worker == Filled(i, w.worker.saw)
                 && v.m == w.m.(slots := w.m.slots[i := Slot(w.m.slots[i].phase, w.pending, pin.value.0, f.addr, pin.value.1, rgb)])
               else
                 && v.worker == Unpinning(i, if pin.Some? then pin.value.0 else 0, w.worker.saw) && v.m == w.m
  {
    hide Inv, Reached, A.Acquire;
    var w := Reached(budget, actions);
    Both(budget, actions, Work(shown, rgb, put));
    OnePlace(w, k);
    PinnedSlot(w, shown, rgb, k);
  }

  lemma PinnedSlot(w: World, shown: bool, rgb: bool, k: nat)
    requires Shaped(w) && w.worker.Pinning? && k < S.LEASES && S.SlotOf(w.s, w.pending, 0) == k
    ensures var v := PinFrame(w, shown, rgb);
            var i, f := w.worker.slot, w.s.frames[k].frame;
            var (a, pin) := A.Acquire(w.a, f);
            && v == w.(a := a, m := v.m, worker := v.worker, log := v.log)
            && if pin.Some? && shown then
                 && v.worker == Filled(i, w.worker.saw)
                 && v.m == w.m.(slots := w.m.slots[i := Slot(w.m.slots[i].phase, w.pending, pin.value.0, f.addr, pin.value.1, rgb)])
               else
                 && v.worker == Unpinning(i, if pin.Some? then pin.value.0 else 0, w.worker.saw) && v.m == w.m
  {
    hide A.Acquire;
    var v := PinFrame(w, shown, rgb);
    var i, f := w.worker.slot, w.s.frames[k].frame;
    var (a, pin) := A.Acquire(w.a, f);
    if pin.Some? && shown { assert v.m == Fill(w.m, i, w.pending, pin.value.0, f.addr, pin.value.1, rgb); }
  }

  /** An abandoned slot is empty again and its lease stays with the worker. */
  lemma AbandonExactly(budget: nat, actions: seq<Action>, shown: bool, rgb: bool, put: bool)
    ensures var w := Reached(budget, actions); var v := Next(w, Work(shown, rgb, put));
            && Sound(w, v)
            && (w.worker.Aborting? ==> v == w.(m := v.m, worker := Resting) && OnlyPhase(w.m, v.m, w.worker.slot, Empty))
  {
    hide Inv, Reached;
    var w := Reached(budget, actions);
    Both(budget, actions, Work(shown, rgb, put));
    AbortsCalmly(w);
  }

  lemma AbortsCalmly(w: World)
    requires Inv(w)
    ensures w.worker.Aborting? ==> w.worker.released
  {
    hide PhasesOf, LeasesOf, PinsOf, HistoryOf, A.Inv, S.Inv;
  }
}
