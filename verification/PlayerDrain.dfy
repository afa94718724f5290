/** Draining makes progress: when the SDK takes its frames back, a drain gives back every slot that is due. */
module PlayerDrain {
  import opened Prelude
  import opened PlayerMailbox
  import opened PlayerRun
  import opened PlayerInvariant
  import opened PlayerLaws
  import opened PlayerSections
  import A = PlayerAllocator
  import S = PlayerSession

  /** The worker goes on, and every put succeeds. */
  const GOES_ON: Action := Work(true, false, true)

  /** The world after n steps of the worker alone. */
  ghost function Works(w: World, n: nat): (v: World)
    requires Inv(w)
    ensures Inv(v)
  {
    if n == 0 then w
    else
      var u := Works(w, n - 1);
      StepKeeps(u, GOES_ON);
      Next(u, GOES_ON)
  }

  function OnAndOn(n: nat): (s: seq<Action>)
    ensures |s| == n
  {
    seq(n, _ => GOES_ON)
  }

  lemma {:induction false} WorksAreReached(budget: nat, actions: seq<Action>, n: nat)
    ensures Reached(budget, actions + OnAndOn(n)) == Works(Reached(budget, actions), n)
  {
    hide Inv, Next;
    if n == 0 {
      assert actions + OnAndOn(0) == actions;
    } else {
      WorksAreReached(budget, actions, n - 1);
      var all := actions + OnAndOn(n);
      assert all[..|all| - 1] == actions + OnAndOn(n - 1) && all[|all| - 1] == GOES_ON;
    }
  }

  lemma {:induction false} WorksInARow(w: World, k: nat, n: nat)
    requires Inv(w)
    ensures Works(Works(w, k), n) == Works(w, k + n)
  {
    hide Inv, Next;
    if n > 0 { WorksInARow(w, k, n - 1); }
  }

  /** What a drain leaves alone. */
  ghost predicate Aside(w: World, v: World)
    requires Shaped(w) && Shaped(v)
  {
    && v.m == w.m.(slots := v.m.slots) && v.ui == w.ui && v.pending == w.pending && v.s.quarantined == w.s.quarantined && v.s.player == w.s.player
    && (forall l: nat :: S.Held(v.s, l) ==> S.Held(w.s, l))
  }

  // ----- one slot -----

  lemma OneStep(w: World)
    requires Inv(w)
    ensures Shaped(w) && Inv(Works(w, 1)) && Works(w, 1) == Toil(w, true, false, true) && Shaped(Works(w, 1))
  {
    hide Inv, Toil, Shaped;
    InvCalm(w);
    assert Works(w, 0) == w;
    InvCalm(Works(w, 1));
  }

  /** A slot that is not due is passed over. */
  lemma PassesOver(w: World, j: nat)
    requires Inv(w) && w.worker == Taking(j) && j < SLOTS && Shaped(w) && w.m.slots[j].phase != Returning
    ensures Works(w, 1) == w.(worker := Taking(j + 1))
  {
    hide Inv;
    OneStep(w);
  }

  /** A slot that is due is given back in four steps. */
  lemma GivesBack(w: World, j: nat)
    requires Inv(w) && w.worker == Taking(j) && j < SLOTS && Shaped(w) && w.m.slots[j].phase == Returning && !w.s.quarantined
    ensures var v := Works(w, 4);
            && Shaped(v) && v.worker == Taking(j + 1) && Aside(w, v)
            && v.m.slots[j].phase == Empty && (forall k :: 0 <= k < SLOTS && k != j ==> v.m.slots[k] == w.m.slots[k])
            && !S.Held(v.s, w.m.slots[j].lease)
  {
    hide Inv, Works, S.Held, S.Release, A.Release, Aside;
    var a, b, c := Works(w, 1), Works(w, 2), Works(w, 3);
    WorksInARow(w, 1, 1);
    WorksInARow(w, 2, 1);
    WorksInARow(w, 3, 1);
    Taken(w, j);
    Dropped(a, j);
    Put(b, j);
    Settled(c, j);
    assert Aside(w, Works(w, 4)) by { Chained(w, a, b, c, Works(w, 4)); }
  }

  lemma Chained(w: World, a: World, b: World, c: World, v: World)
    requires Shaped(w) && Shaped(a) && Shaped(b) && Shaped(c) && Shaped(v)
    requires Aside(w, a) && Aside(a, b) && Aside(b, c) && Aside(c, v)
    ensures Aside(w, v)
  {
    hide S.Held;
  }

  lemma Taken(w: World, j: nat)
    requires Inv(w) && w.worker == Taking(j) && j < SLOTS && Shaped(w) && w.m.slots[j].phase == Returning
    ensures var v := Works(w, 1);
            && Shaped(v) && v.worker == Dropping(j) && Aside(w, v) && v.s == w.s
            && v.m.slots[j] == w.m.slots[j].(phase := Releasing) && (forall k :: 0 <= k < SLOTS && k != j ==> v.m.slots[k] == w.m.slots[k])
  {
    hide Inv, S.Held;
    OneStep(w);
  }

  lemma Dropped(w: World, j: nat)
    requires Inv(w) && w.worker == Dropping(j) && Shaped(w)
    ensures var v := Works(w, 1);
            && Shaped(v) && v.worker == Putting(j) && Aside(w, v) && v.s == w.s
            && v.m.slots[j].lease == w.m.slots[j].lease && (forall k :: 0 <= k < SLOTS && k != j ==> v.m.slots[k] == w.m.slots[k])
  {
    hide Inv, S.Held, A.Release;
    OneStep(w);
    NotQuarantining(Works(w, 1));
  }

  lemma NotQuarantining(w: World)
    requires Inv(w)
    ensures !w.worker.Quarantining?
  {
    hide PhasesOf, LeasesOf, PinsOf, HistoryOf, A.Inv, S.Inv;
  }

  lemma Put(w: World, j: nat)
    requires Inv(w) && w.worker == Putting(j) && Shaped(w) && !w.s.quarantined
    ensures var v := Works(w, 1);
            && Shaped(v) && v.worker == Settling(j, true) && Aside(w, v) && v.m == w.m && !S.Held(v.s, w.m.slots[j].lease)
  {
    hide Inv, S.Held, S.Release, S.Inv;
    OneStep(w);
    LeaseOut(w, j);
    S.ReleaseKeeps(w.s, w.m.slots[j].lease, true);
    ReleaseSame(w.s, w.m.slots[j].lease, true);
  }

  lemma ReleaseSame(s: S.Session, lease: nat, put: bool)
    requires S.Sized(s)
    ensures var t := S.Release(s, lease, put).0; t.quarantined == s.quarantined && t.player == s.player
  {
    hide S.SlotOf;
  }

  /** The lease of a slot under way back is out, of an open player. */
  lemma LeaseOut(w: World, j: nat)
    requires Inv(w) && w.worker == Putting(j)
    ensures Shaped(w) && S.Inv(w.s) && w.s.player && w.m.slots[j].lease != 0 && S.Held(w.s, w.m.slots[j].lease)
  {
    hide PinsOf, HistoryOf, A.Inv;
    assert w.m.slots[j].phase == Releasing;
  }

  lemma Settled(w: World, j: nat)
    requires Inv(w) && w.worker == Settling(j, true) && Shaped(w)
    ensures var v := Works(w, 1);
            && Shaped(v) && v.worker == Taking(j + 1) && Aside(w, v) && v.s == w.s
            && v.m.slots[j].phase == Empty && (forall k :: 0 <= k < SLOTS && k != j ==> v.m.slots[k] == w.m.slots[k])
  {
    hide Inv, S.Held;
    OneStep(w);
  }

  // ----- the whole drain -----

  /** From slot j on, what was due is given back and the rest stays. */
  ghost predicate Drained(w: World, v: World, j: nat)
    requires Shaped(w) && Shaped(v)
  {
    && Aside(w, v)
    && forall k :: 0 <= k < SLOTS ==>
         if k >= j && w.m.slots[k].phase == Returning then v.m.slots[k].phase == Empty && !S.Held(v.s, w.m.slots[k].lease)
         else v.m.slots[k] == w.m.slots[k]
  }

  lemma {:induction false} DrainsFrom(w: World, j: nat) returns (n: nat)
    requires Inv(w) && w.worker == Taking(j) && j <= SLOTS && Shaped(w) && !w.s.quarantined
    ensures n <= 4 * (SLOTS - j) + 1
    ensures var v := Works(w, n); Shaped(v) && v.worker == Resting && Drained(w, v, j)
    decreases SLOTS - j
  {
    hide Inv, Works, S.Held, Aside, Drained, Shaped;
    ShapedSizes(w);
    if j == SLOTS {
      n := 1;
      Rests(w);
    } else {
      var k := if w.m.slots[j].phase == Returning then 4 else 1;
      if k == 4 { GivesBack(w, j); } else { PassesOver(w, j); }
      OneSlot(w, Works(w, k), j);
      n := DrainsFrom(Works(w, k), j + 1);
      WorksInARow(w, k, n);
      DrainedBoth(w, Works(w, k), Works(w, k + n), j);
      n := k + n;
    }
  }

  lemma Rests(w: World)
    requires Inv(w) && w.worker == Taking(SLOTS) && Shaped(w)
    ensures var v := Works(w, 1); Shaped(v) && v.worker == Resting && Drained(w, v, SLOTS)
  {
    hide Inv, S.Held;
    OneStep(w);
  }

  /** What one slot's turn does. */
  ghost predicate Turned(w: World, v: World, j: nat)
    requires Shaped(w) && Shaped(v) && j < SLOTS
  {
    && Aside(w, v)
    && (forall k :: 0 <= k < SLOTS && k != j ==> v.m.slots[k] == w.m.slots[k])
    && if w.m.slots[j].phase == Returning then v.m.slots[j].phase == Empty && !S.Held(v.s, w.m.slots[j].lease)
       else v.m.slots[j] == w.m.slots[j]
  }

  lemma OneSlot(w: World, v: World, j: nat)
    requires Inv(w) && Shaped(w) && j < SLOTS
    requires if w.m.slots[j].phase == Returning
             then Shaped(v) && Aside(w, v) && v.m.slots[j].phase == Empty && !S.Held(v.s, w.m.slots[j].lease)
                  && (forall k :: 0 <= k < SLOTS && k != j ==> v.m.slots[k] == w.m.slots[k])
             else v == w.(worker := Taking(j + 1))
    ensures Shaped(v) && Turned(w, v, j) && v.s.quarantined == w.s.quarantined
  {
    hide Inv, S.Held;
  }

  lemma DrainedBoth(w: World, u: World, v: World, j: nat)
    requires Shaped(w) && Shaped(u) && Shaped(v) && j < SLOTS && Turned(w, u, j) && Drained(u, v, j + 1)
    ensures Drained(w, v, j)
  {
    hide S.Held;
  }

  /** A drain on which every put succeeds rests again within 35 steps of the worker: each slot that was due is
      empty and its lease is not out any more, a picture that was deferred may have been promoted or given
      back with them, no slot is due, and every other slot is as it was. */
  lemma DrainReturns(budget: nat, actions: seq<Action>) returns (n: nat)
    requires var w := Reached(budget, actions); w.worker.Checking? && !w.s.quarantined
    ensures n <= 35
    ensures var w, v := Reached(budget, actions), Reached(budget, actions + OnAndOn(n));
            && Sound(w, v) && v.worker == Resting && v.pending == w.pending && v.ui == w.ui
            && forall k :: 0 <= k < SLOTS ==>
                 && v.m.slots[k].phase != Returning
                 && (w.m.slots[k].phase == Returning ==> v.m.slots[k].phase == Empty && !S.Held(v.s, w.m.slots[k].lease))
                 && (w.m.slots[k].phase != Returning && w.m.slots[k].phase != Deferred ==> v.m.slots[k] == w.m.slots[k])
                 && (w.m.slots[k].phase == Deferred && !w.m.closing ==> v.m.slots[k].phase == Ready || v.m.slots[k] == w.m.slots[k])
  {
    hide Inv, Reached, Works, S.Held, Drained, Aside;
    var w := Reached(budget, actions);
    var u := Works(w, 2);
    Begins(w);
    n := DrainsFrom(u, 0);
    WorksInARow(w, 2, n);
    WorksAreReached(budget, actions, 2 + n);
    DrainEnds(w, u, Works(w, 2 + n));
    n := 2 + n;
  }

  /** The check and the promotion before the slots are looked at. */
  lemma Begins(w: World)
    requires Inv(w) && w.worker.Checking?
    ensures Shaped(w)
    ensures var u := Works(w, 2);
            && Inv(u) && Shaped(u) && u.worker == Taking(0) && u == w.(m := u.m, worker := Taking(0)) && Promoted(w.m, u.m)
  {
    hide Inv, Works, Promoted, Promote;
    InvCalm(w);
    OneStep(w);
    var a := Works(w, 1);
    OneStep(a);
    WorksInARow(w, 1, 1);
    PromotedSlot(w.m);
    PromoteOnly(w.m);
  }

  /** At most one deferred slot moved on. */
  predicate Promoted(m: Mailbox, n: Mailbox)
    requires |m.slots| == |n.slots| == SLOTS
  {
    && n == m.(slots := n.slots)
    && forall k :: 0 <= k < SLOTS ==>
         n.slots[k] == m.slots[k] || (m.slots[k].phase == Deferred && n.slots[k] == m.slots[k].(phase := if m.closing then Returning else Ready))
  }

  lemma PromoteOnly(m: Mailbox)
    requires |m.slots| == SLOTS
    ensures |Promote(m).slots| == SLOTS && Promoted(m, Promote(m))
  {
  }

  lemma DrainEnds(w: World, u: World, v: World)
    requires Shaped(w) && Shaped(u) && Shaped(v) && u == w.(m := u.m, worker := Taking(0)) && Promoted(w.m, u.m) && Drained(u, v, 0)
    ensures v.pending == w.pending && v.ui == w.ui
    ensures forall k :: 0 <= k < SLOTS ==>
              && v.m.slots[k].phase != Returning
              && (w.m.slots[k].phase == Returning ==> v.m.slots[k].phase == Empty && !S.Held(v.s, w.m.slots[k].lease))
              && (w.m.slots[k].phase != Returning && w.m.slots[k].phase != Deferred ==> v.m.slots[k] == w.m.slots[k])
              && (w.m.slots[k].phase == Deferred && !w.m.closing ==> v.m.slots[k].phase == Ready || v.m.slots[k] == w.m.slots[k])
  {
    hide S.Held;
  }
}
