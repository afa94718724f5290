/** Whole runs of the display on the pipeline: any sequence of its operations, every call into the
    pipeline interrupted by the worker anywhere, and worker and application steps between them.

    What a polling loop finds and what a submission answers is what the pipeline gives; a call whose
    steps do not reach its return is not part of a run. */
module SpiDisplayMachine {
  import opened Prelude
  import opened SpiTransfer
  import opened SpiPipeline
  import opened SpiPipelineRun
  import opened SpiPipelineLaws
  import opened SpiPipelineResults
  import opened SpiDisplayPipe
  import opened SpiDisplayRun
  import D = SpiDisplay

  datatype Desk = Desk(panel: D.Panel, pipe: Pipeline)

  /** The steps of each take of a loop. */
  type Takes = seq<seq<Action>>

  datatype Op =
    | Meanwhile(steps: seq<Action>)
    | FlushCall(last: bool, ours: bool, frame: Frame, degrees: nat, first: Takes, rounds: seq<Takes>, submit: seq<Action>)
    | WaitFlushCall(rounds: seq<Takes>)
    | PollCall(takes: Takes)
    | ClaimCall(takes: Takes)
    | BlitCall(frame: Frame, degrees: nat, submit: seq<Action>)
    | BlitTakeCall(takes: Takes)
    | DeleteDisplay
    | CloseCall(takes: Takes, close: seq<Action>)

  // ----- the loops -----

  /** Collect on the pipeline itself. */
  ghost function CollectOn(p: D.Panel, s: Pipeline, base: nat, takes: Takes): (r: Round)
    requires Inv(s, base)
    ensures Inv(r.pipe, base)
  {
    if !p.pending then Round(p, s, true, [])
    else
      var r := TakeEach(p, s, base, takes);
      r.(panel := r.panel.(pending := r.panel.inflight != 0))
  }

  lemma CollectRefines(p: D.Panel, s: Pipeline, base: nat, takes: Takes, running: nat)
    requires Between(s, base) && D.InvDuring(p, running) && !p.closed && p.pipe == PipeOf(s) && Interleavings(takes)
    ensures var r := CollectOn(p, s, base, takes);
            && r.panel == D.Collect(p, r.found).0
            && D.InvDuring(r.panel, running) && D.SameOwner(p, r.panel)
            && (r.complete ==> Between(r.pipe, base) && r.panel.pipe == PipeOf(r.pipe))
  {
    hide Inv, PipeOf, TakeEach, D.InvDuring, D.InvInside, D.Collect;
    var r := CollectOn(p, s, base, takes);
    D.CollectIs(p, r.found);
    D.Inside(p, running);
    D.CollectKeeps(p, running, r.found);
    if p.pending { LoopRefines(p, s, base, takes, running); }
  }

  /** Collecting round after round until there is room, or until the source is released. */
  datatype Waited = Waited(panel: D.Panel, pipe: Pipeline, complete: bool, scripts: seq<seq<D.Event>>)

  predicate WaitOver(p: D.Panel, source: bool)
  {
    if source then !p.sourcePending else p.inflight != 2
  }

  ghost function WaitOn(p: D.Panel, s: Pipeline, base: nat, rounds: seq<Takes>, source: bool): (w: Waited)
    requires Inv(s, base)
    ensures Inv(w.pipe, base)
    decreases |rounds|
  {
    if WaitOver(p, source) then Waited(p, s, true, [])
    else if rounds == [] then Waited(p, s, false, [])
    else
      var r := CollectOn(p, s, base, rounds[0]);
      if !r.complete then Waited(r.panel, r.pipe, false, [])
      else
        var w := WaitOn(r.panel, r.pipe, base, rounds[1..], source);
        w.(scripts := [r.found] + w.scripts)
  }

  predicate AllInterleavings(rounds: seq<Takes>)
  {
    forall k :: 0 <= k < |rounds| ==> Interleavings(rounds[k])
  }

  function Awaited(p: D.Panel, scripts: seq<seq<D.Event>>, source: bool): D.Panel
  {
    if source then D.AwaitSource(p, scripts) else D.AwaitRoom(p, scripts)
  }

  lemma {:induction false} WaitRefines(p: D.Panel, s: Pipeline, base: nat, rounds: seq<Takes>, source: bool, running: nat)
    requires Between(s, base) && D.InvDuring(p, running) && !p.closed && p.pipe == PipeOf(s) && AllInterleavings(rounds)
    requires WaitOn(p, s, base, rounds, source).complete
    ensures var w := WaitOn(p, s, base, rounds, source);
            && w.panel == Awaited(p, w.scripts, source) && WaitOver(w.panel, source)
            && D.InvDuring(w.panel, running) && D.SameOwner(p, w.panel)
            && Between(w.pipe, base) && w.panel.pipe == PipeOf(w.pipe)
    decreases |rounds|
  {
    hide Inv, PipeOf, CollectOn, D.InvDuring, D.Collect;
    if !WaitOver(p, source) {
      CollectRefines(p, s, base, rounds[0], running);
      var r := CollectOn(p, s, base, rounds[0]);
      WaitRefines(r.panel, r.pipe, base, rounds[1..], source, running);
    }
  }

  // ----- the operations -----

  /** What an operation found, where it left the pipeline, and whether its steps reached its return. */
  datatype Returned = Returned(op: D.Op, pipe: Pipeline, complete: bool)

  /** The submission of a frame with the first free job. */
  ghost function SubmitOn(p: D.Panel, s: Pipeline, base: nat, frame: Frame, degrees: nat, steps: seq<Action>): (r: (Pipeline, bool, bool))
    requires Inv(s, base)
    ensures Inv(r.0, base)
  {
    if |p.jobs| != 2 || (p.jobs[0].used && p.jobs[1].used) then (s, false, true)
    else
      var u := SpiDisplayRun.Called(s, base, Submit(Job(frame, degrees, if !p.jobs[0].used then 0 else 1)), steps);
      (u, u.reply == Answered(Fault), u.producer.Free?)
  }

  lemma SubmitRefines(p: D.Panel, s: Pipeline, base: nat, frame: Frame, degrees: nat, steps: seq<Action>, blit: bool)
    requires Between(s, base) && |p.jobs| == 2 && p.pipe == PipeOf(s) && Inner(steps)
    requires SubmitOn(p, s, base, frame, degrees, steps).2
    ensures var (u, fault, _) := SubmitOn(p, s, base, frame, degrees, steps);
            Between(u, base) && D.Submit(p, blit, fault).0.pipe == PipeOf(u)
  {
    hide Inv, PipeOf, SpiDisplayRun.Called, D.PipeAnswer;
    if !(p.jobs[0].used && p.jobs[1].used) { SubmitComposes(p, s, base, frame, degrees, blit, steps); }
  }

  ghost function FlushOn(p: D.Panel, s: Pipeline, base: nat, op: Op): (r: Returned)
    requires Inv(s, base) && op.FlushCall?
    ensures Inv(r.pipe, base)
  {
    if p.closing || p.claiming || !op.last || !op.ours then Returned(D.FlushCall(op.last, op.ours, [], [], false), s, true)
    else
      var c := CollectOn(p.(flushes := p.flushes + 1), s, base, op.first);
      var w := WaitOn(c.panel, c.pipe, base, op.rounds, false);
      var (u, fault, ok) := SubmitOn(w.panel, w.pipe, base, op.frame, op.degrees, op.submit);
      Returned(D.FlushCall(op.last, op.ours, c.found, w.scripts, fault), u, c.complete && w.complete && ok)
  }

  /** Whether the steps given to an operation are steps under way inside its calls. */
  predicate Legal(op: Op)
  {
    match op
    case Meanwhile(steps) => Apart(steps)
    case FlushCall(_, _, _, _, first, rounds, submit) => Interleavings(first) && AllInterleavings(rounds) && Inner(submit)
    case WaitFlushCall(rounds) => AllInterleavings(rounds)
    case PollCall(takes) => Interleavings(takes)
    case ClaimCall(takes) => Interleavings(takes)
    case BlitCall(_, _, submit) => Inner(submit)
    case BlitTakeCall(takes) => Interleavings(takes)
    case DeleteDisplay => true
    case CloseCall(takes, close) => Interleavings(takes) && Inner(close)
  }

  /** Worker steps and writes by the application, with no call under way. */
  predicate Apart(steps: seq<Action>)
  {
    forall k :: 0 <= k < |steps| ==> steps[k].Work? || steps[k].Scribble?
  }

  /** One operation of the display, on the pipeline. */
  ghost function Performed(p: D.Panel, s: Pipeline, base: nat, op: Op): (r: Returned)
    requires Inv(s, base) && !op.Meanwhile?
    ensures Inv(r.pipe, base)
  {
    hide Inv, CollectOn, WaitOn, SubmitOn, CloseOn, FlushOn, Next;
    match op
    case FlushCall(_, _, _, _, _, _, _) => FlushOn(p, s, base, op)
    case WaitFlushCall(rounds) =>
      if p.pendingBlit then Returned(D.WaitFlushCall([]), s, true)
      else
        var w := WaitOn(p, s, base, rounds, true);
        Returned(D.WaitFlushCall(w.scripts), w.pipe, w.complete)
    case PollCall(takes) =>
      if p.pendingBlit then Returned(D.PollCall([]), s, true)
      else
        var r := CollectOn(p, s, base, takes);
        Returned(D.PollCall(r.found), r.pipe, r.complete)
    case ClaimCall(takes) =>
      if p.closing || !p.present || p.blit then Returned(D.ClaimCall([]), s, true)
      else
        var r := CollectOn(p.(claiming := true), s, base, takes);
        Returned(D.ClaimCall(r.found), r.pipe, r.complete)
    case BlitCall(frame, degrees, submit) =>
      if !p.blit || p.closing || p.pending then Returned(D.BlitCall(false), s, true)
      else
        var (u, fault, ok) := SubmitOn(p, s, base, frame, degrees, submit);
        Returned(D.BlitCall(fault), u, ok)
    case BlitTakeCall(takes) =>
      if !p.pendingBlit then Returned(D.BlitTakeCall([]), s, true)
      else
        var r := CollectOn(p, s, base, takes);
        Returned(D.BlitTakeCall(r.found), r.pipe, r.complete)
    case DeleteDisplay =>
      StepKeeps(s, base, Stop);
      InvShaped(s, base);
      Returned(D.DeleteDisplay, Next(s, Stop), true)
    case CloseCall(takes, close) =>
      var (r, u) := CloseOn(p, s, base, takes, close);
      Returned(D.CloseCall(r.found, u.closed), u, r.complete && u.producer.Free?)
  }

  /** Display and pipeline between operations: each keeps its own invariant and they agree on the queue. */
  ghost predicate Coupled(d: Desk, base: nat)
  {
    Inv(d.pipe, base) && d.pipe.producer.Free? && D.Inv(d.panel) && d.panel.pipe == PipeOf(d.pipe) && d.panel.closed == d.pipe.closed
  }

  /** LVGL enters the flush callback only on a living display and after the previous flush was answered. */
  predicate MayBegin(p: D.Panel, op: Op)
  {
    !p.closed && (op.FlushCall? ==> p.present && !p.sourcePending)
  }

  /** What an operation leaves behind; one that may not begin, or does not return, does not happen. */
  ghost function Step(d: Desk, base: nat, op: Op): Desk
    requires Coupled(d, base)
  {
    if !Legal(op) then d
    else if op.Meanwhile? then Desk(d.panel, Through(d.pipe, base, op.steps))
    else
      var r := Performed(d.panel, d.pipe, base, op);
      if !MayBegin(d.panel, op) || !r.complete then d else Desk(D.Apply(d.panel, r.op), r.pipe)
  }

  // ----- every operation keeps them together -----

  lemma {:induction false} MeanwhileKeeps(s: Pipeline, base: nat, steps: seq<Action>)
    requires Inv(s, base) && s.producer.Free? && Apart(steps)
    ensures var u := Through(s, base, steps); u.producer.Free? && u.closed == s.closed && PipeOf(u) == PipeOf(s)
    decreases |steps|
  {
    hide Inv, Next, Shaped;
    if steps != [] {
      MeanwhileKeeps(s, base, steps[..|steps| - 1]);
      ApartStep(Through(s, base, steps[..|steps| - 1]), base, steps[|steps| - 1]);
    }
  }

  lemma ApartStep(s: Pipeline, base: nat, a: Action)
    requires Inv(s, base) && s.producer.Free? && (a.Work? || a.Scribble?)
    ensures Shaped(s) && var u := Next(s, a); u.producer.Free? && u.closed == s.closed && PipeOf(u) == PipeOf(s)
  {
    hide Inv, Shaped, Toil, Borrowed;
    InvShaped(s, base);
    if a.Work? { WorkerAside(s, a); }
  }

  /** The pipeline after a display operation agrees with the display, and is between calls. */
  ghost predicate Follows(p: D.Panel, r: Returned)
    requires D.Inv(p)
  {
    && D.MayFlush(p, r.op)
    && r.pipe.producer.Free? && PipeOf(r.pipe) == D.Apply(p, r.op).pipe && r.pipe.closed == D.Apply(p, r.op).closed
  }

  lemma FlushFollows(p: D.Panel, s: Pipeline, base: nat, op: Op)
    requires Between(s, base) && D.Inv(p) && !p.closed && p.pipe == PipeOf(s) && op.FlushCall? && Legal(op)
    requires p.present && !p.sourcePending && FlushOn(p, s, base, op).complete
    ensures Follows(p, FlushOn(p, s, base, op))
  {
    hide Inv, PipeOf, CollectOn, WaitOn, SubmitOn, D.InvDuring, D.Collect, D.AwaitRoom, D.Submit, D.Offered, D.SameOwner, D.Apply;
    var r := FlushOn(p, s, base, op);
    if p.closing || p.claiming || !op.last || !op.ours {
      D.Applies(p, r.op);
    } else {
      var q := p.(flushes := p.flushes + 1);
      D.EnteredKeeps(p);
      CollectRefines(q, s, base, op.first, 1);
      var c := CollectOn(q, s, base, op.first);
      D.OwnerClosed(q, c.panel);
      WaitRefines(c.panel, c.pipe, base, op.rounds, false, 1);
      var w := WaitOn(c.panel, c.pipe, base, op.rounds, false);
      D.OwnerClosed(c.panel, w.panel);
      D.ShapeOf(w.panel, 1);
      SubmitRefines(w.panel, w.pipe, base, op.frame, op.degrees, op.submit, false);
      D.Applies(p, r.op);
      D.OfferedPipe(w.panel, r.op.fault);
    }
  }

  lemma WaitFollows(p: D.Panel, s: Pipeline, base: nat, op: Op)
    requires Between(s, base) && D.Inv(p) && !p.closed && p.pipe == PipeOf(s) && op.WaitFlushCall? && Legal(op)
    requires Performed(p, s, base, op).complete
    ensures Follows(p, Performed(p, s, base, op))
  {
    hide Inv, PipeOf, WaitOn, D.InvDuring, D.SameOwner, D.Apply;
    D.Applies(p, Performed(p, s, base, op).op);
    if !p.pendingBlit {
      WaitRefines(p, s, base, op.rounds, true, 0);
      D.OwnerClosed(p, WaitOn(p, s, base, op.rounds, true).panel);
    }
  }

  /** Poll, claim and blit_take collect at most once. */
  lemma CollectFollows(p: D.Panel, s: Pipeline, base: nat, op: Op)
    requires Between(s, base) && D.Inv(p) && !p.closed && p.pipe == PipeOf(s) && (op.PollCall? || op.BlitTakeCall?) && Legal(op)
    requires Performed(p, s, base, op).complete
    ensures Follows(p, Performed(p, s, base, op))
  {
    hide Inv, PipeOf, CollectOn, D.InvDuring, D.SameOwner, D.Apply, D.Collect;
    D.Applies(p, Performed(p, s, base, op).op);
    CollectRefines(p, s, base, op.takes, 0);
    D.OwnerClosed(p, CollectOn(p, s, base, op.takes).panel);
  }

  lemma ClaimFollows(p: D.Panel, s: Pipeline, base: nat, op: Op)
    requires Between(s, base) && D.Inv(p) && !p.closed && p.pipe == PipeOf(s) && op.ClaimCall? && Legal(op)
    requires Performed(p, s, base, op).complete
    ensures Follows(p, Performed(p, s, base, op))
  {
    hide Inv, PipeOf, CollectOn, D.InvDuring, D.SameOwner, D.Apply, D.Collect;
    D.Applies(p, Performed(p, s, base, op).op);
    var q := p.(claiming := true);
    D.ClaimingKeeps(p);
    CollectRefines(q, s, base, op.takes, 0);
    D.OwnerClosed(q, CollectOn(q, s, base, op.takes).panel);
  }

  lemma BlitFollows(p: D.Panel, s: Pipeline, base: nat, op: Op)
    requires Between(s, base) && D.Inv(p) && !p.closed && p.pipe == PipeOf(s) && op.BlitCall? && Legal(op)
    requires Performed(p, s, base, op).complete
    ensures Follows(p, Performed(p, s, base, op))
  {
    hide Inv, PipeOf, SubmitOn, D.InvDuring, D.Apply;
    D.Applies(p, Performed(p, s, base, op).op);
    if p.blit && !p.closing && !p.pending {
      SubmitRefines(p, s, base, op.frame, op.degrees, op.submit, true);
    }
  }

  lemma DeleteFollows(p: D.Panel, s: Pipeline, base: nat)
    requires Between(s, base) && D.Inv(p) && !p.closed && p.pipe == PipeOf(s)
    ensures Follows(p, Performed(p, s, base, DeleteDisplay))
  {
    hide Inv, PipeOf, Next, D.InvDuring, D.Apply;
    D.Applies(p, D.DeleteDisplay);
    StopStep(s, base);
  }

  lemma CloseFollows(p: D.Panel, s: Pipeline, base: nat, op: Op)
    requires Between(s, base) && D.Inv(p) && !p.closed && p.pipe == PipeOf(s) && op.CloseCall? && Legal(op)
    requires Performed(p, s, base, op).complete
    ensures Follows(p, Performed(p, s, base, op))
  {
    hide Inv, PipeOf, CloseOn, D.InvDuring, D.Apply, D.Close;
    D.Applies(p, Performed(p, s, base, op).op);
    CloseComposes(p, s, base, op.takes, op.close);
  }

  lemma OperationFollows(p: D.Panel, s: Pipeline, base: nat, op: Op)
    requires Between(s, base) && D.Inv(p) && p.pipe == PipeOf(s) && !op.Meanwhile? && Legal(op) && MayBegin(p, op)
    requires Performed(p, s, base, op).complete
    ensures Follows(p, Performed(p, s, base, op))
  {
    hide Inv, PipeOf, Follows, Legal, FlushOn, D.InvDuring;
    match op
    case FlushCall(_, _, _, _, _, _, _) => FlushFollows(p, s, base, op);
    case WaitFlushCall(_) => WaitFollows(p, s, base, op);
    case PollCall(_) => CollectFollows(p, s, base, op);
    case ClaimCall(_) => ClaimFollows(p, s, base, op);
    case BlitCall(_, _, _) => BlitFollows(p, s, base, op);
    case BlitTakeCall(_) => CollectFollows(p, s, base, op);
    case DeleteDisplay => DeleteFollows(p, s, base);
    case CloseCall(_, _) => CloseFollows(p, s, base, op);
  }

  lemma OperationKeeps(d: Desk, base: nat, op: Op)
    requires Coupled(d, base)
    ensures Coupled(Step(d, base, op), base)
  {
    hide Inv, PipeOf, Performed, Legal, D.InvDuring, D.Apply;
    if Legal(op) {
      if op.Meanwhile? {
        MeanwhileSteps(op);
        MeanwhileKeeps(d.pipe, base, op.steps);
      } else if MayBegin(d.panel, op) && Performed(d.panel, d.pipe, base, op).complete {
        OperationFollows(d.panel, d.pipe, base, op);
      }
    }
  }

  lemma MeanwhileSteps(op: Op)
    requires op.Meanwhile? && Legal(op)
    ensures Apart(op.steps)
  {
  }

  // ----- whole runs -----

  ghost function Created(x: Transfer, memory: map<nat, seq<byte>>): (d: Desk)
    requires IdleSession(x)
    ensures Coupled(d, |Verified(x.log)|)
  {
    CreatedKeeps(x, memory);
    Desk(D.NewPanel(), SpiPipeline.Created(x, memory))
  }

  /** Display and pipeline after a sequence of operations and of steps between them. */
  ghost function After(x: Transfer, memory: map<nat, seq<byte>>, ops: seq<Op>): (d: Desk)
    requires IdleSession(x)
    ensures Coupled(d, |Verified(x.log)|)
  {
    if ops == [] then Created(x, memory)
    else
      var before := After(x, memory, ops[..|ops| - 1]);
      OperationKeeps(before, |Verified(x.log)|, ops[|ops| - 1]);
      Step(before, |Verified(x.log)|, ops[|ops| - 1])
  }

  // ----- the pipeline's own runs -----

  /** The pipeline is where some run of its own leads. */
  ghost predicate Reachable(s: Pipeline, x: Transfer, memory: map<nat, seq<byte>>)
    requires IdleSession(x)
  {
    exists actions: seq<Action> :: s == Reached(x, memory, actions)
  }

  lemma NextReachable(s: Pipeline, x: Transfer, memory: map<nat, seq<byte>>, a: Action)
    requires IdleSession(x) && Reachable(s, x, memory)
    ensures Shaped(s) && Reachable(Next(s, a), x, memory)
  {
    hide Inv, Next, IdleSession, Shaped;
    var actions: seq<Action> :| s == Reached(x, memory, actions);
    InvShaped(s, |Verified(x.log)|);
    assert (actions + [a])[..|actions|] == actions;
    assert Reached(x, memory, actions + [a]) == Next(s, a);
  }

  lemma {:induction false} ThroughReachable(s: Pipeline, x: Transfer, memory: map<nat, seq<byte>>, steps: seq<Action>)
    requires IdleSession(x) && Reachable(s, x, memory) && Inv(s, |Verified(x.log)|)
    ensures Reachable(Through(s, |Verified(x.log)|, steps), x, memory)
    decreases |steps|
  {
    hide Inv, Next, IdleSession, Reachable;
    if steps != [] {
      ThroughReachable(s, x, memory, steps[..|steps| - 1]);
      NextReachable(Through(s, |Verified(x.log)|, steps[..|steps| - 1]), x, memory, steps[|steps| - 1]);
    }
  }

  lemma CalledReachable(s: Pipeline, x: Transfer, memory: map<nat, seq<byte>>, a: Action, steps: seq<Action>)
    requires IdleSession(x) && Reachable(s, x, memory) && Inv(s, |Verified(x.log)|)
    ensures Reachable(SpiDisplayRun.Called(s, |Verified(x.log)|, a, steps), x, memory)
  {
    hide Inv, Next, IdleSession, Reachable, Through;
    NextReachable(s, x, memory, a);
    StepKeeps(s, |Verified(x.log)|, a);
    ThroughReachable(Next(s, a), x, memory, steps);
  }

  lemma {:induction false} TakesReachable(p: D.Panel, s: Pipeline, x: Transfer, memory: map<nat, seq<byte>>, takes: Takes)
    requires IdleSession(x) && Reachable(s, x, memory) && Inv(s, |Verified(x.log)|)
    ensures Reachable(TakeEach(p, s, |Verified(x.log)|, takes).pipe, x, memory)
    decreases |takes|
  {
    hide Inv, IdleSession, Reachable, SpiDisplayRun.Called, D.Taken, D.Possible;
    if takes != [] {
      var u := SpiDisplayRun.Called(s, |Verified(x.log)|, Take, takes[0]);
      CalledReachable(s, x, memory, Take, takes[0]);
      var e := Found(u.reply);
      if u.producer.Free? && e.Some? && D.Possible(p, e.value) { TakesReachable(D.Taken(p, e.value), u, x, memory, takes[1..]); }
    }
  }

  lemma CollectReachable(p: D.Panel, s: Pipeline, x: Transfer, memory: map<nat, seq<byte>>, takes: Takes)
    requires IdleSession(x) && Reachable(s, x, memory) && Inv(s, |Verified(x.log)|)
    ensures Reachable(CollectOn(p, s, |Verified(x.log)|, takes).pipe, x, memory)
  {
    hide Inv, IdleSession, Reachable, TakeEach;
    TakesReachable(p, s, x, memory, takes);
  }

  lemma {:induction false} WaitReachable(p: D.Panel, s: Pipeline, x: Transfer, memory: map<nat, seq<byte>>, rounds: seq<Takes>, source: bool)
    requires IdleSession(x) && Reachable(s, x, memory) && Inv(s, |Verified(x.log)|)
    ensures Reachable(WaitOn(p, s, |Verified(x.log)|, rounds, source).pipe, x, memory)
    decreases |rounds|
  {
    hide Inv, IdleSession, Reachable, CollectOn;
    if !WaitOver(p, source) && rounds != [] {
      CollectReachable(p, s, x, memory, rounds[0]);
      var r := CollectOn(p, s, |Verified(x.log)|, rounds[0]);
      if r.complete { WaitReachable(r.panel, r.pipe, x, memory, rounds[1..], source); }
    }
  }

  lemma SubmitReachable(p: D.Panel, s: Pipeline, x: Transfer, memory: map<nat, seq<byte>>, frame: Frame, degrees: nat, steps: seq<Action>)
    requires IdleSession(x) && Reachable(s, x, memory) && Inv(s, |Verified(x.log)|)
    ensures Reachable(SubmitOn(p, s, |Verified(x.log)|, frame, degrees, steps).0, x, memory)
  {
    hide Inv, IdleSession, Reachable, SpiDisplayRun.Called;
    if |p.jobs| == 2 { CalledReachable(s, x, memory, Submit(Job(frame, degrees, if !p.jobs[0].used then 0 else 1)), steps); }
  }

  lemma FlushReachable(p: D.Panel, s: Pipeline, x: Transfer, memory: map<nat, seq<byte>>, op: Op)
    requires IdleSession(x) && Reachable(s, x, memory) && Inv(s, |Verified(x.log)|) && op.FlushCall?
    ensures Reachable(FlushOn(p, s, |Verified(x.log)|, op).pipe, x, memory)
  {
    hide Inv, IdleSession, Reachable, CollectOn, WaitOn, SubmitOn;
    var base, q := |Verified(x.log)|, p.(flushes := p.flushes + 1);
    CollectReachable(q, s, x, memory, op.first);
    var c := CollectOn(q, s, base, op.first);
    WaitReachable(c.panel, c.pipe, x, memory, op.rounds, false);
    var w := WaitOn(c.panel, c.pipe, base, op.rounds, false);
    SubmitReachable(w.panel, w.pipe, x, memory, op.frame, op.degrees, op.submit);
  }

  lemma CloseReachable(p: D.Panel, s: Pipeline, x: Transfer, memory: map<nat, seq<byte>>, takes: Takes, last: seq<Action>)
    requires IdleSession(x) && Reachable(s, x, memory) && Inv(s, |Verified(x.log)|)
    ensures Reachable(CloseOn(p, s, |Verified(x.log)|, takes, last).1, x, memory)
  {
    hide Inv, IdleSession, Reachable, TakeEach, SpiDisplayRun.Called, Next;
    var base := |Verified(x.log)|;
    StepKeeps(s, base, Stop);
    NextReachable(s, x, memory, Stop);
    var p0, s0 := if p.closing then p else D.Stop(p), if p.closing then s else Next(s, Stop);
    TakesReachable(p0, s0, x, memory, takes);
    var r := if p0.pending then TakeEach(p0, s0, base, takes) else Round(p0, s0, true, []);
    CalledReachable(r.pipe, x, memory, Close, last);
  }

  lemma PerformedReachable(p: D.Panel, s: Pipeline, x: Transfer, memory: map<nat, seq<byte>>, op: Op)
    requires IdleSession(x) && Reachable(s, x, memory) && Inv(s, |Verified(x.log)|) && !op.Meanwhile?
    ensures Reachable(Performed(p, s, |Verified(x.log)|, op).pipe, x, memory)
  {
    hide Inv, IdleSession, Reachable, CollectOn, WaitOn, SubmitOn, FlushOn, CloseOn, Next;
    match op
    case FlushCall(_, _, _, _, _, _, _) => FlushReachable(p, s, x, memory, op);
    case WaitFlushCall(rounds) => WaitReachable(p, s, x, memory, rounds, true);
    case PollCall(takes) => CollectReachable(p, s, x, memory, takes);
    case ClaimCall(takes) => CollectReachable(p.(claiming := true), s, x, memory, takes);
    case BlitCall(frame, degrees, submit) => SubmitReachable(p, s, x, memory, frame, degrees, submit);
    case BlitTakeCall(takes) => CollectReachable(p, s, x, memory, takes);
    case DeleteDisplay => NextReachable(s, x, memory, Stop);
    case CloseCall(takes, close) => CloseReachable(p, s, x, memory, takes, close);
  }

  /** Under the display the pipeline goes only where its own runs lead. */
  lemma {:induction false} AfterReachable(x: Transfer, memory: map<nat, seq<byte>>, ops: seq<Op>)
    requires IdleSession(x)
    ensures Reachable(After(x, memory, ops).pipe, x, memory)
    decreases |ops|
  {
    hide Inv, IdleSession, Performed, D.Inv, D.Apply, PipeOf, Through;
    if ops == [] {
      var none: seq<Action> := [];
      assert Reached(x, memory, none) == SpiPipeline.Created(x, memory);
    } else {
      var before, op := After(x, memory, ops[..|ops| - 1]), ops[|ops| - 1];
      AfterReachable(x, memory, ops[..|ops| - 1]);
      StepReachable(before, x, memory, op);
    }
  }

  lemma StepReachable(d: Desk, x: Transfer, memory: map<nat, seq<byte>>, op: Op)
    requires IdleSession(x) && Coupled(d, |Verified(x.log)|) && Reachable(d.pipe, x, memory)
    ensures Reachable(Step(d, |Verified(x.log)|, op).pipe, x, memory)
  {
    hide Inv, IdleSession, Reachable, Performed, D.Inv, D.Apply, PipeOf, Through, Legal;
    if Legal(op) {
      if op.Meanwhile? { ThroughReachable(d.pipe, x, memory, op.steps); }
      else { PerformedReachable(d.panel, d.pipe, x, memory, op); }
    }
  }

  /** What holds of a display and the pipeline under it. */
  ghost predicate Sane(d: Desk, start: nat, base: nat)
  {
    && D.Account(d.panel) && d.panel.inflight == |d.pipe.accepted| - |d.pipe.completed|
    && D.CountersFit(d.panel.stats, |d.pipe.accepted|, ResultsOf(d.pipe.completed))
    && FirstInFirstOut(d.pipe) && Accurate(d.pipe, start, base)
    && Sound(d.pipe.transfer) && DmaHolds(d.pipe)
    && (d.panel.closed ==> Settled(d.pipe) && |d.pipe.completed| == |d.pipe.released| == |d.pipe.accepted|)
  }

  /** In every reachable state of display, pipeline and transport together: the display's account holds;
      its counters count the pipeline's accepted frames and their results; those come in order and say
      exactly what the transport did; the buffer under DMA holds the frame under way; and a closed display
      has left nothing undelivered. */
  lemma WholeRun(x: Transfer, memory: map<nat, seq<byte>>, ops: seq<Op>)
    requires IdleSession(x)
    ensures Sane(After(x, memory, ops), |x.log|, |Verified(x.log)|)
  {
    hide After, Inv, D.InvDuring, D.Account, FirstInFirstOut, Accurate, DmaHolds, Settled, Sound, D.CountersFit, Reached;
    var d, base := After(x, memory, ops), |Verified(x.log)|;
    D.InvAccount(d.panel);
    PanelCounts(d.panel);
    InvIsAQueue(d.pipe, base);
    AfterReachable(x, memory, ops);
    var actions: seq<Action> :| d.pipe == Reached(x, memory, actions);
    ResultsExactly(x, memory, actions);
    InvDma(d.pipe, base);
    if d.pipe.closed { ClosedDelivered(d.pipe, base); }
  }

  lemma PanelCounts(p: D.Panel)
    requires D.Inv(p)
    ensures p.inflight == |p.pipe.cookies| - |p.pipe.done| && D.CountersFit(p.stats, |p.pipe.cookies|, p.pipe.done)
  {
    hide D.CountersFit;
  }

  lemma ClosedDelivered(s: Pipeline, base: nat)
    requires Inv(s, base) && s.closed
    ensures Settled(s) && |s.completed| == |s.released| == |s.accepted|
  {
    hide Untouched, Transport, Cookies, Settled, Shaped;
    InvShaped(s, base);
    GoneIsSettled(s);
    CountsOrdered(s);
    ClosedExits(s);
  }
}
