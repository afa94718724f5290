/** The pipelined display front end: LVGL flushes and direct blits over the two-slot pipeline.

    The pipeline appears as the queue its own laws show it to be: jobs accepted in
    order, a release and then a completion for each, delivered whenever the worker
    got that far. Which events a call finds is a script given to the call. */
module SpiDisplay {
  import opened Prelude
  import opened SpiTransfer

  /** What the pipeline's producer side remembers: cookies accepted, releases and completions delivered. */
  datatype Pipe = Pipe(cookies: seq<nat>, released: nat, done: seq<Outcome>, stopped: bool)

  datatype Event = ReleaseNext | CompleteNext(result: Outcome)

  datatype JobSlot = JobSlot(used: bool, blit: bool)
  datatype Stats = Stats(accepted: u32, completed: u32, failed: u32, rejected: u32, last: Outcome)

  /** `present` says that the LVGL display still exists; flushes and readies count the flush
      callbacks entered and the flush-ready calls made. */
  datatype Panel = Panel(
    jobs: seq<JobSlot>, inflight: nat, sourcePending: bool, pending: bool,
    closing: bool, claiming: bool, blit: bool, pendingBlit: bool, present: bool, closed: bool,
    result: Outcome, stats: Stats, pipe: Pipe, flushes: nat, readies: nat)

  function Increment(counter: u32): u32
  {
    if counter < U32_MAX then counter + 1 else counter
  }

  function NewPanel(): Panel
  {
    Panel([JobSlot(false, false), JobSlot(false, false)], 0, false, false, false, false, false, false, true, false,
          Ok, Stats(0, 0, 0, 0, Ok), Pipe([], 0, [], false), 0, 0)
  }

  // ----- the operations -----

  function Ready(p: Panel): Panel
  {
    p.(readies := p.readies + 1)
  }

  function Rejected(p: Panel): Panel
  {
    p.(stats := p.stats.(rejected := Increment(p.stats.rejected)))
  }

  /** Whether the pipeline can deliver an event now. */
  predicate Deliverable(pipe: Pipe, e: Event, slots: nat, inflight: nat)
  {
    match e
    case ReleaseNext => pipe.released < |pipe.cookies| && pipe.cookies[pipe.released] < slots
    case CompleteNext(_) =>
      |pipe.done| < pipe.released <= |pipe.cookies| && pipe.cookies[|pipe.done|] < slots && inflight > 0
  }

  predicate Possible(p: Panel, e: Event)
  {
    Deliverable(p.pipe, e, |p.jobs|, p.inflight)
  }

  function Recorded(s: Stats, r: Outcome): Stats
  {
    if r == Ok then s.(last := r, completed := Increment(s.completed)) else s.(last := r, failed := Increment(s.failed))
  }

  function Taken(p: Panel, e: Event): Panel
    requires Possible(p, e)
  {
    match e
    case ReleaseNext =>
      var job := p.jobs[p.pipe.cookies[p.pipe.released]];
      var q := p.(pipe := p.pipe.(released := p.pipe.released + 1));
      if job.blit then q else if p.present then Ready(q.(sourcePending := false)) else q.(sourcePending := false)
    case CompleteNext(r) =>
      var i := p.pipe.cookies[|p.pipe.done|];
      p.(pipe := p.pipe.(done := p.pipe.done + [r]), result := r, stats := Recorded(p.stats, r),
         pendingBlit := p.pendingBlit && !p.jobs[i].blit, jobs := p.jobs[i := p.jobs[i].(used := false)],
         inflight := p.inflight - 1)
  }

  /** The events a polling loop finds, up to the first that is not there yet. */
  function TakenAll(p: Panel, script: seq<Event>): Panel
    decreases |script|
  {
    if script == [] || !Possible(p, script[0]) then p else TakenAll(Taken(p, script[0]), script[1..])
  }

  function Collect(p: Panel, script: seq<Event>): (Panel, bool)
  {
    if !p.pending then (p, true)
    else
      var q := TakenAll(p, script);
      (q.(pending := q.inflight != 0), q.inflight == 0)
  }

  /** The pipeline's own answer to a submission. */
  function PipeAnswer(p: Pipe, fault: bool): Outcome
  {
    if p.stopped then Invalid else if fault then Fault
    else if |p.cookies| >= |p.done| + 2 then Busy else Ok
  }

  function Submit(p: Panel, blit: bool, fault: bool): (Panel, Outcome)
    requires |p.jobs| == 2
  {
    if p.jobs[0].used && p.jobs[1].used then (p, Busy)
    else
      var i := if !p.jobs[0].used then 0 else 1;
      var r := PipeAnswer(p.pipe, fault);
      if r != Ok then (p, r)
      else
        (p.(pipe := p.pipe.(cookies := p.pipe.cookies + [i]), jobs := p.jobs[i := JobSlot(true, blit)],
            inflight := p.inflight + 1, sourcePending := p.sourcePending || !blit,
            pending := true, stats := p.stats.(accepted := Increment(p.stats.accepted))), Ok)
  }

  /** Collecting again and again while both jobs are in flight. */
  function AwaitRoom(p: Panel, rounds: seq<seq<Event>>): Panel
    decreases |rounds|
  {
    if p.inflight != 2 || rounds == [] then p else AwaitRoom(Collect(p, rounds[0]).0, rounds[1..])
  }

  /** The flush callback. `ours` says that the active draw buffer is one of the display's own. */
  function Flush(p: Panel, last: bool, ours: bool, first: seq<Event>, rounds: seq<seq<Event>>, fault: bool): Panel
    requires |p.jobs| == 2
  {
    var q := p.(flushes := p.flushes + 1);
    if q.closing || q.claiming || !last then Ready(q)
    else if !ours then Ready(Rejected(q.(result := Invalid)))
    else
      var room := AwaitRoom(Collect(q, first).0, rounds);
      if |room.jobs| != 2 then room else Offered(room, fault)
  }

  /** Hand the frame over; a refusal answers the flush at once. */
  function Offered(room: Panel, fault: bool): Panel
    requires |room.jobs| == 2
  {
    var (u, r) := Submit(room, false, fault);
    if r == Ok then u.(result := Ok) else Ready(Rejected(u.(result := r)))
  }

  function AwaitSource(p: Panel, rounds: seq<seq<Event>>): Panel
    decreases |rounds|
  {
    if !p.sourcePending || rounds == [] then p else AwaitSource(Collect(p, rounds[0]).0, rounds[1..])
  }

  function FlushAwaited(p: Panel, rounds: seq<seq<Event>>): Panel
  {
    if p.pendingBlit then p else AwaitSource(p, rounds)
  }

  function Poll(p: Panel, script: seq<Event>): (Panel, bool)
  {
    if p.pendingBlit then (p, false) else Collect(p, script)
  }

  function Claim(p: Panel, script: seq<Event>): (Panel, Outcome)
  {
    if p.closing || !p.present then (p, Invalid)
    else if p.blit then (p, Ok)
    else
      var (q, idle) := Collect(p.(claiming := true), script);
      if !idle then (q, Busy)
      else if q.result == Fault || q.result == Busy then (q, q.result)
      else (q.(blit := true), Ok)
  }

  function Blit(p: Panel, fault: bool): (Panel, Outcome)
    requires |p.jobs| == 2
  {
    if !p.blit || p.closing then (Rejected(p), Invalid)
    else if p.pending then (Rejected(p), Busy)
    else
      var (u, r) := Submit(p, true, fault);
      if r == Ok then (u.(result := Ok, pendingBlit := true), Ok) else (Rejected(u.(result := r)), r)
  }

  function BlitTake(p: Panel, script: seq<Event>): (Panel, Option<Outcome>)
  {
    if !p.pendingBlit then (p, None)
    else
      var (q, idle) := Collect(p, script);
      (q, if idle then Some(q.result) else None)
  }

  function Stop(p: Panel): Panel
  {
    p.(closing := true, pipe := p.pipe.(stopped := true))
  }

  function Deleted(p: Panel): Panel
  {
    Stop(p).(present := false)
  }

  /** Close; `exited` says that the worker has published its exit. */
  function Close(p: Panel, script: seq<Event>, exited: bool): (Panel, bool)
  {
    var (q, idle) := Collect(if p.closing then p else Stop(p), script);
    if !idle || !exited then (q, false) else (q.(present := false, closed := true), true)
  }

  // ----- what every operation keeps -----

  function InFlight(p: Panel): int
  {
    |p.pipe.cookies| - |p.pipe.done|
  }

  /** The slots in use are exactly those named by the jobs in flight. */
  predicate SlotsFit(jobs: seq<JobSlot>, cookies: seq<nat>, t: nat)
  {
    && |jobs| == 2 && t <= |cookies| <= t + 2
    && (forall k :: t <= k < |cookies| ==> cookies[k] < 2 && jobs[cookies[k]].used)
    && (|cookies| == t + 2 ==> cookies[t] != cookies[t + 1])
    && (|cookies| == t ==> !jobs[0].used && !jobs[1].used)
    && (|cookies| == t + 1 ==> !jobs[1 - cookies[t]].used)
  }

  /** Whether job k is a flush whose source was not released. */
  function Owed(jobs: seq<JobSlot>, cookies: seq<nat>, r: nat, k: nat): nat
  {
    if r <= k < |cookies| && cookies[k] < |jobs| && !jobs[cookies[k]].blit then 1 else 0
  }

  function Unreleased(p: Panel): nat
  {
    var t := |p.pipe.done|;
    Owed(p.jobs, p.pipe.cookies, p.pipe.released, t) + Owed(p.jobs, p.pipe.cookies, p.pipe.released, t + 1)
  }

  /** A blit in flight is alone. */
  predicate BlitsFit(p: Panel)
  {
    var t := |p.pipe.done|;
    && (p.pendingBlit ==> InFlight(p) == 1 && p.pipe.cookies[t] < |p.jobs| && p.jobs[p.pipe.cookies[t]].blit)
    && (!p.pendingBlit ==> forall k :: t <= k < |p.pipe.cookies| ==> p.pipe.cookies[k] < |p.jobs| && !p.jobs[p.pipe.cookies[k]].blit)
    && (p.blit ==> p.claiming && (p.pendingBlit || InFlight(p) == 0))
    && (p.pendingBlit ==> p.blit)
  }

  function Count(done: seq<Outcome>, ok: bool): nat
  {
    if done == [] then 0
    else Count(done[..|done| - 1], ok) + if (done[|done| - 1] == Ok) == ok then 1 else 0
  }

  predicate CountersFit(s: Stats, accepted: nat, done: seq<Outcome>)
  {
    && s.accepted == Min(accepted, U32_MAX)
    && s.completed == Min(Count(done, true), U32_MAX)
    && s.failed == Min(Count(done, false), U32_MAX)
    && s.last == (if done == [] then Ok else done[|done| - 1])
  }

  /** The invariant while `running` flush callbacks (none or one) are between entry and outcome. */
  predicate InvDuring(p: Panel, running: nat)
  {
    var t := |p.pipe.done|;
    && t <= p.pipe.released <= |p.pipe.cookies| && SlotsFit(p.jobs, p.pipe.cookies, t)
    && p.inflight == InFlight(p) && CountersFit(p.stats, |p.pipe.cookies|, p.pipe.done) && BlitsFit(p)
    && p.closing == p.pipe.stopped && (!p.present ==> p.closing)
    && Unreleased(p) <= 1 && p.sourcePending == (Unreleased(p) == 1)
    && (p.present ==> p.flushes == p.readies + Unreleased(p) + running)
    && (p.closed ==> p.inflight == 0) && p.pending == (p.inflight != 0)
  }

  /** Between calls: in particular every flush so far was answered exactly once, or its source is
      the one still to be released. */
  predicate Inv(p: Panel)
  {
    InvDuring(p, 0)
  }

  lemma CountsTotal(done: seq<Outcome>)
    ensures Count(done, true) + Count(done, false) == |done|
  {
    if done != [] { CountsTotal(done[..|done| - 1]); }
  }

  /** What collecting events does not change. */
  predicate SameOwner(p: Panel, q: Panel)
  {
    && q.present == p.present && q.closing == p.closing && q.claiming == p.claiming && q.blit == p.blit
    && q.closed == p.closed && q.pipe.cookies == p.pipe.cookies && q.flushes == p.flushes
    && (!p.sourcePending ==> !q.sourcePending && q.readies == p.readies)
    && q.stats.rejected == p.stats.rejected && q.pipe.stopped == p.pipe.stopped
  }

  /** Inside the polling loop `pending` is brought up to date only at the end. */
  predicate InvInside(p: Panel, running: nat)
  {
    InvDuring(p.(pending := p.inflight != 0), running)
  }

  lemma ReleaseKeeps(p: Panel, running: nat)
    requires InvInside(p, running) && Possible(p, ReleaseNext) && !p.closed
    ensures InvInside(Taken(p, ReleaseNext), running) && SameOwner(p, Taken(p, ReleaseNext))
  {
    hide Count;
  }

  lemma CompletionKeeps(p: Panel, running: nat, r: Outcome)
    requires InvInside(p, running) && Possible(p, CompleteNext(r)) && !p.closed
    ensures InvInside(Taken(p, CompleteNext(r)), running) && SameOwner(p, Taken(p, CompleteNext(r)))
  {
    hide CountersFit;
    CountersTaken(p.stats, |p.pipe.cookies|, p.pipe.done, r);
  }

  lemma CountersTaken(s: Stats, accepted: nat, done: seq<Outcome>, r: Outcome)
    requires CountersFit(s, accepted, done)
    ensures CountersFit(Recorded(s, r), accepted, done + [r])
  {
    assert (done + [r])[..|done|] == done;
  }

  lemma TakenKeeps(p: Panel, running: nat, e: Event)
    requires InvInside(p, running) && Possible(p, e) && !p.closed
    ensures InvInside(Taken(p, e), running) && SameOwner(p, Taken(p, e))
  {
    hide InvInside, SameOwner, Taken;
    match e
    case ReleaseNext => ReleaseKeeps(p, running);
    case CompleteNext(r) => CompletionKeeps(p, running, r);
  }

  lemma {:induction false} TakenAllKeeps(p: Panel, running: nat, script: seq<Event>)
    requires InvInside(p, running) && !p.closed
    ensures InvInside(TakenAll(p, script), running) && SameOwner(p, TakenAll(p, script))
    decreases |script|
  {
    hide InvDuring, Taken;
    if script != [] && Possible(p, script[0]) {
      TakenKeeps(p, running, script[0]);
      TakenAllKeeps(Taken(p, script[0]), running, script[1..]);
    }
  }

  lemma CollectKeeps(p: Panel, running: nat, script: seq<Event>)
    requires InvDuring(p, running) && !p.closed
    ensures var (q, idle) := Collect(p, script);
            InvDuring(q, running) && SameOwner(p, q) && idle == (q.inflight == 0)
  {
    hide InFlight, SlotsFit, CountersFit, BlitsFit, Unreleased;
    assert p.(pending := p.inflight != 0) == p;
    TakenAllKeeps(p, running, script);
  }

  lemma {:induction false} AwaitRoomKeeps(p: Panel, running: nat, rounds: seq<seq<Event>>)
    requires InvDuring(p, running) && !p.closed
    ensures var q := AwaitRoom(p, rounds); InvDuring(q, running) && SameOwner(p, q)
    decreases |rounds|
  {
    hide InvDuring, Collect;
    if p.inflight == 2 && rounds != [] {
      CollectKeeps(p, running, rounds[0]);
      AwaitRoomKeeps(Collect(p, rounds[0]).0, running, rounds[1..]);
    }
  }

  lemma {:induction false} AwaitSourceKeeps(p: Panel, rounds: seq<seq<Event>>)
    requires Inv(p) && !p.closed
    ensures var q := AwaitSource(p, rounds); Inv(q) && SameOwner(p, q)
    decreases |rounds|
  {
    hide InvDuring, Collect;
    if p.sourcePending && rounds != [] {
      CollectKeeps(p, 0, rounds[0]);
      AwaitSourceKeeps(Collect(p, rounds[0]).0, rounds[1..]);
    }
  }

  /** A submission is refused as BUSY exactly when two jobs are in flight: with a free job the
      pipeline has a free slot. */
  lemma SubmitKeeps(p: Panel, running: nat, blit: bool, fault: bool)
    requires InvDuring(p, running) && !p.closed
    requires if blit then p.blit && p.inflight == 0 && running == 0 else !p.claiming && !p.sourcePending && running == 1
    ensures |p.jobs| == 2
    ensures var (u, r) := Submit(p, blit, fault);
            && (r != Ok ==> u == p)
            && (r == Busy <==> p.inflight == 2) && (r == Ok <==> p.inflight < 2 && !p.closing && !fault)
            && (r == Invalid <==> p.inflight < 2 && p.closing)
            && u.stats.rejected == p.stats.rejected
            && (r == Ok ==> InvDuring(u.(pendingBlit := u.pendingBlit || blit), 0)
                            && u.pipe.cookies[..|p.pipe.cookies|] == p.pipe.cookies && |u.pipe.cookies| == |p.pipe.cookies| + 1
                            && u.readies == p.readies && u.present == p.present && u.closed == p.closed
                            && u.flushes == p.flushes && (!blit ==> u.sourcePending) && u.closing == p.closing)
  {
  }

  lemma ShapeOf(p: Panel, running: nat)
    requires InvDuring(p, running)
    ensures |p.jobs| == 2 && p.inflight <= 2 && p.inflight == InFlight(p) && (p.blit ==> p.claiming)
  {
  }

  lemma AnsweredKeeps(p: Panel, r: Outcome)
    requires InvDuring(p, 1)
    ensures Inv(Ready(Rejected(p).(result := r))) && Inv(Ready(p))
  {
  }

  /** The wait for room of a flush ends with room. */
  predicate RoomAwaited(p: Panel, first: seq<Event>, rounds: seq<seq<Event>>)
  {
    AwaitRoom(Collect(p.(flushes := p.flushes + 1), first).0, rounds).inflight != 2
  }

  /** One flush: answered at once, or its frame is accepted and its source is still to be released;
      after the wait for room it is never refused as BUSY. */
  lemma FlushKeeps(p: Panel, last: bool, ours: bool, first: seq<Event>, rounds: seq<seq<Event>>, fault: bool)
    requires Inv(p) && p.present && !p.sourcePending && !p.closed
    requires !p.closing && !p.claiming && last && ours ==> RoomAwaited(p, first, rounds)
    ensures |p.jobs| == 2
    ensures var u := Flush(p, last, ours, first, rounds, fault);
            && Inv(u) && u.present && !u.closed && u.flushes == p.flushes + 1
            && (if |u.pipe.cookies| == |p.pipe.cookies| then u.readies == p.readies + 1
                else u.readies == p.readies && u.sourcePending && |u.pipe.cookies| == |p.pipe.cookies| + 1)
            && (!p.closing && !p.claiming && last && ours ==> u.result != Busy)
            && (|u.pipe.cookies| > |p.pipe.cookies| <==> !p.closing && !p.claiming && last && ours && !fault)
            && u.stats.rejected == (if !p.closing && !p.claiming && last && !(ours && !fault) then Increment(p.stats.rejected) else p.stats.rejected)
  {
    hide InvDuring, Collect, AwaitRoom, Submit, InFlight;
    var q := p.(flushes := p.flushes + 1);
    EnteredKeeps(p);
    ShapeOf(q, 1);
    AnsweredKeeps(q, Invalid);
    if !q.closing && !q.claiming && last && ours {
      CollectKeeps(q, 1, first);
      AwaitRoomKeeps(Collect(q, first).0, 1, rounds);
      var room := AwaitRoom(Collect(q, first).0, rounds);
      ShapeOf(room, 1);
      SubmitKeeps(room, 1, false, fault);
      var (u, r) := Submit(room, false, fault);
      if r == Ok { AcceptedKeeps(u); } else { AnsweredKeeps(room, r); }
    }
  }

  lemma EnteredKeeps(p: Panel)
    requires Inv(p) && p.present
    ensures InvDuring(p.(flushes := p.flushes + 1), 1)
  {
  }

  lemma AcceptedKeeps(u: Panel)
    ensures InvDuring(u.(pendingBlit := u.pendingBlit || false), 0) ==> Inv(u.(result := Ok))
  {
  }

  lemma ClaimKeeps(p: Panel, script: seq<Event>)
    requires Inv(p) && !p.closed
    ensures var (q, r) := Claim(p, script);
            && Inv(q) && !q.closed && (r == Ok ==> q.blit && (p.blit || q.inflight == 0))
            && (!p.present || p.closing ==> r == Invalid && q == p) && (p.present && !p.closing && p.blit ==> r == Ok && q == p)
            && (p.present && !p.closing && !p.blit ==>
                  r == if q.inflight != 0 then Busy else if q.result == Fault || q.result == Busy then q.result else Ok)
  {
    hide SlotsFit, CountersFit, Collect, Owed;
    CollectKeeps(p.(claiming := true), 0, script);
  }

  /** A claimed display blits one frame at a time, and is refused as BUSY exactly while one is in flight. */
  lemma BlitKeeps(p: Panel, fault: bool)
    requires Inv(p) && !p.closed
    ensures |p.jobs| == 2
    ensures var (q, r) := Blit(p, fault);
            && Inv(q) && !q.closed && (r == Busy <==> p.blit && !p.closing && p.inflight > 0) && (r == Ok ==> q.inflight == 1)
            && (r == Ok <==> p.blit && !p.closing && p.inflight == 0 && !fault)
            && (r == Invalid <==> !p.blit || p.closing)
            && q.stats.rejected == (if r == Ok then p.stats.rejected else Increment(p.stats.rejected))
  {
    hide Owed, Submit, Count;
    ShapeOf(p, 0);
    if p.blit && p.inflight == 0 { SubmitKeeps(p, 0, true, fault); }
  }

  lemma StopKeeps(p: Panel)
    requires Inv(p)
    ensures Inv(Stop(p)) && Stop(p).closed == p.closed
  {
    hide SlotsFit, CountersFit, Owed;
  }

  lemma CollectIs(p: Panel, script: seq<Event>)
    ensures Collect(p, script)
            == if !p.pending then (p, true)
               else
                 var q := TakenAll(p, script);
                 (q.(pending := q.inflight != 0), q.inflight == 0)
  {
  }

  lemma Inside(p: Panel, running: nat)
    requires InvDuring(p, running)
    ensures InvInside(p, running) && (p.pending <==> p.inflight != 0)
  {
    assert p.(pending := p.inflight != 0) == p;
  }

  /** With nothing in flight every flush was answered exactly once. */
  lemma AllAnswered(p: Panel)
    requires Inv(p) && p.inflight == 0
    ensures p.present ==> p.flushes == p.readies
    ensures |p.pipe.done| == |p.pipe.cookies|
  {
  }

  lemma CloseKeeps(p: Panel, script: seq<Event>, exited: bool)
    requires Inv(p) && !p.closed
    ensures var (q, ok) := Close(p, script, exited);
            && Inv(q) && q.closed == ok && q.closing
            && (ok ==> |q.pipe.done| == |q.pipe.cookies|) && (ok <==> q.inflight == 0 && exited)
  {
    hide SlotsFit, CountersFit, Owed, Collect;
    CollectKeeps(if p.closing then p else Stop(p), 0, script);
  }

  lemma DeletedKeeps(p: Panel)
    requires Inv(p)
    ensures Inv(Deleted(p))
  {
    hide SlotsFit, CountersFit, Owed;
  }

  // ----- whole runs -----

  datatype Op =
    | FlushCall(last: bool, ours: bool, first: seq<Event>, rounds: seq<seq<Event>>, fault: bool)
    | WaitFlushCall(rounds: seq<seq<Event>>)
    | PollCall(script: seq<Event>)
    | ClaimCall(script: seq<Event>)
    | BlitCall(fault: bool)
    | BlitTakeCall(script: seq<Event>)
    | DeleteDisplay
    | CloseCall(script: seq<Event>, exited: bool)

  /** LVGL enters the flush callback only on a living display and after the previous flush was
      answered; a script for it is complete when its wait for room, if it waits, ends. */
  predicate MayFlush(p: Panel, op: Op)
  {
    op.FlushCall? ==>
      && p.present && !p.sourcePending
      && (!p.closing && !p.claiming && op.last && op.ours ==> RoomAwaited(p, op.first, op.rounds))
  }

  function Apply(p: Panel, op: Op): (q: Panel)
    requires Inv(p)
    ensures Inv(q)
  {
    hide InvDuring, Flush, Collect;
    if p.closed || !MayFlush(p, op) then p
    else
      match op
      case FlushCall(last, ours, first, rounds, fault) =>
        FlushKeeps(p, last, ours, first, rounds, fault); Flush(p, last, ours, first, rounds, fault)
      case WaitFlushCall(rounds) => AwaitSourceKeeps(p, rounds); FlushAwaited(p, rounds)
      case PollCall(script) => CollectKeeps(p, 0, script); Poll(p, script).0
      case ClaimCall(script) => ClaimKeeps(p, script); Claim(p, script).0
      case BlitCall(fault) => BlitKeeps(p, fault); Blit(p, fault).0
      case BlitTakeCall(script) => CollectKeeps(p, 0, script); BlitTake(p, script).0
      case DeleteDisplay => DeletedKeeps(p); Deleted(p)
      case CloseCall(script, exited) => CloseKeeps(p, script, exited); Close(p, script, exited).0
  }

  /** Which operation Apply stands for. */
  lemma Applies(p: Panel, op: Op)
    requires Inv(p) && !p.closed && MayFlush(p, op)
    ensures |p.jobs| == 2
    ensures Apply(p, op)
            == match op
               case FlushCall(last, ours, first, rounds, fault) => Flush(p, last, ours, first, rounds, fault)
               case WaitFlushCall(rounds) => FlushAwaited(p, rounds)
               case PollCall(script) => Poll(p, script).0
               case ClaimCall(script) => Claim(p, script).0
               case BlitCall(fault) => Blit(p, fault).0
               case BlitTakeCall(script) => BlitTake(p, script).0
               case DeleteDisplay => Deleted(p)
               case CloseCall(script, exited) => Close(p, script, exited).0
  {
    hide InvDuring, Flush, FlushAwaited, Poll, Claim, Blit, BlitTake, Deleted, Close, Collect;
    ShapeOf(p, 0);
  }

  lemma OwnerClosed(p: Panel, q: Panel)
    requires SameOwner(p, q)
    ensures q.closed == p.closed
  {
  }

  lemma RefusedPipe(p: Panel)
    ensures Ready(Rejected(p)).pipe == p.pipe && Ready(Rejected(p)).closed == p.closed
  {
  }

  lemma SubmitPanel(p: Panel, fault: bool)
    requires |p.jobs| == 2
    ensures Submit(p, false, fault).0.closed == p.closed
  {
  }

  lemma OfferedPipe(room: Panel, fault: bool)
    requires |room.jobs| == 2
    ensures Offered(room, fault).pipe == Submit(room, false, fault).0.pipe && Offered(room, fault).closed == room.closed
  {
    hide Submit, Ready, Rejected;
    SubmitPanel(room, fault);
    var (u, r) := Submit(room, false, fault);
    RefusedPipe(u.(result := r));
  }

  /** Collecting reports the result of the latest completion it found; without one nothing changes. */
  lemma {:induction false} CollectReports(p: Panel, script: seq<Event>)
    ensures var q := TakenAll(p, script);
            && p.pipe.done <= q.pipe.done
            && q.result == (if |q.pipe.done| > |p.pipe.done| then q.pipe.done[|q.pipe.done| - 1] else p.result)
    decreases |script|
  {
    hide Taken, Possible;
    if script != [] && Possible(p, script[0]) {
      TakenReports(p, script[0]);
      CollectReports(Taken(p, script[0]), script[1..]);
    }
  }

  lemma TakenReports(p: Panel, e: Event)
    requires Possible(p, e)
    ensures var q := Taken(p, e);
            if e.CompleteNext? then q.pipe.done == p.pipe.done + [e.result] && q.result == e.result
            else q.pipe.done == p.pipe.done && q.result == p.result
  {
  }

  /** Each event of a script is there when its turn comes. */
  predicate AllThere(p: Panel, script: seq<Event>)
    decreases |script|
  {
    script == [] || (Possible(p, script[0]) && AllThere(Taken(p, script[0]), script[1..]))
  }

  function Releases(script: seq<Event>): nat
  {
    if script == [] then 0 else (if script[0].ReleaseNext? then 1 else 0) + Releases(script[1..])
  }

  /** Collecting takes every event that is there. */
  lemma {:induction false} CollectsAll(p: Panel, script: seq<Event>)
    requires AllThere(p, script)
    ensures var q := TakenAll(p, script);
            q.pipe.released == p.pipe.released + Releases(script) && |q.pipe.done| == |p.pipe.done| + |script| - Releases(script)
    decreases |script|
  {
    if script != [] { CollectsAll(Taken(p, script[0]), script[1..]); }
  }

  /** A poll leaves a blit to its own report; otherwise it takes every event that is there, and says whether
      nothing is in flight any more. */
  lemma PollExactly(p: Panel, script: seq<Event>)
    requires Inv(p) && !p.closed
    ensures var (q, idle) := Poll(p, script);
            && (p.pendingBlit ==> q == p) && (idle <==> !p.pendingBlit && q.inflight == 0)
            && (!p.pendingBlit && AllThere(p, script) ==>
                  q.pipe.released == p.pipe.released + Releases(script) && |q.pipe.done| == |p.pipe.done| + |script| - Releases(script))
  {
    hide CountersFit, Owed, Taken;
    if AllThere(p, script) { CollectsAll(p, script); }
  }

  /** A claimed blit is reported exactly once its completion was collected, with that completion's result. */
  lemma BlitTakeExactly(p: Panel, script: seq<Event>)
    requires Inv(p) && !p.closed
    ensures var (q, answer) := BlitTake(p, script);
            && (answer.Some? <==> p.pendingBlit && !q.pendingBlit)
            && (answer.Some? ==> |q.pipe.done| == |p.pipe.done| + 1 && answer.value == q.pipe.done[|p.pipe.done|])
  {
    hide CountersFit, Owed;
    CollectKeeps(p, 0, script);
    if p.pendingBlit {
      CollectReports(p, script);
    }
  }

  /** A claim under way keeps everything. */
  lemma ClaimingKeeps(p: Panel)
    requires Inv(p)
    ensures Inv(p.(claiming := true))
  {
    hide SlotsFit, CountersFit, Owed;
  }

  function After(ops: seq<Op>): (p: Panel)
    ensures Inv(p)
  {
    if ops == [] then NewPanel() else Apply(After(ops[..|ops| - 1]), ops[|ops| - 1])
  }

  function UsedJobs(p: Panel): nat
    requires |p.jobs| == 2
  {
    (if p.jobs[0].used then 1 else 0) + if p.jobs[1].used then 1 else 0
  }

  /** The account of a display: the jobs in use are the frames in flight; below saturation every
      accepted frame is completed, failed or in flight; while the display exists every flush was
      answered exactly once, except at most one whose source is still to be released; and a closed
      display has consumed the completion of every accepted frame. */
  predicate Account(p: Panel)
  {
    && |p.jobs| == 2 && UsedJobs(p) == p.inflight <= 2 && p.pending == (p.inflight > 0)
    && (|p.pipe.cookies| <= U32_MAX ==> p.stats.accepted == p.stats.completed + p.stats.failed + p.inflight)
    && (p.present ==> p.flushes == p.readies + if p.sourcePending then 1 else 0)
    && (p.closed ==> |p.pipe.done| == p.pipe.released == |p.pipe.cookies|)
  }

  lemma InvAccount(p: Panel)
    requires Inv(p)
    ensures Account(p)
  {
    CountsTotal(p.pipe.done);
  }

  /** Over every run the account holds. */
  lemma WholeRun(ops: seq<Op>)
    ensures Account(After(ops))
  {
    hide After, Account;
    InvAccount(After(ops));
  }

  // ----- the display object -----

  class Display {
    const jobs: array<JobSlot>
    var inflight: nat
    var sourcePending: bool
    var pending: bool
    var closing: bool
    var claiming: bool
    var blit: bool
    var pendingBlit: bool
    var present: bool
    var closed: bool
    var result: Outcome
    var stats: Stats
    var pipe: Pipe
    ghost var flushes: nat
    ghost var readies: nat

    ghost predicate Valid()
      reads this
    {
      jobs.Length == 2
    }

    ghost function State(): Panel
      reads this, jobs
    {
      Panel(jobs[..], inflight, sourcePending, pending, closing, claiming, blit, pendingBlit, present, closed, result, stats,
            pipe, flushes, readies)
    }

    constructor ()
      ensures Valid() && fresh(jobs) && State() == NewPanel()
    {
      jobs := new JobSlot[2](i => JobSlot(false, false));
      inflight, sourcePending, pending, closing, claiming, blit, pendingBlit := 0, false, false, false, false, false, false;
      present, closed, result, stats := true, false, Ok, Stats(0, 0, 0, 0, Ok);
      pipe, flushes, readies := Pipe([], 0, [], false), 0, 0;
      new;
      assert jobs[..] == [JobSlot(false, false), JobSlot(false, false)];
    }

    method RecordCompletion()
      requires Valid()
      modifies this`stats
      ensures stats == Recorded(old(stats), result)
    {
      stats := stats.(last := result);
      if result == Ok {
        stats := stats.(completed := Increment(stats.completed));
      } else {
        stats := stats.(failed := Increment(stats.failed));
      }
    }

    /** One event of the polling loop. */
    method TakeEvent(e: Event)
      requires Valid() && Possible(State(), e)
      modifies this, jobs
      ensures Valid() && State() == Taken(old(State()), e)
    {
      match e
      case ReleaseNext => TakeRelease();
      case CompleteNext(r) => TakeCompletion(r);
    }

    method TakeRelease()
      requires Valid() && Possible(State(), ReleaseNext)
      modifies this
      ensures Valid() && State() == Taken(old(State()), ReleaseNext)
    {
      var job := jobs[pipe.cookies[pipe.released]];
      pipe := pipe.(released := pipe.released + 1);
      if !job.blit {
        sourcePending := false;
        if present { readies := readies + 1; }
      }
    }

    method TakeCompletion(r: Outcome)
      requires Valid() && Possible(State(), CompleteNext(r))
      modifies this, jobs
      ensures Valid() && State() == Taken(old(State()), CompleteNext(r))
    {
      var i := pipe.cookies[|pipe.done|];
      pipe := pipe.(done := pipe.done + [r]);
      result := r;
      RecordCompletion();
      if jobs[i].blit { pendingBlit := false; }
      jobs[i] := jobs[i].(used := false);
      inflight := inflight - 1;
    }

    method CollectEvents(script: seq<Event>) returns (idle: bool)
      requires Valid()
      modifies this, jobs
      ensures Valid() && (State(), idle) == Collect(old(State()), script)
    {
      if !pending { return true; }
      var i := 0;
      while i < |script| && Deliverable(pipe, script[i], 2, inflight)
        invariant Valid() && i <= |script|
        invariant TakenAll(State(), script[i..]) == TakenAll(old(State()), script)
      {
        ghost var rest := script[i..];
        assert rest[0] == script[i] && rest[1..] == script[i + 1..];
        TakeEvent(script[i]);
        i := i + 1;
      }
      assert i < |script| ==> script[i..][0] == script[i];
      pending := inflight != 0;
      idle := !pending;
    }

    method SubmitFrame(isBlit: bool, fault: bool) returns (r: Outcome)
      requires Valid()
      modifies this, jobs
      ensures Valid() && (State(), r) == Submit(old(State()), isBlit, fault)
    {
      if jobs[0].used && jobs[1].used { return Busy; }
      var i := if !jobs[0].used then 0 else 1;
      r := PipeAnswer(pipe, fault);
      if r != Ok { return; }
      pipe := pipe.(cookies := pipe.cookies + [i]);
      jobs[i] := JobSlot(true, isBlit);
      inflight := inflight + 1;
      if !isBlit { sourcePending := true; }
      pending := true;
      stats := stats.(accepted := Increment(stats.accepted));
    }

    method FlushReady()
      modifies this`readies
      ensures readies == old(readies) + 1
    {
      readies := readies + 1;
    }

    method CountRejected()
      modifies this`stats
      ensures stats == old(stats).(rejected := Increment(old(stats).rejected))
    {
      stats := stats.(rejected := Increment(stats.rejected));
    }

    method WaitForRoom(rounds: seq<seq<Event>>)
      requires Valid()
      modifies this, jobs
      ensures Valid() && State() == AwaitRoom(old(State()), rounds)
    {
      var i := 0;
      while inflight == 2 && i < |rounds|
        invariant Valid() && i <= |rounds|
        invariant AwaitRoom(State(), rounds[i..]) == AwaitRoom(old(State()), rounds)
      {
        assert rounds[i..][0] == rounds[i] && rounds[i..][1..] == rounds[i + 1..];
        var _ := CollectEvents(rounds[i]);
        i := i + 1;
      }
    }

    method FlushFrame(last: bool, ours: bool, first: seq<Event>, rounds: seq<seq<Event>>, fault: bool)
      requires Valid()
      modifies this, jobs
      ensures Valid() && State() == Flush(old(State()), last, ours, first, rounds, fault)
    {
      hide Collect, AwaitRoom, Offered;
      flushes := flushes + 1;
      ghost var q := State();
      assert q == old(State()).(flushes := old(flushes) + 1);
      if closing || claiming || !last {
        FlushReady();
        return;
      }
      if !ours {
        RejectFlush(Invalid);
        return;
      }
      var _ := CollectEvents(first);
      WaitForRoom(rounds);
      OfferFrame(fault);
    }

    method OfferFrame(fault: bool)
      requires Valid()
      modifies this, jobs
      ensures Valid() && State() == Offered(old(State()), fault)
    {
      hide Submit;
      var r := SubmitFrame(false, fault);
      if r == Ok { result := r; } else { RejectFlush(r); }
    }

    /** A refused flush is counted and answered. */
    method RejectFlush(r: Outcome)
      requires Valid()
      modifies this
      ensures Valid() && State() == Ready(Rejected(old(State()).(result := r)))
    {
      CountRejected();
      result := r;
      FlushReady();
    }

    method WaitFlush(rounds: seq<seq<Event>>)
      requires Valid()
      modifies this, jobs
      ensures Valid() && State() == FlushAwaited(old(State()), rounds)
    {
      if pendingBlit { return; }
      var i := 0;
      while sourcePending && i < |rounds|
        invariant Valid() && i <= |rounds|
        invariant AwaitSource(State(), rounds[i..]) == AwaitSource(old(State()), rounds)
      {
        assert rounds[i..][0] == rounds[i] && rounds[i..][1..] == rounds[i + 1..];
        var _ := CollectEvents(rounds[i]);
        i := i + 1;
      }
    }

    method PollEvents(script: seq<Event>) returns (idle: bool)
      requires Valid()
      modifies this, jobs
      ensures Valid() && (State(), idle) == Poll(old(State()), script)
    {
      if pendingBlit { return false; }
      idle := CollectEvents(script);
    }

    method ClaimBlit(script: seq<Event>) returns (r: Outcome)
      requires Valid()
      modifies this, jobs
      ensures Valid() && (State(), r) == Claim(old(State()), script)
    {
      hide Collect;
      if closing || !present { return Invalid; }
      if blit { return Ok; }
      claiming := true;
      assert State() == old(State()).(claiming := true);
      var idle := CollectEvents(script);
      ghost var q := State();
      if !idle { return Busy; }
      if result == Fault || result == Busy { return result; }
      blit := true;
      assert State() == q.(blit := true);
      r := Ok;
    }

    method BlitFrame(fault: bool) returns (r: Outcome)
      requires Valid()
      modifies this, jobs
      ensures Valid() && (State(), r) == Blit(old(State()), fault)
    {
      hide Submit;
      if !blit || closing {
        CountRejected();
        return Invalid;
      }
      if pending {
        CountRejected();
        return Busy;
      }
      r := SubmitFrame(true, fault);
      result := r;
      if result == Ok { pendingBlit := true; } else { CountRejected(); }
    }

    method TakeBlit(script: seq<Event>) returns (r: Option<Outcome>)
      requires Valid()
      modifies this, jobs
      ensures Valid() && (State(), r) == BlitTake(old(State()), script)
    {
      if !pendingBlit { return None; }
      var idle := CollectEvents(script);
      r := if idle then Some(result) else None;
    }

    method DeleteDisplay()
      requires Valid()
      modifies this
      ensures Valid() && State() == Deleted(old(State()))
    {
      present, closing := false, true;
      pipe := pipe.(stopped := true);
    }

    method CloseDisplay(script: seq<Event>, exited: bool) returns (ok: bool)
      requires Valid()
      modifies this, jobs
      ensures Valid() && (State(), ok) == Close(old(State()), script, exited)
    {
      hide Collect;
      if !closing {
        closing := true;
        pipe := pipe.(stopped := true);
      }
      var idle := CollectEvents(script);
      if !idle || !exited { return false; }
      present, closed := false, true;
      ok := true;
    }
  }
}
