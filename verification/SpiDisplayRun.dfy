/** The display on the pipeline itself: every call into the pipeline is a run of single steps, with
    the worker's steps anywhere in between. */
module SpiDisplayRun {
  import opened Prelude
  import opened SpiTransfer
  import opened SpiPipeline
  import opened SpiPipelineRun
  import opened SpiPipelineLaws
  import opened SpiDisplayPipe
  import D = SpiDisplay

  /** What happens while a call of the producer is under way. */
  predicate Inner(steps: seq<Action>)
  {
    forall k :: 0 <= k < |steps| ==> steps[k].Work? || steps[k].Produce?
  }

  ghost function Through(s: Pipeline, base: nat, steps: seq<Action>): (u: Pipeline)
    requires Inv(s, base)
    ensures Inv(u, base)
  {
    if steps == [] then s
    else
      var before := Through(s, base, steps[..|steps| - 1]);
      StepKeeps(before, base, steps[|steps| - 1]);
      InvShaped(before, base);
      Next(before, steps[|steps| - 1])
  }

  /** A call, begun by one action and continued by the steps. */
  ghost function Called(s: Pipeline, base: nat, a: Action, steps: seq<Action>): (u: Pipeline)
    requires Inv(s, base)
    ensures Inv(u, base)
  {
    StepKeeps(s, base, a);
    InvShaped(s, base);
    Through(Next(s, a), base, steps)
  }

  // ----- taking an event -----

  predicate TakeDone(p: D.Pipe, q: D.Pipe, reply: Reply, gone: bool)
  {
    match reply
    case Nothing => q == p && (gone ==> |p.done| == |p.cookies|)
    case Released(e) => p.released < |p.cookies| && q == p.(released := p.released + 1) && e.cookie == p.cookies[p.released]
    case Completed(e) =>
      |p.done| < p.released <= |p.cookies| && q == p.(done := p.done + [e.result]) && e.cookie == p.cookies[|p.done|]
    case _ => false
  }

  /** Where a take begun on queue p stands; `gone` says that the worker had exited before. */
  predicate Taking(p: D.Pipe, s: Pipeline, gone: bool)
  {
    && (gone ==> s.exited) && !s.closed
    && match s.producer
       case Free => TakeDone(p, PipeOf(s), s.reply, gone)
       case AtRelease => PipeOf(s) == p
       case AtTake => PipeOf(s) == p && (gone ==> p.released == |p.cookies|)
       case AtEmpty(_) => PipeOf(s) == p
       case _ => false
  }

  lemma TakingStep(p: D.Pipe, s: Pipeline, base: nat, a: Action, gone: bool)
    requires Inv(s, base) && Taking(p, s, gone) && (a.Work? || a.Produce?)
    ensures Shaped(s) && Taking(p, Next(s, a), gone)
  {
    hide Inv, Shaped, Toil, Advance, TakeDone;
    InvShaped(s, base);
    if a.Work? {
      WorkerAside(s, a);
    } else {
      InvQueue(s, base);
      TakingAdvances(p, s, gone);
    }
  }

  /** The worker leaves the queue and the call alone. */
  lemma WorkerAside(s: Pipeline, a: Action)
    requires Shaped(s) && a.Work?
    ensures var u := Next(s, a);
            && PipeOf(u) == PipeOf(s) && u.producer == s.producer && u.reply == s.reply && u.closed == s.closed
            && (s.exited ==> u.exited) && u.stopping == s.stopping
  {
    hide Shaped, Toil;
  }

  lemma TakingAdvances(p: D.Pipe, s: Pipeline, gone: bool)
    requires Queue(s) && Shaped(s) && Taking(p, s, gone)
    ensures Taking(p, Advance(s), gone)
  {
    hide Queue, Shaped, Loads, ReleaseTaken, CompletionTaken, Advance, PipeOf, TakeDone;
    match s.producer
    case Free => AdvanceFree(s);
    case AtRelease => AdvanceAtRelease(s); TakingReleases(p, s, gone);
    case AtTake => TakingLooks(p, s, gone);
    case AtEmpty(_) => TakingCompletes(p, s, gone);
  }

  lemma TakingReleases(p: D.Pipe, s: Pipeline, gone: bool)
    requires Queue(s) && Shaped(s) && Taking(p, s, gone) && s.producer.AtRelease?
    ensures Taking(p, ReleaseTaken(s), gone)
  {
    hide Queue, Sized;
    ReleaseJob(s);
    CountsOrdered(s);
    if gone && |s.completed| < |s.accepted| { NextEvent(s); }
  }

  lemma TakingLooks(p: D.Pipe, s: Pipeline, gone: bool)
    requires Queue(s) && Shaped(s) && Taking(p, s, gone) && s.producer.AtTake?
    ensures Taking(p, Advance(s), gone)
  {
    hide Queue, Sized;
    CountsOrdered(s);
    if gone && |s.completed| < |s.accepted| { NextEvent(s); }
  }

  lemma TakingCompletes(p: D.Pipe, s: Pipeline, gone: bool)
    requires Queue(s) && Shaped(s) && Taking(p, s, gone) && s.producer.AtEmpty?
    ensures Taking(p, Advance(s), gone)
  {
    hide Queue, Sized, PipeStep;
    OwnerNotDone(s);
    CountsOrdered(s);
    CompletionJob(s);
    assert ResultsOf(CompletionTaken(s).completed) == ResultsOf(s.completed) + [s.producer.event.result];
  }

  lemma CompletionJob(s: Pipeline)
    requires Queue(s) && Shaped(s) && s.producer.AtEmpty?
    ensures |s.completed| < |s.released| <= |s.accepted| && s.producer.event.cookie == s.accepted[|s.completed|].job.cookie
  {
    hide WorkerFits;
  }

  lemma {:induction false} TakingThrough(p: D.Pipe, s: Pipeline, base: nat, steps: seq<Action>, gone: bool)
    requires Inv(s, base) && Taking(p, s, gone) && Inner(steps)
    ensures Taking(p, Through(s, base, steps), gone)
    decreases |steps|
  {
    hide Inv, Taking, Next, Shaped;
    if steps != [] {
      TakingThrough(p, s, base, steps[..|steps| - 1], gone);
      TakingStep(p, Through(s, base, steps[..|steps| - 1]), base, steps[|steps| - 1], gone);
    }
  }

  /** The pipeline between calls. */
  ghost predicate Between(s: Pipeline, base: nat)
  {
    Inv(s, base) && s.producer.Free? && !s.closed
  }

  /** One take, whatever the worker does meanwhile: nothing, the release that is due, or the
      completion that is due; after exit it is nothing only when everything was delivered. */
  lemma TakeCall(s: Pipeline, base: nat, steps: seq<Action>)
    requires Between(s, base) && Inner(steps)
    ensures Taking(PipeOf(s), Called(s, base, Take, steps), s.exited)
  {
    hide Inv, Shaped, Begin, Through, TakeDone;
    StepKeeps(s, base, Take);
    InvShaped(s, base);
    TakeBegins(s);
    TakingThrough(PipeOf(s), Next(s, Take), base, steps, s.exited);
  }

  lemma TakeBegins(s: Pipeline)
    requires Shaped(s) && s.producer.Free? && !s.closed
    ensures Taking(PipeOf(s), Next(s, Take), s.exited)
  {
    hide Shaped;
  }

  // ----- submitting -----

  /** Where a submission begun on queue p stands; `latched` says that a fault was latched before it. */
  predicate Submitting(p: D.Pipe, job: Job, s: Pipeline, latched: bool)
  {
    && !s.closed && (latched ==> s.fault)
    && match s.producer
       case Free =>
         s.reply.Answered?
         && (if s.reply.outcome == Ok then PipeOf(s) == p.(cookies := p.cookies + [job.cookie]) else PipeOf(s) == p)
         && s.reply.outcome == D.PipeAnswer(p, s.reply.outcome == Fault)
         && (s.reply.outcome == Fault ==> s.fault) && (latched ==> s.reply.outcome == D.PipeAnswer(p, true))
       case AtFault(j) => j == job && PipeOf(s) == p && !p.stopped
       case AtSlot(j) => j == job && PipeOf(s) == p && !p.stopped && !latched
       case AtStore(j) => j == job && PipeOf(s) == p && !p.stopped && !latched
       case _ => false
  }

  lemma SubmittingStep(p: D.Pipe, job: Job, s: Pipeline, base: nat, a: Action, latched: bool)
    requires Inv(s, base) && Submitting(p, job, s, latched) && (a.Work? || a.Produce?)
    ensures Shaped(s) && Submitting(p, job, Next(s, a), latched)
  {
    hide Inv, Shaped, Toil, Advance, D.PipeAnswer;
    InvShaped(s, base);
    if a.Work? {
      WorkerAside(s, a);
      FaultStays(s, a);
    } else {
      InvQueue(s, base);
      SubmittingAdvances(p, job, s, latched);
    }
  }

  /** A latched fault stays. */
  lemma FaultStays(s: Pipeline, a: Action)
    requires Shaped(s) && a.Work?
    ensures s.fault ==> Next(s, a).fault
  {
    hide Shaped, SubmitEx, SpiTransfer.Drain, SourceOf;
  }

  lemma SubmittingAdvances(p: D.Pipe, job: Job, s: Pipeline, latched: bool)
    requires Queue(s) && Shaped(s) && Submitting(p, job, s, latched)
    ensures Submitting(p, job, Advance(s), latched)
  {
    hide Queue, Sized, SourceOf;
    SlotsTell(s);
    CountsOrdered(s);
    if s.producer.AtStore? {
      StoreHasRoom(s);
      assert PipeOf(Stored(s)).cookies == PipeOf(s).cookies + [s.producer.job.cookie];
    }
  }

  lemma {:induction false} SubmittingThrough(p: D.Pipe, job: Job, s: Pipeline, base: nat, steps: seq<Action>, latched: bool)
    requires Inv(s, base) && Submitting(p, job, s, latched) && Inner(steps)
    ensures Submitting(p, job, Through(s, base, steps), latched)
    decreases |steps|
  {
    hide Inv, Submitting, Next, Shaped;
    if steps != [] {
      SubmittingThrough(p, job, s, base, steps[..|steps| - 1], latched);
      SubmittingStep(p, job, Through(s, base, steps[..|steps| - 1]), base, steps[|steps| - 1], latched);
    }
  }

  /** One submission: accepted as the newest job or refused with the queue unchanged, with the answer
      the display's queue gives; FAULT exactly after a latched fault, unless one is latched meanwhile. */
  lemma SubmitCall(s: Pipeline, base: nat, job: Job, steps: seq<Action>)
    requires Between(s, base) && Inner(steps)
    ensures Submitting(PipeOf(s), job, Called(s, base, Submit(job), steps), s.fault)
  {
    hide Inv, Shaped, Begin, Through;
    StepKeeps(s, base, Submit(job));
    InvShaped(s, base);
    SubmitBegins(s, job);
    SubmittingThrough(PipeOf(s), job, Next(s, Submit(job)), base, steps, s.fault);
  }

  lemma SubmitBegins(s: Pipeline, job: Job)
    requires Shaped(s) && s.producer.Free? && !s.closed
    ensures Submitting(PipeOf(s), job, Next(s, Submit(job)), s.fault)
  {
    hide Shaped;
  }

  /** The display's submission on the pipeline itself: with a free job it answers what the pipeline
      answered, and the queues stay alike. */
  lemma SubmitComposes(p: D.Panel, s: Pipeline, base: nat, frame: Frame, degrees: nat, blit: bool, steps: seq<Action>)
    requires Between(s, base) && Inner(steps) && p.pipe == PipeOf(s)
    requires |p.jobs| == 2 && !(p.jobs[0].used && p.jobs[1].used)
    requires Called(s, base, Submit(Job(frame, degrees, if !p.jobs[0].used then 0 else 1)), steps).producer.Free?
    ensures var u := Called(s, base, Submit(Job(frame, degrees, if !p.jobs[0].used then 0 else 1)), steps);
            && Between(u, base) && u.reply.Answered?
            && var (q, r) := D.Submit(p, blit, u.reply.outcome == Fault);
               r == u.reply.outcome && q.pipe == PipeOf(u)
  {
    hide Inv, Called, PipeOf, D.PipeAnswer;
    SubmitCall(s, base, Job(frame, degrees, if !p.jobs[0].used then 0 else 1), steps);
  }

  // ----- closing -----

  predicate Closing(p: D.Pipe, s: Pipeline, gone: bool)
  {
    && PipeOf(s) == p && (gone ==> s.exited)
    && match s.producer
       case Free => s.reply == Closed(s.closed) && (gone && |p.done| == |p.cookies| ==> s.closed)
       case AtExited => !s.closed
       case AtFirst => !s.closed
       case AtSecond => !s.closed
       case _ => false
  }

  lemma ClosingStep(p: D.Pipe, s: Pipeline, base: nat, a: Action, gone: bool)
    requires Inv(s, base) && Closing(p, s, gone) && (a.Work? || a.Produce?)
    ensures Shaped(s) && Closing(p, Next(s, a), gone)
  {
    hide Inv, Shaped, Toil, Advance;
    InvShaped(s, base);
    if a.Work? {
      WorkerAside(s, a);
    } else {
      InvQueue(s, base);
      ClosingAdvances(p, s, gone);
    }
  }

  lemma ClosingAdvances(p: D.Pipe, s: Pipeline, gone: bool)
    requires Queue(s) && Shaped(s) && Closing(p, s, gone)
    ensures Closing(p, Advance(s), gone)
  {
    hide Queue, Sized;
    SlotsTell(s);
  }

  lemma {:induction false} ClosingThrough(p: D.Pipe, s: Pipeline, base: nat, steps: seq<Action>, gone: bool)
    requires Inv(s, base) && Closing(p, s, gone) && Inner(steps)
    ensures Closing(p, Through(s, base, steps), gone)
    decreases |steps|
  {
    hide Inv, Closing, Next, Shaped;
    if steps != [] {
      ClosingThrough(p, s, base, steps[..|steps| - 1], gone);
      ClosingStep(p, Through(s, base, steps[..|steps| - 1]), base, steps[|steps| - 1], gone);
    }
  }

  lemma CloseCall(s: Pipeline, base: nat, steps: seq<Action>)
    requires Between(s, base) && Inner(steps)
    ensures Closing(PipeOf(s), Called(s, base, Close, steps), s.exited)
  {
    hide Inv, Shaped, Begin, Through;
    StepKeeps(s, base, Close);
    InvShaped(s, base);
    CloseBegins(s);
    ClosingThrough(PipeOf(s), Next(s, Close), base, steps, s.exited);
  }

  lemma CloseBegins(s: Pipeline)
    requires Shaped(s) && s.producer.Free? && !s.closed
    ensures Closing(PipeOf(s), Next(s, Close), s.exited)
  {
    hide Shaped;
  }

  // ----- the display's polling loop -----

  /** What a loop of takes did: the panel, the pipeline, whether it ended with nothing to take, and the
      events it found. */
  datatype Round = Round(panel: D.Panel, pipe: Pipeline, complete: bool, found: seq<D.Event>)

  /** The events of a reply, as the display's queue counts them. */
  function Found(reply: Reply): Option<D.Event>
  {
    match reply
    case Released(_) => Some(D.ReleaseNext)
    case Completed(e) => Some(D.CompleteNext(e.result))
    case _ => None
  }

  /** Take and handle events until there is none, each take interrupted as given. */
  ghost function TakeEach(p: D.Panel, s: Pipeline, base: nat, takes: seq<seq<Action>>): (r: Round)
    requires Inv(s, base)
    ensures Inv(r.pipe, base)
    decreases |takes|
  {
    if takes == [] then Round(p, s, false, [])
    else
      var u := Called(s, base, Take, takes[0]);
      if !u.producer.Free? then Round(p, u, false, [])
      else
        var e := Found(u.reply);
        if e.None? then Round(p, u, true, [])
        else if !D.Possible(p, e.value) then Round(p, u, false, [])
        else
          var r := TakeEach(D.Taken(p, e.value), u, base, takes[1..]);
          r.(found := [e.value] + r.found)
  }

  predicate Interleavings(takes: seq<seq<Action>>)
  {
    forall k :: 0 <= k < |takes| ==> Inner(takes[k])
  }

  /** An event taken from the pipeline is one the display's queue can deliver, and both queues move alike. */
  lemma EventFits(p: D.Panel, q: D.Pipe, reply: Reply, running: nat, gone: bool)
    requires D.InvInside(p, running) && TakeDone(p.pipe, q, reply, gone)
    ensures Found(reply).Some? ==> D.Possible(p, Found(reply).value) && D.Taken(p, Found(reply).value).pipe == q
    ensures Found(reply).None? ==> q == p.pipe && (gone ==> |p.pipe.done| == |p.pipe.cookies|)
  {
    hide D.InvInside, D.Taken, D.Possible;
    DueIsPossible(p, running);
    if Found(reply).Some? { TakenPipe(p, Found(reply).value); }
  }

  lemma TakenPipe(p: D.Panel, e: D.Event)
    requires D.Possible(p, e)
    ensures D.Taken(p, e).pipe == match e
                                  case ReleaseNext => p.pipe.(released := p.pipe.released + 1)
                                  case CompleteNext(r) => p.pipe.(done := p.pipe.done + [r])
  {
  }

  lemma DueIsPossible(p: D.Panel, running: nat)
    requires D.InvInside(p, running)
    ensures p.pipe.released < |p.pipe.cookies| ==> D.Possible(p, D.ReleaseNext)
    ensures |p.pipe.done| < p.pipe.released <= |p.pipe.cookies| ==> forall o :: D.Possible(p, D.CompleteNext(o))
  {
    hide D.CountersFit, D.BlitsFit, D.Owed;
  }

  /** The loop on the pipeline itself is the display's loop on its queue. */
  lemma {:induction false} LoopRefines(p: D.Panel, s: Pipeline, base: nat, takes: seq<seq<Action>>, running: nat)
    requires Between(s, base) && D.InvInside(p, running) && !p.closed && p.pipe == PipeOf(s) && Interleavings(takes)
    ensures var r := TakeEach(p, s, base, takes);
            && (r.pipe.producer.Free? ==> Between(r.pipe, base) && r.panel.pipe == PipeOf(r.pipe))
            && (s.exited ==> r.pipe.exited)
            && r.panel == D.TakenAll(p, r.found)
            && (r.complete ==> r.pipe.producer.Free? && (s.exited ==> r.panel.inflight == 0))
    decreases |takes|
  {
    hide Inv, Called, Taking, TakeDone, PipeOf, D.InvInside, D.Taken, D.Possible;
    if takes != [] {
      var u := Called(s, base, Take, takes[0]);
      TakeCall(s, base, takes[0]);
      TakingTells(PipeOf(s), u, s.exited);
      if u.producer.Free? {
        EventFits(p, PipeOf(u), u.reply, running, s.exited);
        var e := Found(u.reply);
        if e.None? {
          if s.exited { NothingLeft(p, running); }
        } else {
          D.TakenKeeps(p, running, e.value);
          StillOpen(p, D.Taken(p, e.value));
          LoopRefines(D.Taken(p, e.value), u, base, takes[1..], running);
        }
      }
    }
  }

  lemma TakingTells(p: D.Pipe, u: Pipeline, gone: bool)
    requires Taking(p, u, gone)
    ensures !u.closed && (gone ==> u.exited) && (u.producer.Free? ==> TakeDone(p, PipeOf(u), u.reply, gone))
  {
  }

  lemma StillOpen(p: D.Panel, q: D.Panel)
    requires D.SameOwner(p, q)
    ensures q.closed == p.closed
  {
  }

  lemma NothingLeft(p: D.Panel, running: nat)
    requires D.InvInside(p, running) && |p.pipe.done| == |p.pipe.cookies|
    ensures p.inflight == 0
  {
  }

  // ----- close -----

  /** The display's close on the pipeline: stop unless stopped, collect, and close the pipeline. */
  ghost function CloseOn(p: D.Panel, s: Pipeline, base: nat, takes: seq<seq<Action>>, last: seq<Action>): (r: (Round, Pipeline))
    requires Inv(s, base)
    ensures Inv(r.1, base)
  {
    StepKeeps(s, base, Stop);
    InvShaped(s, base);
    var p0, s0 := if p.closing then p else D.Stop(p), if p.closing then s else Next(s, Stop);
    var r := if p0.pending then TakeEach(p0, s0, base, takes) else Round(p0, s0, true, []);
    (r, if r.panel.inflight == 0 then Called(r.pipe, base, Close, last) else r.pipe)
  }

  lemma StopStep(s: Pipeline, base: nat)
    requires Between(s, base)
    ensures Shaped(s) && Between(Next(s, Stop), base) && PipeOf(Next(s, Stop)) == PipeOf(s).(stopped := true)
    ensures Next(s, Stop).exited == s.exited
  {
    hide Inv, Shaped;
    StepKeeps(s, base, Stop);
    InvShaped(s, base);
  }

  /** Closing the display closes the pipeline under it: it succeeds exactly when all events were
      collected and the pipeline then closed, always once the worker has exited; and then nothing is
      in flight, every event of every accepted frame was delivered, no slot owns the transport, and
      while the LVGL display exists every flush was answered exactly once. */
  lemma CloseComposes(p: D.Panel, s: Pipeline, base: nat, takes: seq<seq<Action>>, last: seq<Action>)
    requires Between(s, base) && D.Inv(p) && !p.closed && p.pipe == PipeOf(s) && Interleavings(takes) && Inner(last)
    requires var (r, u) := CloseOn(p, s, base, takes, last); r.complete && u.producer.Free?
    ensures var (r, u) := CloseOn(p, s, base, takes, last);
            var (q, ok) := D.Close(p, r.found, u.closed);
            && D.Inv(q) && q.closed == ok && (ok <==> u.closed) && q.pipe == PipeOf(u)
            && (s.exited ==> ok)
            && (ok ==> q.inflight == 0 && Settled(u) && |u.completed| == |u.released| == |u.accepted|)
            && (ok && p.present ==> q.flushes == q.readies)
  {
    hide Inv, Shaped, Next, Called, TakeEach, D.InvDuring, D.Collect, Settled, PipeOf;
    StopStep(s, base);
    D.StopKeeps(p);
    var (r, u) := CloseOn(p, s, base, takes, last);
    var p0, s0 := if p.closing then p else D.Stop(p), if p.closing then s else Next(s, Stop);
    D.CollectIs(p0, r.found);
    D.Inside(p0, 0);
    if p0.pending { LoopRefines(p0, s0, base, takes, 0); }
    D.CloseKeeps(p, r.found, u.closed);
    D.CollectKeeps(p0, 0, r.found);
    if r.panel.inflight == 0 {
      CloseCall(r.pipe, base, last);
      ClosedIsSettled(r.pipe, u, base);
      D.AllAnswered(D.Collect(p0, r.found).0);
    }
  }

  lemma ClosedIsSettled(s: Pipeline, u: Pipeline, base: nat)
    requires Inv(u, base) && Closing(PipeOf(s), u, s.exited) && u.producer.Free?
    ensures PipeOf(u) == PipeOf(s)
    ensures u.closed ==> Settled(u) && |u.completed| == |u.released| == |u.accepted|
    ensures s.exited && |PipeOf(s).done| == |PipeOf(s).cookies| ==> u.closed
  {
    hide Shaped, Untouched, Transport, Cookies, Settled;
    InvShaped(u, base);
    GoneIsSettled(u);
    CountsOrdered(u);
    ClosedExits(u);
    assert |CookiesOf(s.accepted)| == |s.accepted|;
  }

  lemma ClosedExits(u: Pipeline)
    requires Queue(u)
    ensures u.closed ==> u.exited && |u.completed| == |u.accepted|
  {
    hide SlotFits, WorkerFits, ProducerFits, Counts;
  }
}
