/** The queue the display works with is the pipeline as its producer sees it. */
module SpiDisplayPipe {
  import opened Prelude
  import opened SpiTransfer
  import opened SpiPipeline
  import opened SpiPipelineRun
  import SpiDisplay

  function CookiesOf(jobs: seq<Admitted>): (r: seq<nat>)
    ensures |r| == |jobs| && forall k :: 0 <= k < |r| ==> r[k] == jobs[k].job.cookie
  {
    seq(|jobs|, k requires 0 <= k < |jobs| => jobs[k].job.cookie)
  }

  function ResultsOf(events: seq<Event>): (r: seq<Outcome>)
    ensures |r| == |events| && forall k :: 0 <= k < |r| ==> r[k] == events[k].result
  {
    seq(|events|, k requires 0 <= k < |events| => events[k].result)
  }

  function PipeOf(s: Pipeline): SpiDisplay.Pipe
  {
    SpiDisplay.Pipe(CookiesOf(s.accepted), |s.released|, ResultsOf(s.completed), s.stopping)
  }

  /** What one step of the pipeline may do to the queue, and what its producer is then told. */
  ghost predicate PipeStep(p: SpiDisplay.Pipe, q: SpiDisplay.Pipe, reply: Reply)
  {
    || q == p
    || q == p.(stopped := true)
    || (exists cookie :: q == p.(cookies := p.cookies + [cookie])
                         && !p.stopped && |p.cookies| < |p.done| + 2 && reply == Answered(Ok))
    || (&& p.released < |p.cookies| && q == p.(released := p.released + 1)
        && reply.Released? && reply.event.cookie == p.cookies[p.released])
    || (&& |p.done| < p.released <= |p.cookies| && reply.Completed? && q == p.(done := p.done + [reply.event.result])
        && reply.event.cookie == p.cookies[|p.done|])
  }

  /** Every step of either thread is a step of the queue: the worker never changes it, an event
      delivered is the next one due, and a submission is refused as BUSY only while two jobs are
      untaken, as INVALID only after stop and as FAULT only after a latched fault. */
  lemma EveryStepIsAPipeStep(s: Pipeline, base: nat, a: Action)
    requires Inv(s, base)
    ensures PipeStep(PipeOf(s), PipeOf(Next(s, a)), Next(s, a).reply)
    ensures a.Work? ==> PipeOf(Next(s, a)) == PipeOf(s)
    ensures a.Produce? && s.producer.AtSlot? && Next(s, a).reply == Answered(Busy) && Next(s, a).producer.Free? ==>
              |s.accepted| == |s.completed| + 2
    ensures a.Produce? && s.producer.AtSlot? && Next(s, a).producer.AtStore? ==> |s.accepted| < |s.completed| + 2
    ensures a.Submit? && s.producer.Free? && !s.closed ==>
              if s.stopping then Next(s, a) == s.(reply := Answered(Invalid)) else Next(s, a) == s.(producer := AtFault(a.job))
  {
    hide Inv, Shaped, Toil, Advance, PipeStep, Borrowed;
    InvShaped(s, base);
    if a.Produce? { ProducerPipeStep(s, base); }
    else { PipeUnchanged(s, a); }
  }

  lemma PipeUnchanged(s: Pipeline, a: Action)
    requires Shaped(s) && !a.Produce?
    ensures PipeStep(PipeOf(s), PipeOf(Next(s, a)), Next(s, a).reply)
    ensures a.Work? ==> PipeOf(Next(s, a)) == PipeOf(s)
  {
    hide Shaped, Toil, Borrowed;
  }

  lemma ProducerPipeStep(s: Pipeline, base: nat)
    requires Inv(s, base)
    ensures PipeStep(PipeOf(s), PipeOf(Advance(s)), Advance(s).reply)
    ensures s.producer.AtSlot? && Advance(s).reply == Answered(Busy) && Advance(s).producer.Free? ==>
              |s.accepted| == |s.completed| + 2
    ensures s.producer.AtSlot? && Advance(s).producer.AtStore? ==> |s.accepted| < |s.completed| + 2
  {
    hide Queue, Sized, Transport, Untouched, SourceOf, Loads, Stored, ReleaseTaken, CompletionTaken, PipeStep, Shaped;
    match s.producer
    case AtStore(_) => StorePipeStep(s);
    case AtRelease => ReleasePipeStep(s);
    case AtEmpty(_) => EmptyPipeStep(s);
    case _ => LoadPipeStep(s);
  }

  lemma LoadPipeStep(s: Pipeline)
    requires Queue(s) && Shaped(s) && !s.producer.AtStore? && !s.producer.AtRelease? && !s.producer.AtEmpty?
    ensures PipeStep(PipeOf(s), PipeOf(Loads(s)), Loads(s).reply)
    ensures s.producer.AtSlot? && Loads(s).reply == Answered(Busy) && Loads(s).producer.Free? ==> |s.accepted| == |s.completed| + 2
    ensures s.producer.AtSlot? && Loads(s).producer.AtStore? ==> |s.accepted| < |s.completed| + 2
  {
    hide Queue, Sized, Releasable;
    SlotsTell(s);
    CountsOrdered(s);
  }

  lemma StorePipeStep(s: Pipeline)
    requires Queue(s) && Shaped(s) && s.producer.AtStore?
    ensures PipeStep(PipeOf(s), PipeOf(Stored(s)), Stored(s).reply)
  {
    hide Queue, Sized, SourceOf;
    assert PipeOf(Stored(s)).cookies == PipeOf(s).cookies + [s.producer.job.cookie];
    StoreHasRoom(s);
  }

  lemma ReleasePipeStep(s: Pipeline)
    requires Queue(s) && Shaped(s) && s.producer.AtRelease?
    ensures PipeStep(PipeOf(s), PipeOf(ReleaseTaken(s)), ReleaseTaken(s).reply)
  {
    hide Queue, Sized;
    ReleaseJob(s);
  }

  lemma EmptyPipeStep(s: Pipeline)
    requires Queue(s) && Shaped(s) && s.producer.AtEmpty?
    ensures PipeStep(PipeOf(s), PipeOf(CompletionTaken(s)), CompletionTaken(s).reply)
  {
    hide Queue, Sized;
    OwnerNotDone(s);
    assert ResultsOf(CompletionTaken(s).completed) == ResultsOf(s.completed) + [s.producer.event.result];
  }

  lemma StoreHasRoom(s: Pipeline)
    requires Queue(s) && s.producer.AtStore?
    ensures !s.stopping && |s.accepted| < |s.completed| + 2
  {
    hide SlotFits, WorkerFits;
  }
}
