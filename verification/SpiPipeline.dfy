/** The two-slot display pipeline: one UI producer, one worker, no lock.

    Every atomic load or store of the two threads is one step here, so a run is
    any interleaving of the steps of both, with any answers from the transport
    and any writes by the application into memory it still owns. */
module SpiPipeline {
  import opened Prelude
  import opened SpiFrame
  import opened SpiTransfer

  datatype Phase = Empty | Queued | Running | Submitted | Done

  /** A borrowed frame: which memory it lies in, and its layout. */
  datatype Frame = Frame(memory: nat, stride: nat, width: u32, height: u32)
  datatype Job = Job(frame: Frame, degrees: nat, cookie: nat)
  datatype Slot = Slot(phase: Phase, released: bool, job: Job, submitted: Outcome, completed: Outcome)
  datatype Event = Event(cookie: nat, result: Outcome)

  /** An accepted job and the image it showed when it was accepted. */
  datatype Admitted = Admitted(job: Job, image: Source)

  datatype Stage = Mark | Conversion | Settle(previous: bool) | Judge | Abandon | Publish

  /** Where the worker is. `tries` counts the iterations of the current loop over the slots, and
      `last` says that this is the loop after stop was seen. */
  datatype Worker =
    | Asleep
    | Looking(tries: nat, ran: bool, woke: bool, last: bool)
    | Working(stage: Stage, index: nat, tries: nat, woke: bool, last: bool)
    | Checking(ran: bool, woke: bool)
    | Emptying(last: bool)
    | Faulting(index: nat, last: bool)
    | Finishing(index: nat, result: Outcome, last: bool)
    | Leaving
    | Gone

  /** Where the producer is inside one of its calls. */
  datatype Producer =
    | Free
    | AtFault(job: Job)
    | AtSlot(job: Job)
    | AtStore(job: Job)
    | AtRelease
    | AtTake
    | AtEmpty(event: Event)
    | AtExited
    | AtFirst
    | AtSecond

  /** What the producer's latest call returned. */
  datatype Reply = NoReply | Answered(outcome: Outcome) | Nothing | Released(event: Event) | Completed(event: Event) | Closed(ok: bool)

  datatype Pipeline = Pipeline(
    slots: seq<Slot>, put: nat, release: nat, take: nat, run: nat, active: Option<nat>,
    stopping: bool, exited: bool, fault: bool, closed: bool,
    transfer: Transfer, memory: map<nat, seq<byte>>,
    worker: Worker, producer: Producer, reply: Reply,
    // The history: jobs accepted and picked, events delivered.
    accepted: seq<Admitted>, picked: nat, released: seq<Event>, completed: seq<Event>)

  datatype Action =
    | Submit(job: Job)
    | Take
    | Stop
    | Close
    | Scribble(at: nat, bytes: seq<byte>)
    | Produce
    | Work(woke: bool, answers: Answers)

  function SourceOf(memory: map<nat, seq<byte>>, f: Frame): Source
  {
    Source(if f.memory in memory then memory[f.memory] else [], f.stride, f.width, f.height)
  }

  function Created(transfer: Transfer, memory: map<nat, seq<byte>>): Pipeline
  {
    var blank := Slot(Empty, false, Job(Frame(0, 0, 0, 0), 0, 0), Ok, Ok);
    Pipeline([blank, blank], 0, 0, 0, 0, None, false, false, false, false, transfer, memory,
             Asleep, Free, NoReply, [], 0, [], [])
  }

  /** A step that leaves the transport alone and keeps a latched fault. */
  predicate Quiet(s: Pipeline, u: Pipeline)
  {
    u.transfer == s.transfer && (s.fault ==> u.fault)
  }

  // ----- the producer's steps -----

  /** Memory still borrowed by an accepted frame whose release was not delivered. */
  predicate Borrowed(s: Pipeline, at: nat)
  {
    exists k :: |s.released| <= k < |s.accepted| && s.accepted[k].job.frame.memory == at
  }

  function Begin(s: Pipeline, a: Action): (u: Pipeline)
    requires !a.Work? && !a.Produce?
    ensures Quiet(s, u)
  {
    if s.closed then s
    else
      match a
      case Submit(job) => if s.stopping then s.(reply := Answered(Invalid)) else s.(producer := AtFault(job))
      case Take => s.(producer := AtRelease)
      case Stop => s.(stopping := true)
      case Close => s.(producer := AtExited)
      case Scribble(at, bytes) => if Borrowed(s, at) then s else s.(memory := s.memory[at := bytes])
      case _ => s
  }

  function Return(s: Pipeline, reply: Reply): (u: Pipeline)
    ensures SharedSame(s, u)
  {
    s.(producer := Free, reply := reply)
  }

  function GoOn(s: Pipeline, at: Producer): (u: Pipeline)
    ensures SharedSame(s, u)
  {
    s.(producer := at)
  }

  function Stored(s: Pipeline): (u: Pipeline)
    requires Shaped(s) && s.producer.AtStore?
    ensures Quiet(s, u)
  {
    var job := s.producer.job;
    Return(s, Answered(Ok)).(slots := s.slots[s.put := s.slots[s.put].(phase := Queued, released := false, job := job)],
                             put := 1 - s.put, accepted := s.accepted + [Admitted(job, SourceOf(s.memory, job.frame))])
  }

  function ReleaseTaken(s: Pipeline): (u: Pipeline)
    requires Shaped(s) && s.producer.AtRelease?
    ensures Quiet(s, u)
  {
    var slot := s.slots[s.release];
    if (slot.phase == Submitted || slot.phase == Done) && !slot.released then
      var event := Event(slot.job.cookie, slot.submitted);
      Return(s, Released(event)).(slots := s.slots[s.release := slot.(released := true)], release := 1 - s.release,
                                  released := s.released + [event])
    else s.(producer := AtTake)
  }

  function CompletionTaken(s: Pipeline): (u: Pipeline)
    requires Shaped(s) && s.producer.AtEmpty?
    ensures Quiet(s, u)
  {
    var event := s.producer.event;
    Return(s, Completed(event)).(slots := s.slots[s.take := s.slots[s.take].(phase := Empty)], take := 1 - s.take,
                                 completed := s.completed + [event])
  }

  /** The steps that only load shared state. */
  function Loads(s: Pipeline): (u: Pipeline)
    requires Shaped(s) && !s.producer.AtStore? && !s.producer.AtRelease? && !s.producer.AtEmpty?
    ensures SharedSame(s, u)
  {
    match s.producer
    case AtFault(job) => if s.fault then Return(s, Answered(Fault)) else GoOn(s, AtSlot(job))
    case AtSlot(job) => if s.slots[s.put].phase != Empty then Return(s, Answered(Busy)) else GoOn(s, AtStore(job))
    case AtTake =>
      var slot := s.slots[s.take];
      if slot.phase != Done || !slot.released then Return(s, Nothing)
      else GoOn(s, AtEmpty(Event(slot.job.cookie, slot.completed)))
    case AtExited => if !s.exited then Return(s, Closed(false)) else GoOn(s, AtFirst)
    case AtFirst => if s.slots[0].phase != Empty then Return(s, Closed(false)) else GoOn(s, AtSecond)
    case AtSecond => if s.slots[1].phase != Empty then Return(s, Closed(false)) else Return(s, Closed(true)).(closed := true)
    case _ => s
  }

  function Advance(s: Pipeline): Pipeline
    requires Shaped(s)
  {
    match s.producer
    case AtStore(_) => Stored(s)
    case AtRelease => ReleaseTaken(s)
    case AtEmpty(_) => CompletionTaken(s)
    case _ => Loads(s)
  }

  /** A producer step that changes nothing the worker or the history sees. */
  predicate SharedSame(s: Pipeline, u: Pipeline)
  {
    && u.slots == s.slots && u.put == s.put && u.release == s.release && u.take == s.take && u.run == s.run
    && u.active == s.active && u.stopping == s.stopping && u.exited == s.exited && u.fault == s.fault
    && u.transfer == s.transfer && u.memory == s.memory && u.worker == s.worker
    && u.accepted == s.accepted && u.picked == s.picked && u.released == s.released && u.completed == s.completed
  }

  // ----- the worker's steps -----

  /** The worker leaves the producer's side of the state alone. */
  predicate ProducerSide(s: Pipeline, u: Pipeline)
  {
    && u.accepted == s.accepted && u.released == s.released && u.completed == s.completed && u.memory == s.memory
    && u.put == s.put && u.release == s.release && u.take == s.take
    && u.stopping == s.stopping && u.closed == s.closed && u.producer == s.producer && u.reply == s.reply
    && (s.exited ==> u.exited)
  }

  function Complete(s: Pipeline, index: nat, result: Outcome): Pipeline
    requires index < |s.slots|
  {
    s.(slots := s.slots[index := s.slots[index].(phase := Done, completed := result)])
  }

  // The stages of running the picked slot.

  function Marked(s: Pipeline): (u: Pipeline)
    requires Shaped(s) && s.worker.Working?
    ensures ProducerSide(s, u) && Quiet(s, u)
  {
    var i := s.worker.index;
    s.(slots := s.slots[i := s.slots[i].(phase := Running)], worker := s.worker.(stage := Conversion))
  }

  /** The session's submission, skipped once the pipeline is faulted. */
  function Handover(s: Pipeline, a: Answers): (Transfer, Outcome, bool)
    requires Shaped(s) && s.worker.Working?
  {
    var job := s.slots[s.worker.index].job;
    if s.fault then (s.transfer, Fault, false)
    else SubmitEx(s.transfer, SourceOf(s.memory, job.frame), job.degrees, s.picked - 1, a)
  }

  function Converting(s: Pipeline, a: Answers): (u: Pipeline)
    requires Shaped(s) && s.worker.Working?
    ensures ProducerSide(s, u)
  {
    var i := s.worker.index;
    var (t, r, previous) := Handover(s, a);
    s.(transfer := t, slots := s.slots[i := s.slots[i].(submitted := r)], worker := s.worker.(stage := Settle(previous)))
  }

  function Settling(s: Pipeline, previous: bool): (u: Pipeline)
    requires Shaped(s) && s.worker.Working?
    ensures ProducerSide(s, u) && Quiet(s, u)
  {
    var next := s.(worker := s.worker.(stage := Judge));
    if s.active.Some? && previous then Complete(next, s.active.value, Ok).(active := None) else next
  }

  /** BUSY, FAULT, or OK without a receipt for the previous transfer, quarantines the pipeline. */
  function Judging(s: Pipeline): (u: Pipeline)
    requires Shaped(s) && s.worker.Working?
    ensures ProducerSide(s, u) && Quiet(s, u)
  {
    var i, r := s.worker.index, s.slots[s.worker.index].submitted;
    if r == Fault || r == Busy || (r == Ok && s.active.Some?)
    then s.(slots := s.slots[i := s.slots[i].(submitted := Fault)], fault := true, worker := s.worker.(stage := Abandon))
    else s.(worker := s.worker.(stage := Publish))
  }

  function Abandoning(s: Pipeline): (u: Pipeline)
    requires Shaped(s) && s.worker.Working?
    ensures ProducerSide(s, u) && Quiet(s, u)
  {
    var next := s.(worker := s.worker.(stage := Publish));
    if s.active.Some? then Complete(next, s.active.value, Fault).(active := None) else next
  }

  function Publishing(s: Pipeline): (u: Pipeline)
    requires Shaped(s) && s.worker.Working?
    ensures ProducerSide(s, u) && Quiet(s, u)
  {
    var i, w := s.worker.index, s.worker;
    var next := s.(worker := Looking(w.tries + 1, true, w.woke, w.last));
    if s.slots[i].submitted == Ok then next.(active := Some(i), slots := s.slots[i := s.slots[i].(phase := Submitted)])
    else Complete(next, i, s.slots[i].submitted)
  }

  function Process(s: Pipeline, a: Answers): (u: Pipeline)
    requires Shaped(s) && s.worker.Working?
    ensures ProducerSide(s, u)
  {
    match s.worker.stage
    case Mark => Marked(s)
    case Conversion => Converting(s, a)
    case Settle(previous) => Settling(s, previous)
    case Judge => Judging(s)
    case Abandon => Abandoning(s)
    case Publish => Publishing(s)
  }

  function AfterDrain(last: bool): Worker
  {
    if last then Leaving else Asleep
  }

  function Looked(s: Pipeline): (u: Pipeline)
    requires Shaped(s) && s.worker.Looking?
    ensures ProducerSide(s, u) && Quiet(s, u)
  {
    var w := s.worker;
    if w.tries == 2 || s.slots[s.run].phase != Queued then
      s.(worker := if w.last then Emptying(true) else Checking(w.ran, w.woke))
    else
      s.(run := 1 - s.run, picked := s.picked + 1, worker := Working(Mark, s.run, w.tries, w.woke, w.last))
  }

  /** Wait for the outstanding transfer, if a slot is active. */
  function Emptied(s: Pipeline, a: Answers): (u: Pipeline)
    requires Shaped(s) && s.worker.Emptying?
    ensures ProducerSide(s, u)
  {
    var last := s.worker.last;
    if s.active.None? then s.(worker := AfterDrain(last))
    else
      var index := s.active.value;
      var (t, r) := Drain(s.transfer, a.waited);
      s.(active := None, transfer := t, worker := if r == Ok then Finishing(index, Ok, last) else Faulting(index, last))
  }

  function Finished(s: Pipeline): (u: Pipeline)
    requires Shaped(s) && s.worker.Finishing?
    ensures ProducerSide(s, u) && Quiet(s, u)
  {
    Complete(s, s.worker.index, s.worker.result).(worker := AfterDrain(s.worker.last))
  }

  function Toil(s: Pipeline, woke: bool, a: Answers): (u: Pipeline)
    requires Shaped(s)
    ensures ProducerSide(s, u)
  {
    match s.worker
    case Asleep => s.(worker := Looking(0, false, woke, false))
    case Looking(_, _, _, _) => Looked(s)
    case Working(_, _, _, _, _) => Process(s, a)
    case Checking(ran, w) =>
      s.(worker := if s.stopping then Looking(0, ran, w, true) else if !ran && !w then Emptying(false) else Asleep)
    case Emptying(_) => Emptied(s, a)
    case Faulting(index, last) => s.(fault := true, worker := Finishing(index, Fault, last))
    case Finishing(_, _, _) => Finished(s)
    case Leaving => s.(exited := true, worker := Gone)
    case Gone => s
  }

  /** What every step needs to be well defined. */
  predicate Shaped(s: Pipeline)
  {
    && |s.slots| == 2 && s.put < 2 && s.release < 2 && s.take < 2 && s.run < 2
    && (s.active.Some? ==> s.active.value < 2)
    && (s.worker.Working? ==> s.worker.index < 2 && s.picked > 0)
    && (s.worker.Faulting? || s.worker.Finishing? ==> s.worker.index < 2)
    && Sized(s.transfer)
  }

  function Next(s: Pipeline, a: Action): Pipeline
    requires Shaped(s)
  {
    if a.Work? then Toil(s, a.woke, a.answers)
    else if a.Produce? then Advance(s)
    else if s.producer.Free? then Begin(s, a)
    else s
  }
}
