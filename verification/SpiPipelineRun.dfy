/** What every interleaving of the pipeline's two threads keeps. */
module SpiPipelineRun {
  import opened Prelude
  import opened SpiFrame
  import opened SpiTransfer
  import opened SpiPipeline

  // ----- the queue behind the slots -----

  // Each predicate below names only the fields it depends on: t, r, n and a count the jobs taken,
  // released, picked and accepted.

  /** The job that slot i holds or will hold: the oldest untaken job is in the slot to take from. */
  function JobIn(i: nat, take: nat, t: nat): nat
  {
    if i == take then t else t + 1
  }

  function JobAt(s: Pipeline, i: nat): nat
  {
    JobIn(i, s.take, |s.completed|)
  }

  /** The slot of job k, one of the two oldest untaken jobs or the first one after them. */
  function SlotOf(k: int, take: nat, t: nat): int
  {
    if k == t + 1 then 1 - take else take
  }

  /** Jobs the worker has finished running. */
  function Ran(n: nat, w: Worker): int
  {
    if w.Working? then n - 1 else n
  }

  predicate Marking(w: Worker)
  {
    w.Working? && w.stage.Mark?
  }

  /** The slot whose transfer is outstanding or being drained. */
  function Owner(w: Worker, active: Option<nat>): Option<nat>
  {
    if active.Some? then active else if w.Faulting? || w.Finishing? then Some(w.index) else None
  }

  function ExpectedPhase(i: nat, k: nat, n: nat, ran: int, a: nat, marking: bool, owner: Option<nat>): Phase
  {
    if k >= a then Empty
    else if k >= n then Queued
    else if k >= ran then (if marking then Queued else Running)
    else if owner == Some(i) then Submitted
    else Done
  }

  predicate Counts(t: nat, r: nat, n: nat, ran: int, a: nat, put: nat, release: nat, take: nat, run: nat)
  {
    && t <= r <= ran && n <= a <= t + 2 && take < 2
    && put == SlotOf(a, take, t) && release == SlotOf(r, take, t) && run == SlotOf(n, take, t)
  }

  predicate SlotFits(slot: Slot, i: nat, k: nat, r: nat, n: nat, ran: int, accepted: seq<Admitted>, marking: bool, owner: Option<nat>)
  {
    && slot.phase == ExpectedPhase(i, k, n, ran, |accepted|, marking, owner)
    && (k < |accepted| ==> slot.job == accepted[k].job && slot.released == (k < r))
  }

  /** A job that owns the transport has been run and is not the current one. */
  predicate OwnerFits(ran: int, take: nat, t: nat, owner: Option<nat>)
  {
    owner.Some? ==> owner.value < 2 && JobIn(owner.value, take, t) < ran
  }

  predicate ProducerFits(p: Producer, t: nat, r: nat, a: nat, slots: seq<Slot>, take: nat, stopping: bool, exited: bool)
    requires |slots| == 2 && take < 2
  {
    match p
    case Free => true
    case AtFault(_) => !stopping
    case AtSlot(_) => !stopping
    case AtStore(_) => !stopping && a < t + 2
    case AtRelease => true
    case AtTake => true
    case AtEmpty(event) =>
      t < r && slots[take].phase == Done && event == Event(slots[take].job.cookie, slots[take].completed)
    case AtExited => true
    case AtFirst => exited
    case AtSecond => exited && slots[0].phase == Empty
  }

  /** Once stop was seen the last loop picks up whatever was accepted. */
  predicate WorkerFits(w: Worker, n: nat, a: nat, active: Option<nat>, stopping: bool, slots: seq<Slot>)
    requires |slots| == 2
  {
    match w
    case Asleep => true
    case Looking(tries, _, _, last) => tries <= 2 && (last ==> stopping && a - n <= 2 - tries)
    case Working(stage, index, tries, _, last) =>
      && n > 0 && index < 2 && tries < 2 && (last ==> stopping && a - n <= 1 - tries)
      && (stage.Publish? && slots[index].submitted == Ok ==> active.None?)
    case Checking(_, _) => true
    case Emptying(last) => last ==> stopping && n == a
    case Faulting(_, last) => active.None? && (last ==> stopping && n == a)
    case Finishing(_, _, last) => active.None? && (last ==> stopping && n == a)
    case Leaving => stopping && n == a && active.None?
    case Gone => stopping && n == a && active.None?
  }

  predicate Queue(s: Pipeline)
  {
    var t, r, a, ran, owner := |s.completed|, |s.released|, |s.accepted|, Ran(s.picked, s.worker), Owner(s.worker, s.active);
    && |s.slots| == 2
    && Counts(t, r, s.picked, ran, a, s.put, s.release, s.take, s.run)
    && (s.worker.Working? ==> s.worker.index == SlotOf(ran, s.take, t))
    && OwnerFits(ran, s.take, t, owner)
    && SlotFits(s.slots[0], 0, JobAt(s, 0), r, s.picked, ran, s.accepted, Marking(s.worker), owner)
    && SlotFits(s.slots[1], 1, JobAt(s, 1), r, s.picked, ran, s.accepted, Marking(s.worker), owner)
    && ProducerFits(s.producer, t, r, a, s.slots, s.take, s.stopping, s.exited)
    && WorkerFits(s.worker, s.picked, a, s.active, s.stopping, s.slots)
    && s.exited == s.worker.Gone? && (s.closed ==> s.exited && s.producer.Free? && a == t)
  }

  // ----- the transport -----

  /** The transfer outstanding is the one started for job k. */
  ghost predicate Tied(x: Transfer, jobs: seq<Admitted>, k: int)
  {
    Sized(x) && x.pending && 0 <= k < |jobs| && OwnStart(x, jobs[k].image, jobs[k].job.degrees, k)
  }

  /** An active slot and an outstanding transfer come together; k is the job of the active slot. */
  ghost predicate ActiveTied(x: Transfer, jobs: seq<Admitted>, active: bool, k: int)
  {
    active == x.pending && (active ==> Tied(x, jobs, k))
  }

  /** While a job is run; r is what its submission answered, k the job of the active slot. */
  ghost predicate StageFits(x: Transfer, base: nat, jobs: seq<Admitted>, fault: bool, active: bool, k: int, n: nat, stage: Stage, r: Outcome)
  {
    match stage
    case Mark => if fault then !active else ActiveTied(x, jobs, active, k)
    case Conversion => if fault then !active else ActiveTied(x, jobs, active, k)
    case Settle(previous) =>
      && (previous ==> active && Confirmed(x, base, jobs, k))
      && (if fault then !active && r == Fault
          else if r == Ok then previous == active && Tied(x, jobs, n - 1)
          else if r == Fault then true
          else if previous then !x.pending
          else ActiveTied(x, jobs, active, k))
    case Judge =>
      if fault then !active && r == Fault
      else if r == Ok then !active && Tied(x, jobs, n - 1)
      else if r == Fault then true
      else ActiveTied(x, jobs, active, k)
    case Abandon => fault && r == Fault
    case Publish =>
      if fault then !active && r == Fault
      else if r == Ok then !active && Tied(x, jobs, n - 1)
      else r == Invalid && ActiveTied(x, jobs, active, k)
  }

  /** k is the job of the slot that owns the transport, if one does. */
  ghost predicate TransferFits(x: Transfer, base: nat, jobs: seq<Admitted>, fault: bool, active: bool, k: int, n: nat, w: Worker, r: Outcome)
  {
    match w
    case Working(stage, _, _, _, _) => StageFits(x, base, jobs, fault, active, k, n, stage, r)
    case Faulting(_, _) => !active
    case Finishing(_, result, _) =>
      && !active && (result == Ok || result == Fault) && (result == Fault ==> fault)
      && (result == Ok ==> !fault && !x.pending && Confirmed(x, base, jobs, k))
    case _ => if fault then !active else ActiveTied(x, jobs, active, k)
  }

  /** The transport took the frame of job k. */
  ghost predicate Handed(x: Transfer, k: int)
  {
    exists c :: c in x.log && c.Start? && c.tag == k && c.accepted
  }

  /** A start of job k, accepted, with the packed image of its source. */
  ghost predicate IsStartOf(c: Call, x: Transfer, k: int, a: Admitted)
  {
    && c.Start? && c.tag == k && c.accepted
    && (!x.transform ==>
          && PackAllowed(a.image, ImageBytes(x.width, x.height), x.width, x.height, a.job.degrees)
          && c.image == Packed(a.image, x.width, x.height, a.job.degrees, x.swap))
  }

  /** The wait for job k's own start succeeded, since the pipeline exists. */
  ghost predicate Confirmed(x: Transfer, base: nat, jobs: seq<Admitted>, k: int)
  {
    0 <= k < |jobs| && exists j :: base <= j < |Verified(x.log)| && IsStartOf(Verified(x.log)[j], x, k, jobs[k])
  }

  ghost predicate SlotResult(slot: Slot, x: Transfer, base: nat, jobs: seq<Admitted>, k: int)
  {
    && (slot.phase == Done && slot.completed == Ok ==> Confirmed(x, base, jobs, k))
    && ((slot.phase == Submitted || slot.phase == Done) && slot.submitted == Ok ==> Handed(x, k))
  }

  /** Results are never better than what the transport verified. */
  ghost predicate EventResults(x: Transfer, base: nat, jobs: seq<Admitted>, released: seq<Event>, completed: seq<Event>)
  {
    && (forall k :: 0 <= k < |released| ==> released[k].result == Ok ==> Handed(x, k))
    && (forall k :: 0 <= k < |completed| ==> completed[k].result == Ok ==> Confirmed(x, base, jobs, k))
  }

  ghost predicate Transport(s: Pipeline, base: nat)
  {
    var x := s.transfer;
    && |s.slots| == 2 && Sound(x) && !x.busy && base <= |Verified(x.log)|
    && TransferFits(x, base, s.accepted, s.fault, s.active.Some?, OwnerJob(s), s.picked, s.worker, Answer(s))
    && SlotResult(s.slots[0], x, base, s.accepted, JobAt(s, 0)) && SlotResult(s.slots[1], x, base, s.accepted, JobAt(s, 1))
    && EventResults(x, base, s.accepted, s.released, s.completed)
  }

  /** The job of the slot that owns the transport. */
  function OwnerJob(s: Pipeline): int
  {
    var owner := Owner(s.worker, s.active);
    if owner.Some? then JobAt(s, owner.value) else -1
  }

  /** What the submission being processed answered. */
  function Answer(s: Pipeline): Outcome
  {
    if s.worker.Working? && s.worker.index < |s.slots| then s.slots[s.worker.index].submitted else Ok
  }

  predicate Cookies(jobs: seq<Admitted>, released: seq<Event>, completed: seq<Event>)
  {
    && |completed| <= |released| <= |jobs|
    && (forall k :: 0 <= k < |released| ==> released[k].cookie == jobs[k].job.cookie)
    && (forall k :: 0 <= k < |completed| ==> completed[k].cookie == jobs[k].job.cookie)
  }

  /** Borrowed sources are as they were when accepted. */
  predicate Untouched(memory: map<nat, seq<byte>>, jobs: seq<Admitted>, r: nat)
  {
    forall k :: r <= k < |jobs| ==> SourceOf(memory, jobs[k].job.frame) == jobs[k].image
  }

  /** The invariant of the whole system; base counts the transfers verified before the pipeline existed. */
  ghost predicate Inv(s: Pipeline, base: nat)
  {
    && Shaped(s) && Queue(s) && Cookies(s.accepted, s.released, s.completed)
    && Untouched(s.memory, s.accepted, |s.released|) && Transport(s, base)
  }

  // ----- the queue -----

  lemma BeginKeepsQueue(s: Pipeline, a: Action)
    requires Queue(s) && s.producer.Free? && !a.Work? && !a.Produce?
    ensures Queue(Begin(s, a))
  {
    hide Counts, OwnerFits, SlotFits, Borrowed, JobIn;
  }

  lemma AdvanceKeepsQueue(s: Pipeline)
    requires Queue(s) && Shaped(s)
    ensures Queue(Advance(s))
  {
    hide Queue, Shaped, Loads, Stored, ReleaseTaken, CompletionTaken;
    match s.producer
    case AtStore(_) => StoreKeepsQueue(s);
    case AtRelease => ReleaseKeepsQueue(s);
    case AtEmpty(_) => EmptyKeepsQueue(s);
    case _ => ReadKeepsQueue(s);
  }

  /** What the producer's loads of a slot tell about the queue. */
  lemma SlotsTell(s: Pipeline)
    requires Queue(s) && Shaped(s)
    ensures s.slots[s.put].phase == Empty <==> |s.accepted| < |s.completed| + 2
    ensures |s.completed| < |s.accepted| ==> s.slots[s.take].released == (|s.completed| < |s.released|)
    ensures s.slots[s.take].phase == Empty <==> |s.accepted| == |s.completed|
    ensures s.slots[s.take].phase == Done ==> |s.completed| < |s.accepted|
    ensures s.slots[0].phase == s.slots[1].phase == Empty <==> |s.accepted| == |s.completed|
    ensures var slot := s.slots[s.release];
            (slot.phase == Submitted || slot.phase == Done) && !slot.released ==> Releasable(s)
  {
    hide WorkerFits, ProducerFits;
  }

  /** The next job to release has been run. */
  predicate Releasable(s: Pipeline)
    requires s.release < |s.slots|
  {
    && |s.released| < Ran(s.picked, s.worker) && |s.released| < |s.completed| + 2
    && |s.released| < |s.accepted| && s.slots[s.release].job == s.accepted[|s.released|].job
    && s.release == SlotOf(|s.released|, s.take, |s.completed|)
  }

  lemma ReadKeepsQueue(s: Pipeline)
    requires Queue(s) && Shaped(s) && !s.producer.AtStore? && !s.producer.AtRelease? && !s.producer.AtEmpty?
    ensures Queue(Loads(s))
  {
    hide Counts, OwnerFits, SlotFits, WorkerFits, SourceOf, Releasable, JobIn, Shaped;
    SlotsTell(s);
    match s.producer
    case Free =>
    case AtFault(_) =>
    case AtSlot(_) =>
    case AtRelease =>
    case AtTake =>
    case AtExited =>
    case AtFirst =>
    case AtSecond =>
  }

  lemma StoreKeepsQueue(s: Pipeline)
    requires Queue(s) && Shaped(s) && s.producer.AtStore?
    ensures Queue(Stored(s))
  {
    hide SourceOf;
  }

  /** A release changes the flag of the released job's slot only. */
  lemma SlotsAfterRelease(s: Pipeline, i: nat)
    requires Queue(s) && Shaped(s) && Releasable(s) && i < 2
    ensures var slot := if i == s.release then s.slots[i].(released := true) else s.slots[i];
            SlotFits(slot, i, JobAt(s, i), |s.released| + 1, s.picked, Ran(s.picked, s.worker), s.accepted, Marking(s.worker),
                     Owner(s.worker, s.active))
  {
    hide ProducerFits, WorkerFits, ExpectedPhase, OwnerFits;
  }

  lemma CountsReleased(t: nat, r: nat, n: nat, ran: int, a: nat, put: nat, release: nat, take: nat, run: nat)
    requires Counts(t, r, n, ran, a, put, release, take, run) && r < ran && r < t + 2
    ensures Counts(t, r + 1, n, ran, a, put, 1 - release, take, run)
  {
  }

  lemma ReleaseKeepsQueue(s: Pipeline)
    requires Queue(s) && Shaped(s) && s.producer.AtRelease?
    ensures Queue(ReleaseTaken(s))
  {
    hide OwnerFits, SlotFits, WorkerFits, Sized, Counts, SlotOf, JobIn;
    SlotsTell(s);
    var slot := s.slots[s.release];
    if (slot.phase == Submitted || slot.phase == Done) && !slot.released {
      SlotsAfterRelease(s, 0);
      SlotsAfterRelease(s, 1);
      WorkerUnaffected(s, s.release, slot.(released := true));
      CountsReleased(|s.completed|, |s.released|, s.picked, Ran(s.picked, s.worker), |s.accepted|, s.put, s.release, s.take, s.run);
    }
  }

  /** The worker relies only on what its own submission answered. */
  lemma WorkerUnaffected(s: Pipeline, i: nat, slot: Slot)
    requires |s.slots| == 2 && i < 2 && slot.submitted == s.slots[i].submitted
    ensures WorkerFits(s.worker, s.picked, |s.accepted|, s.active, s.stopping, s.slots[i := slot])
            == WorkerFits(s.worker, s.picked, |s.accepted|, s.active, s.stopping, s.slots)
  {
  }

  lemma EmptyKeepsQueue(s: Pipeline)
    requires Queue(s) && Shaped(s) && s.producer.AtEmpty?
    ensures Queue(CompletionTaken(s))
  {
    hide WorkerFits, Sized;
    WorkerUnaffected(s, s.take, CompletionTaken(s).slots[s.take]);
  }

  lemma ToilKeepsQueue(s: Pipeline, woke: bool, a: Answers)
    requires Queue(s) && Shaped(s)
    ensures Queue(Toil(s, woke, a))
  {
    match s.worker
    case Working(stage, _, _, _, _) =>
      match stage {
        case Mark => MarkKeepsQueue(s);
        case Conversion => ConvertKeepsQueue(s, a);
        case Settle(previous) => SettleKeepsQueue(s, previous);
        case Judge => JudgeKeepsQueue(s);
        case Abandon => AbandonKeepsQueue(s);
        case Publish => PublishKeepsQueue(s);
      }
    case Looking(_, _, _, _) => LookKeepsQueue(s);
    case Emptying(_) => EmptyingKeepsQueue(s, a);
    case Finishing(_, _, _) => FinishingKeepsQueue(s);
    case _ => IdleKeepsQueue(s, woke, a);
  }

  /** The producer relies only on slots the worker no longer writes. */
  lemma ProducerUnaffected(s: Pipeline, i: nat, slot: Slot)
    requires Queue(s) && Shaped(s) && i < 2 && s.slots[i].phase != Done && s.slots[i].phase != Empty
    ensures ProducerFits(s.producer, |s.completed|, |s.released|, |s.accepted|, s.slots[i := slot], s.take, s.stopping, s.exited)
  {
    hide SlotFits, WorkerFits, Counts, OwnerFits, Sized;
  }

  /** What the worker knows of the slot it is running and of the one it may complete. */
  lemma WorkingSlots(s: Pipeline)
    requires Queue(s) && Shaped(s) && s.worker.Working?
    ensures s.slots[s.worker.index].phase == if s.worker.stage.Mark? then Queued else Running
    ensures s.active.Some? ==> s.active.value != s.worker.index && s.slots[s.active.value].phase == Submitted
    ensures JobAt(s, s.worker.index) == s.picked - 1
  {
    hide ProducerFits;
  }

  lemma MarkKeepsQueue(s: Pipeline)
    requires Queue(s) && Shaped(s) && s.worker.Working? && s.worker.stage.Mark?
    ensures Queue(Marked(s))
  {
    hide Sized, ProducerFits;
    var u := Marked(s);
    WorkingSlots(s);
    ProducerUnaffected(s, s.worker.index, u.slots[s.worker.index]);
  }

  lemma ConvertKeepsQueue(s: Pipeline, a: Answers)
    requires Queue(s) && Shaped(s) && s.worker.Working? && s.worker.stage.Conversion?
    ensures Queue(Converting(s, a))
  {
    hide Handover, Sized, Counts, ExpectedPhase, JobIn, SlotOf, ProducerFits, OwnerFits;
    var u := Converting(s, a);
    WorkingSlots(s);
    ProducerUnaffected(s, s.worker.index, u.slots[s.worker.index]);
  }

  lemma SettleKeepsQueue(s: Pipeline, previous: bool)
    requires Queue(s) && Shaped(s) && s.worker.Working? && s.worker.stage == Settle(previous)
    ensures Queue(Settling(s, previous))
  {
    hide Sized, ProducerFits, Counts, SlotOf;
    var u := Settling(s, previous);
    WorkingSlots(s);
    if s.active.Some? { ProducerUnaffected(s, s.active.value, u.slots[s.active.value]); }
  }

  lemma JudgeKeepsQueue(s: Pipeline)
    requires Queue(s) && Shaped(s) && s.worker.Working? && s.worker.stage.Judge?
    ensures Queue(Judging(s))
  {
    hide Sized, Counts, ExpectedPhase, JobIn, SlotOf, ProducerFits, OwnerFits;
    var u := Judging(s);
    WorkingSlots(s);
    ProducerUnaffected(s, s.worker.index, u.slots[s.worker.index]);
  }

  lemma AbandonKeepsQueue(s: Pipeline)
    requires Queue(s) && Shaped(s) && s.worker.Working? && s.worker.stage.Abandon?
    ensures Queue(Abandoning(s))
  {
    hide Sized, ProducerFits, Counts, SlotOf;
    var u := Abandoning(s);
    WorkingSlots(s);
    if s.active.Some? { ProducerUnaffected(s, s.active.value, u.slots[s.active.value]); }
  }

  lemma CountsAdvance(t: nat, r: nat, n: nat, a: nat, put: nat, release: nat, take: nat, run: nat)
    requires n > 0 && Counts(t, r, n, n - 1, a, put, release, take, run)
    ensures Counts(t, r, n, n, a, put, release, take, run)
  {
  }

  /** A finished job changes what is expected of its own slot only. */
  lemma SlotsAfterRun(s: Pipeline, owner: Option<nat>, i: nat, slot: Slot)
    requires Queue(s) && Shaped(s) && s.worker.Working? && s.worker.stage.Publish? && i < 2
    requires owner == (if s.slots[s.worker.index].submitted == Ok then Some(s.worker.index) else s.active)
    requires slot == if i != s.worker.index then s.slots[i]
                     else s.slots[i].(phase := if owner == Some(i) then Submitted else Done, completed := slot.completed)
    ensures SlotFits(slot, i, JobAt(s, i), |s.released|, s.picked, s.picked, s.accepted, false, owner)
  {
    hide ProducerFits;
    WorkingSlots(s);
  }

  lemma PublishKeepsQueue(s: Pipeline)
    requires Queue(s) && Shaped(s) && s.worker.Working? && s.worker.stage.Publish?
    ensures Queue(Publishing(s))
  {
    hide Sized, ProducerFits, Counts, SlotOf, SlotFits;
    var u := Publishing(s);
    WorkingSlots(s);
    CountsAdvance(|s.completed|, |s.released|, s.picked, |s.accepted|, s.put, s.release, s.take, s.run);
    ProducerUnaffected(s, s.worker.index, u.slots[s.worker.index]);
    SlotsAfterRun(s, u.active, 0, u.slots[0]);
    SlotsAfterRun(s, u.active, 1, u.slots[1]);
  }

  /** What the worker's load of the next slot tells. */
  lemma NextSlotTells(s: Pipeline)
    requires Queue(s) && Shaped(s) && !s.worker.Working?
    ensures s.slots[s.run].phase == Queued <==> s.picked < |s.accepted|
    ensures |s.accepted| - s.picked <= 2
  {
    hide ProducerFits, WorkerFits;
  }

  lemma LookKeepsQueue(s: Pipeline)
    requires Queue(s) && Shaped(s) && s.worker.Looking?
    ensures Queue(Looked(s))
  {
    NextSlotTells(s);
    if s.worker.tries == 2 || s.slots[s.run].phase != Queued {
      LookAway(s);
    } else {
      Pick(s);
    }
  }

  lemma LookAway(s: Pipeline)
    requires Queue(s) && Shaped(s) && s.worker.Looking? && (s.worker.tries == 2 || s.slots[s.run].phase != Queued)
    ensures Queue(Looked(s))
  {
    hide Sized, Counts, SlotFits, JobIn, SlotOf, ProducerFits, OwnerFits, Shaped;
    NextSlotTells(s);
    CountsOrdered(s);
  }

  lemma CountsOrdered(s: Pipeline)
    requires Queue(s)
    ensures |s.completed| <= |s.released| <= Ran(s.picked, s.worker) && s.picked <= |s.accepted| <= |s.completed| + 2
  {
    hide ProducerFits, WorkerFits, SlotFits;
  }

  lemma Pick(s: Pipeline)
    requires Queue(s) && Shaped(s) && s.worker.Looking? && s.worker.tries != 2 && s.slots[s.run].phase == Queued
    ensures Queue(Looked(s))
  {
    hide Sized, ProducerFits;
    NextSlotTells(s);
  }

  lemma EmptyingKeepsQueue(s: Pipeline, a: Answers)
    requires Queue(s) && Shaped(s) && s.worker.Emptying?
    ensures Queue(Emptied(s, a))
  {
    hide Sized, SpiTransfer.Drain, Counts, SlotFits, JobIn, SlotOf, ProducerFits;
  }

  lemma FinishingKeepsQueue(s: Pipeline)
    requires Queue(s) && Shaped(s) && s.worker.Finishing?
    ensures Queue(Finished(s))
  {
    hide Sized;
  }

  lemma IdleKeepsQueue(s: Pipeline, woke: bool, a: Answers)
    requires Queue(s) && Shaped(s)
    requires !s.worker.Working? && !s.worker.Looking? && !s.worker.Emptying? && !s.worker.Finishing?
    ensures Queue(Toil(s, woke, a))
  {
    hide Sized, Process, Looked, Emptied, Finished, Counts, SlotFits, JobIn, SlotOf, Shaped;
    NextSlotTells(s);
  }

  // ----- the transport -----

  lemma ConfirmedGrows(x: Transfer, y: Transfer, base: nat, jobs: seq<Admitted>, more: seq<Admitted>, k: int)
    requires SameSetup(x, y.(started := x.started)) && Verified(x.log) <= Verified(y.log) && jobs <= more
    requires Confirmed(x, base, jobs, k)
    ensures Confirmed(y, base, more, k)
  {
    hide Verified, Packed, PackAllowed, ImageBytes;
    var j :| base <= j < |Verified(x.log)| && IsStartOf(Verified(x.log)[j], x, k, jobs[k]);
    assert IsStartOf(Verified(y.log)[j], y, k, more[k]);
  }

  lemma HandedGrows(x: Transfer, y: Transfer, k: int)
    requires x.log <= y.log && Handed(x, k)
    ensures Handed(y, k)
  {
    var c :| c in x.log && c.Start? && c.tag == k && c.accepted;
    assert c in y.log;
  }

  /** The wait that succeeds on a tied transfer confirms its job. */
  lemma WaitConfirms(x: Transfer, y: Transfer, base: nat, jobs: seq<Admitted>, k: int)
    requires Tied(x, jobs, k) && Receipt(x, y, true) && SameSetup(x, y.(started := x.started)) && base <= |Verified(x.log)|
    ensures Confirmed(y, base, jobs, k)
  {
    hide Packed, PackAllowed, ImageBytes, Sized, Verified, Outstanding;
    var j := |Verified(x.log)|;
    assert IsStartOf(Verified(y.log)[j], y, k, jobs[k]);
  }

  lemma TiedGrows(x: Transfer, jobs: seq<Admitted>, more: seq<Admitted>, k: int)
    requires jobs <= more
    ensures Tied(x, jobs, k) ==> Tied(x, more, k)
  {
    hide OwnStart, Sized;
  }

  lemma FitsGrows(x: Transfer, base: nat, jobs: seq<Admitted>, more: seq<Admitted>, fault: bool, active: bool, k: int, n: nat, w: Worker, r: Outcome)
    requires TransferFits(x, base, jobs, fault, active, k, n, w, r) && jobs <= more
    ensures TransferFits(x, base, more, fault, active, k, n, w, r)
  {
    hide Tied, Confirmed;
    TiedGrows(x, jobs, more, k);
    TiedGrows(x, jobs, more, n - 1);
    if Confirmed(x, base, jobs, k) { ConfirmedGrows(x, x, base, jobs, more, k); }
  }

  lemma ResultGrows(slot: Slot, x: Transfer, y: Transfer, base: nat, jobs: seq<Admitted>, more: seq<Admitted>, k: int)
    requires SameSetup(x, y.(started := x.started)) && Verified(x.log) <= Verified(y.log) && x.log <= y.log && jobs <= more
    requires SlotResult(slot, x, base, jobs, k)
    ensures SlotResult(slot, y, base, more, k)
  {
    hide Verified, SameSetup, Confirmed, Handed;
    if Confirmed(x, base, jobs, k) { ConfirmedGrows(x, y, base, jobs, more, k); }
    if Handed(x, k) { HandedGrows(x, y, k); }
  }

  lemma EventsGrow(x: Transfer, y: Transfer, base: nat, jobs: seq<Admitted>, more: seq<Admitted>, released: seq<Event>, completed: seq<Event>)
    requires SameSetup(x, y.(started := x.started)) && Verified(x.log) <= Verified(y.log) && x.log <= y.log && jobs <= more
    requires EventResults(x, base, jobs, released, completed)
    ensures EventResults(y, base, more, released, completed)
  {
    hide Verified, SameSetup, Confirmed, Handed;
    forall k | 0 <= k < |released| && released[k].result == Ok ensures Handed(y, k) { HandedGrows(x, y, k); }
    forall k | 0 <= k < |completed| && completed[k].result == Ok ensures Confirmed(y, base, more, k) {
      ConfirmedGrows(x, y, base, jobs, more, k);
    }
  }

  lemma StoreKeepsTransport(s: Pipeline, base: nat)
    requires Queue(s) && Shaped(s) && Transport(s, base) && s.producer.AtStore?
    ensures Transport(Stored(s), base)
  {
    hide Queue, Sound, Verified, SourceOf, TransferFits, EventResults, Confirmed, Handed;
    var u, x := Stored(s), s.transfer;
    FitsGrows(x, base, s.accepted, u.accepted, s.fault, s.active.Some?, OwnerJob(s), s.picked, s.worker, Answer(s));
    ResultGrows(s.slots[1 - s.put], x, x, base, s.accepted, u.accepted, JobAt(s, 1 - s.put));
    EventsGrow(x, x, base, s.accepted, u.accepted, s.released, s.completed);
  }

  lemma ReleaseKeepsTransport(s: Pipeline, base: nat)
    requires Queue(s) && Shaped(s) && Transport(s, base) && s.producer.AtRelease?
    ensures Transport(ReleaseTaken(s), base)
  {
    hide Queue, Sound, Verified, TransferFits, Confirmed, Handed;
    ReleaseJob(s);
  }

  lemma ReleaseJob(s: Pipeline)
    requires Queue(s) && Shaped(s)
    ensures var slot := s.slots[s.release];
            (slot.phase == Submitted || slot.phase == Done) && !slot.released ==>
              JobAt(s, s.release) == |s.released| < |s.accepted| && slot.job == s.accepted[|s.released|].job
  {
    hide ProducerFits, WorkerFits, SlotFits;
    SlotsTell(s);
  }

  lemma EmptyKeepsTransport(s: Pipeline, base: nat)
    requires Queue(s) && Shaped(s) && Transport(s, base) && s.producer.AtEmpty?
    ensures Transport(CompletionTaken(s), base)
  {
    hide Queue, Sound, Verified, TransferFits, Confirmed, Handed;
    OwnerNotDone(s);
  }

  /** The slot that owns the transport is not the one being emptied. */
  lemma OwnerNotDone(s: Pipeline)
    requires Queue(s) && Shaped(s) && s.producer.AtEmpty?
    ensures Owner(s.worker, s.active) != Some(s.take)
    ensures s.producer.event == Event(s.slots[s.take].job.cookie, s.slots[s.take].completed) && s.slots[s.take].phase == Done
    ensures |s.completed| < |s.released| <= |s.accepted| && s.slots[s.take].job == s.accepted[|s.completed|].job
    ensures s.worker.Working? ==> s.worker.index != s.take
    ensures Owner(s.worker, s.active).Some? ==> Owner(s.worker, s.active).value < 2
  {
    hide WorkerFits;
  }

  lemma ConvertKeepsTransport(s: Pipeline, base: nat, a: Answers)
    requires Queue(s) && Shaped(s) && Transport(s, base) && s.worker.Working? && s.worker.stage.Conversion?
    requires Untouched(s.memory, s.accepted, |s.released|)
    ensures Transport(Converting(s, a), base)
  {
    hide Queue, Sound, Verified, Confirmed, Handed, SubmitEx, Untouched, SourceOf, OwnStart, Tied, Outstanding, Receipt;
    var (y, r, previous) := Handover(s, a);
    var x, u := s.transfer, Converting(s, a);
    WorkingSlots(s);
    RunningJob(s);
    if !s.fault {
      var job := s.accepted[s.picked - 1];
      SubmitKeeps(x, job.image, job.job.degrees, s.picked - 1, a);
      SoundSized(x);
      SoundSized(y);
      if r == Ok { OwnTied(y, s.accepted, s.picked - 1); }
      ReceiptGrows(x, y, previous);
      if previous { WaitConfirms(x, y, base, s.accepted, OwnerJob(s)); }
      if (r == Invalid || r == Busy) && s.active.Some? && y.pending && !previous { StaysTied(x, y, s.accepted, OwnerJob(s)); }
      ResultGrows(s.slots[1 - s.worker.index], x, y, base, s.accepted, s.accepted, JobAt(s, 1 - s.worker.index));
      EventsGrow(x, y, base, s.accepted, s.accepted, s.released, s.completed);
    }
  }

  lemma SoundSized(x: Transfer)
    requires Sound(x)
    ensures Sized(x) && x.pending == Outstanding(x.log).Some?
  {
  }

  lemma ReceiptGrows(x: Transfer, y: Transfer, previous: bool)
    requires Receipt(x, y, previous)
    ensures Verified(x.log) <= Verified(y.log) && (previous ==> x.pending)
  {
    hide Verified, Outstanding;
  }

  lemma OwnTied(y: Transfer, jobs: seq<Admitted>, k: int)
    requires Sound(y) && Sized(y) && y.pending && 0 <= k < |jobs| && OwnStart(y, jobs[k].image, jobs[k].job.degrees, k)
    ensures Tied(y, jobs, k) && Handed(y, k)
  {
    hide Sound, Disciplined, Failed, Packed, PackAllowed, ImageBytes;
    assert Outstanding(y.log).value in y.log;
  }

  lemma StaysTied(x: Transfer, y: Transfer, jobs: seq<Admitted>, k: int)
    requires Tied(x, jobs, k) && Sized(y) && y.pending && Outstanding(y.log) == Outstanding(x.log)
    requires SameSetup(x.(started := true), y)
    ensures Tied(y, jobs, k)
  {
    hide Sized, Outstanding, Packed, PackAllowed, ImageBytes;
  }

  /** The slot being run holds the job last picked, whose source is still borrowed. */
  lemma RunningJob(s: Pipeline)
    requires Queue(s) && Shaped(s) && s.worker.Working? && Untouched(s.memory, s.accepted, |s.released|)
    ensures 0 < s.picked <= |s.accepted|
    ensures s.slots[s.worker.index].job == s.accepted[s.picked - 1].job
    ensures SourceOf(s.memory, s.slots[s.worker.index].job.frame) == s.accepted[s.picked - 1].image
    ensures s.active.Some? ==> s.active.value < 2 && s.active.value != s.worker.index && 0 <= OwnerJob(s) < |s.accepted|
  {
    hide ProducerFits, SourceOf;
    WorkingSlots(s);
  }

  lemma MarkKeepsTransport(s: Pipeline, base: nat)
    requires Queue(s) && Shaped(s) && Transport(s, base) && s.worker.Working? && s.worker.stage.Mark?
    ensures Transport(Marked(s), base)
  {
    hide Queue, Sized, Sound, Verified, Confirmed, Handed, OwnStart, Tied, Outstanding, EventResults, ActiveTied;
    WorkingSlots(s);
  }

  lemma SettleKeepsTransport(s: Pipeline, base: nat, previous: bool)
    requires Queue(s) && Shaped(s) && Transport(s, base) && s.worker.Working? && s.worker.stage == Settle(previous)
    ensures Transport(Settling(s, previous), base)
  {
    hide Queue, Sized, Sound, Verified, Confirmed, Handed, OwnStart, Tied, Outstanding, EventResults;
    WorkingSlots(s);
  }

  lemma JudgeKeepsTransport(s: Pipeline, base: nat)
    requires Queue(s) && Shaped(s) && Transport(s, base) && s.worker.Working? && s.worker.stage.Judge?
    ensures Transport(Judging(s), base)
  {
    hide Queue, Sized, Sound, Verified, Confirmed, Handed, OwnStart, Tied, Outstanding, EventResults;
    WorkingSlots(s);
  }

  lemma AbandonKeepsTransport(s: Pipeline, base: nat)
    requires Queue(s) && Shaped(s) && Transport(s, base) && s.worker.Working? && s.worker.stage.Abandon?
    ensures Transport(Abandoning(s), base)
  {
    hide Queue, Sized, Sound, Verified, Confirmed, Handed, OwnStart, Tied, Outstanding, EventResults;
    WorkingSlots(s);
  }

  lemma PublishKeepsTransport(s: Pipeline, base: nat)
    requires Queue(s) && Shaped(s) && Transport(s, base) && s.worker.Working? && s.worker.stage.Publish?
    ensures Transport(Publishing(s), base)
  {
    hide Queue, Sized, Sound, Verified, Confirmed, Handed, OwnStart, Tied, Outstanding, EventResults;
    WorkingSlots(s);
    if s.slots[s.worker.index].submitted == Ok {
      TiedHanded(s.transfer, s.accepted, s.picked - 1);
    }
  }

  lemma TiedHanded(x: Transfer, jobs: seq<Admitted>, k: int)
    requires Tied(x, jobs, k)
    ensures Handed(x, k) && x.pending
  {
    hide Packed, PackAllowed, ImageBytes, Sized;
    assert Outstanding(x.log).value in x.log;
  }

  lemma EmptyingKeepsTransport(s: Pipeline, base: nat, a: Answers)
    requires Queue(s) && Shaped(s) && Transport(s, base) && s.worker.Emptying?
    ensures Transport(Emptied(s, a), base)
  {
    hide Queue, Sound, Verified, Confirmed, Handed, SpiTransfer.Drain, OwnStart, Tied, Outstanding, Receipt;
    if s.active.Some? {
      var x := s.transfer;
      var (y, r) := SpiTransfer.Drain(x, a.waited);
      DrainKeeps(x, a.waited);
      ReceiptGrows(x, y, r == Ok);
      if r == Ok { WaitConfirms(x, y, base, s.accepted, OwnerJob(s)); }
      ResultGrows(s.slots[0], x, y, base, s.accepted, s.accepted, JobAt(s, 0));
      ResultGrows(s.slots[1], x, y, base, s.accepted, s.accepted, JobAt(s, 1));
      EventsGrow(x, y, base, s.accepted, s.accepted, s.released, s.completed);
    }
  }

  lemma FinishingKeepsTransport(s: Pipeline, base: nat)
    requires Queue(s) && Shaped(s) && Transport(s, base) && s.worker.Finishing?
    ensures Transport(Finished(s), base)
  {
    hide Queue, Sound, Verified, Confirmed, Handed, OwnStart, Tied, Outstanding, EventResults;
    FinishingSlot(s);
  }

  lemma FinishingSlot(s: Pipeline)
    requires Queue(s) && Shaped(s) && s.worker.Finishing?
    ensures s.slots[s.worker.index].phase == Submitted && s.active.None?
  {
  }

  lemma LookKeepsTransport(s: Pipeline, base: nat)
    requires Queue(s) && Shaped(s) && Transport(s, base) && s.worker.Looking?
    ensures Transport(Looked(s), base)
  {
    hide Queue, Sized, Sound, Verified, Confirmed, ActiveTied, EventResults, SlotResult;
  }

  lemma FaultingKeepsTransport(s: Pipeline, base: nat, woke: bool, a: Answers)
    requires Queue(s) && Shaped(s) && Transport(s, base) && s.worker.Faulting?
    ensures Transport(Toil(s, woke, a), base)
  {
    hide Queue, Sized, Sound, Verified, Confirmed, EventResults, SlotResult;
  }

  lemma OtherKeepsTransport(s: Pipeline, base: nat, woke: bool, a: Answers)
    requires Queue(s) && Shaped(s) && Transport(s, base)
    requires s.worker.Asleep? || s.worker.Checking? || s.worker.Leaving? || s.worker.Gone?
    ensures Transport(Toil(s, woke, a), base)
  {
    hide Queue, Sized, Sound, Verified, Confirmed, ActiveTied, Process, Looked, Emptied, Finished, EventResults, SlotResult,
         StageFits, JobIn;
  }

  lemma ToilKeepsTransport(s: Pipeline, base: nat, woke: bool, a: Answers)
    requires Inv(s, base)
    ensures Transport(Toil(s, woke, a), base)
  {
    hide Queue, Shaped, Sized, Transport, Untouched, Marked, Converting, Settling, Judging, Abandoning, Publishing;
    match s.worker
    case Working(stage, _, _, _, _) =>
      match stage {
        case Mark => MarkKeepsTransport(s, base);
        case Conversion => ConvertKeepsTransport(s, base, a);
        case Settle(previous) => SettleKeepsTransport(s, base, previous);
        case Judge => JudgeKeepsTransport(s, base);
        case Abandon => AbandonKeepsTransport(s, base);
        case Publish => PublishKeepsTransport(s, base);
      }
    case Looking(_, _, _, _) => LookKeepsTransport(s, base);
    case Emptying(_) => EmptyingKeepsTransport(s, base, a);
    case Finishing(_, _, _) => FinishingKeepsTransport(s, base);
    case Faulting(_, _) => FaultingKeepsTransport(s, base, woke, a);
    case _ => OtherKeepsTransport(s, base, woke, a);
  }

  // ----- every run -----

  lemma QueueShaped(s: Pipeline)
    requires Queue(s) && Sized(s.transfer)
    ensures Shaped(s)
  {
    hide ProducerFits, SlotFits, Sized;
  }

  lemma TransportSized(s: Pipeline, base: nat)
    requires Transport(s, base)
    ensures Sized(s.transfer)
  {
    hide TransferFits, SlotResult, EventResults, Disciplined, Failed, Outstanding;
  }

  lemma ToilKeeps(s: Pipeline, base: nat, woke: bool, a: Answers)
    requires Inv(s, base)
    ensures Inv(Toil(s, woke, a), base)
  {
    hide Queue, Shaped, Transport, Untouched, Cookies, Toil;
    ToilKeepsQueue(s, woke, a);
    ToilKeepsTransport(s, base, woke, a);
    TransportSized(Toil(s, woke, a), base);
    QueueShaped(Toil(s, woke, a));
  }

  lemma BeginKeeps(s: Pipeline, base: nat, a: Action)
    requires Inv(s, base) && s.producer.Free? && !a.Work? && !a.Produce?
    ensures Inv(Begin(s, a), base)
  {
    hide Queue, Shaped, Untouched, Cookies, Sound, TransferFits, SlotResult, EventResults, Begin;
    BeginKeepsQueue(s, a);
    BeginKeepsRest(s, a);
    TransportSized(s, base);
    QueueShaped(Begin(s, a));
    ScribbleKeeps(s, a);
  }

  lemma BeginKeepsRest(s: Pipeline, a: Action)
    requires s.producer.Free? && !a.Work? && !a.Produce?
    ensures var u := Begin(s, a); u == s.(producer := u.producer, reply := u.reply, stopping := u.stopping, memory := u.memory)
  {
  }

  /** The application may write anything it does not lend. */
  lemma ScribbleKeeps(s: Pipeline, a: Action)
    requires s.producer.Free? && !a.Work? && !a.Produce?
    ensures Untouched(s.memory, s.accepted, |s.released|) ==> Untouched(Begin(s, a).memory, s.accepted, |s.released|)
  {
    if a.Scribble? && !s.closed && !Borrowed(s, a.at) {
      forall k | |s.released| <= k < |s.accepted|
        ensures SourceOf(Begin(s, a).memory, s.accepted[k].job.frame) == SourceOf(s.memory, s.accepted[k].job.frame)
      {
        assert s.accepted[k].job.frame.memory != a.at;
      }
    }
  }

  lemma ReadKeepsTransport(s: Pipeline, base: nat)
    requires Transport(s, base) && Shaped(s) && !s.producer.AtStore? && !s.producer.AtRelease? && !s.producer.AtEmpty?
    ensures Transport(Loads(s), base)
  {
    hide Shaped, Loads, Sound, TransferFits, SlotResult, EventResults;
  }

  lemma AdvanceKeepsTransport(s: Pipeline, base: nat)
    requires Inv(s, base)
    ensures Transport(Advance(s), base)
  {
    hide Queue, Shaped, Untouched, Cookies, Transport, Loads, Stored, ReleaseTaken, CompletionTaken;
    match s.producer
    case AtStore(_) => StoreKeepsTransport(s, base);
    case AtRelease => ReleaseKeepsTransport(s, base);
    case AtEmpty(_) => EmptyKeepsTransport(s, base);
    case _ => ReadKeepsTransport(s, base);
  }

  lemma StoreKeepsHistory(s: Pipeline)
    requires Shaped(s) && s.producer.AtStore? && |s.released| <= |s.accepted|
    requires Cookies(s.accepted, s.released, s.completed) && Untouched(s.memory, s.accepted, |s.released|)
    ensures var u := Stored(s);
            Cookies(u.accepted, u.released, u.completed) && Untouched(u.memory, u.accepted, |u.released|)
  {
    hide Shaped, SourceOf;
  }

  lemma ReleaseKeepsHistory(s: Pipeline)
    requires Shaped(s) && Queue(s) && s.producer.AtRelease?
    requires Cookies(s.accepted, s.released, s.completed) && Untouched(s.memory, s.accepted, |s.released|)
    ensures var u := ReleaseTaken(s);
            Cookies(u.accepted, u.released, u.completed) && Untouched(u.memory, u.accepted, |u.released|)
  {
    hide Queue, SourceOf;
    ReleaseJob(s);
  }

  lemma EmptyKeepsHistory(s: Pipeline)
    requires Shaped(s) && Queue(s) && s.producer.AtEmpty?
    requires Cookies(s.accepted, s.released, s.completed) && Untouched(s.memory, s.accepted, |s.released|)
    ensures var u := CompletionTaken(s);
            Cookies(u.accepted, u.released, u.completed) && Untouched(u.memory, u.accepted, |u.released|)
  {
    hide Queue, SourceOf;
    OwnerNotDone(s);
  }

  lemma AdvanceKeepsHistory(s: Pipeline, base: nat)
    requires Inv(s, base)
    ensures var u := Advance(s);
            Cookies(u.accepted, u.released, u.completed) && Untouched(u.memory, u.accepted, |u.released|)
  {
    hide Queue, Shaped, Transport, Untouched, Loads, Stored, ReleaseTaken, CompletionTaken;
    match s.producer
    case AtStore(_) => StoreKeepsHistory(s);
    case AtRelease => ReleaseKeepsHistory(s);
    case AtEmpty(_) => EmptyKeepsHistory(s);
    case _ =>
  }

  lemma AdvanceKeeps(s: Pipeline, base: nat)
    requires Inv(s, base)
    ensures Inv(Advance(s), base)
  {
    hide Queue, Shaped, Transport, Untouched, Cookies, Advance;
    AdvanceKeepsQueue(s);
    AdvanceKeepsTransport(s, base);
    AdvanceKeepsHistory(s, base);
    TransportSized(Advance(s), base);
    QueueShaped(Advance(s));
  }

  lemma StepKeeps(s: Pipeline, base: nat, a: Action)
    requires Inv(s, base)
    ensures Inv(Next(s, a), base)
  {
    hide Inv, Shaped, Toil, Advance, Begin;
    InvShaped(s, base);
    if a.Work? { ToilKeeps(s, base, a.woke, a.answers); }
    else if a.Produce? { AdvanceKeeps(s, base); }
    else if s.producer.Free? { BeginKeeps(s, base, a); }
  }

  lemma InvShaped(s: Pipeline, base: nat)
    requires Inv(s, base)
    ensures Shaped(s)
  {
  }

  /** A session that owns nothing yet: sound, not inside a call, no transfer outstanding. */
  predicate IdleSession(x: Transfer)
  {
    Sound(x) && !x.busy && !x.pending
  }

  lemma CreatedKeeps(x: Transfer, memory: map<nat, seq<byte>>)
    requires IdleSession(x)
    ensures Inv(SpiPipeline.Created(x, memory), |Verified(x.log)|)
  {
    hide Verified, Outstanding, Disciplined, Failed, Sized;
    SoundSized(x);
  }

  /** The state after a sequence of steps of either thread. */
  ghost function Reached(x: Transfer, memory: map<nat, seq<byte>>, actions: seq<Action>): (s: Pipeline)
    requires IdleSession(x)
    ensures Inv(s, |Verified(x.log)|)
  {
    if actions == [] then CreatedKeeps(x, memory); SpiPipeline.Created(x, memory)
    else
      var before := Reached(x, memory, actions[..|actions| - 1]);
      StepKeeps(before, |Verified(x.log)|, actions[|actions| - 1]);
      Next(before, actions[|actions| - 1])
  }
}
