/** What every result means, in both directions: OK, INVALID and FAULT are reported exactly for what
    the transport was asked and answered since the pipeline exists. */
module SpiPipelineResults {
  import opened Prelude
  import opened SpiFrame
  import opened SpiTransfer
  import opened SpiPipeline
  import opened SpiPipelineRun
  import opened SpiPipelineLaws

  // `start` is the length of the log when the pipeline was created, `base` the number of transfers
  // verified by then.

  /** The wait for a start of job k succeeded. */
  predicate VerifiedFor(log: seq<Call>, base: nat, k: int)
  {
    exists j :: base <= j < |Verified(log)| && Verified(log)[j].Start? && Verified(log)[j].tag == k
  }

  /** Something failed, or a transform declined a frame as BUSY. */
  predicate Trouble(log: seq<Call>, start: nat)
  {
    Failed(log) || Declined(log, start)
  }

  /** What a submission of job k answered. */
  predicate AnswerTrue(r: Outcome, log: seq<Call>, start: nat, k: nat)
  {
    && (r == Ok <==> Took(log, start, k)) && (r == Invalid <==> Refused(log, start, k))
    && (r == Fault || r == Busy ==> Trouble(log, start))
  }

  /** What the completion of job k reports. */
  predicate CompletionTrue(r: Outcome, log: seq<Call>, start: nat, base: nat, k: nat)
  {
    && (r == Ok <==> VerifiedFor(log, base, k)) && (r == Invalid <==> Refused(log, start, k))
    && (r == Fault ==> Trouble(log, start)) && r != Busy
  }

  predicate SlotTrue(slot: Slot, log: seq<Call>, start: nat, base: nat, k: nat)
  {
    && (slot.phase == Submitted || slot.phase == Done ==> AnswerTrue(slot.submitted, log, start, k) && slot.submitted != Busy)
    && (slot.phase == Done ==> CompletionTrue(slot.completed, log, start, base, k))
  }

  predicate EventsTrue(log: seq<Call>, start: nat, base: nat, released: seq<Event>, completed: seq<Event>)
  {
    && (forall k: nat :: k < |released| ==> AnswerTrue(released[k].result, log, start, k) && released[k].result != Busy)
    && (forall k: nat :: k < |completed| ==> CompletionTrue(completed[k].result, log, start, base, k))
  }

  /** How many jobs the session may have been called for. */
  function Tagged(n: nat, w: Worker): int
  {
    if w.Working? && (w.stage.Mark? || w.stage.Conversion?) then n - 1 else n
  }

  ghost predicate TagsBelow(log: seq<Call>, start: nat, base: nat, n: int)
  {
    && (forall i :: start <= i < |log| && !log[i].Wait? ==> log[i].tag < n)
    && (forall k: int :: VerifiedFor(log, base, k) ==> k < n)
  }

  /** The position of the worker: r is the current submission's answer, k the job that owns the transport. */
  predicate WorkerTrue(w: Worker, r: Outcome, active: bool, k: int, n: nat, log: seq<Call>, start: nat, base: nat)
  {
    && (w.Working? && !w.stage.Mark? && !w.stage.Conversion? ==>
          && n > 0 && AnswerTrue(r, log, start, n - 1) && !VerifiedFor(log, base, n - 1) && (w.stage.Publish? ==> r != Busy))
    && (active ==> k >= 0 && (VerifiedFor(log, base, k) <==> w.Working? && w.stage == Settle(true)) && !Refused(log, start, k))
    && (w.Faulting? ==> k >= 0 && !VerifiedFor(log, base, k) && Trouble(log, start) && !Refused(log, start, k))
    && (w.Finishing? ==>
          && k >= 0 && (w.result == Ok <==> VerifiedFor(log, base, k)) && (w.result == Fault ==> Trouble(log, start))
          && (w.result == Ok || w.result == Fault) && !Refused(log, start, k))
  }

  ghost predicate Truthful(s: Pipeline, start: nat, base: nat)
  {
    var log := s.transfer.log;
    && |s.slots| == 2 && start <= |log| && base <= |Verified(log)|
    && (s.fault ==> Trouble(log, start))
    && TagsBelow(log, start, base, Tagged(s.picked, s.worker))
    && SlotTrue(s.slots[0], log, start, base, JobAt(s, 0)) && SlotTrue(s.slots[1], log, start, base, JobAt(s, 1))
    && WorkerTrue(s.worker, Answer(s), s.active.Some?, OwnerJob(s), s.picked, log, start, base)
    && EventsTrue(log, start, base, s.released, s.completed)
  }

  // ----- steps that leave the transport alone -----

  lemma BeginTrue(s: Pipeline, a: Action, start: nat, base: nat)
    requires Truthful(s, start, base) && !a.Work? && !a.Produce? && s.producer.Free?
    ensures Truthful(Begin(s, a), start, base)
  {
    hide TagsBelow, SlotTrue, WorkerTrue, EventsTrue, Trouble, Borrowed, JobIn;
  }

  lemma LoadsTrue(s: Pipeline, start: nat, base: nat)
    requires Shaped(s) && Truthful(s, start, base) && !s.producer.AtStore? && !s.producer.AtRelease? && !s.producer.AtEmpty?
    ensures Truthful(Loads(s), start, base)
  {
    hide TagsBelow, SlotTrue, WorkerTrue, EventsTrue, Trouble, JobIn, Shaped;
  }

  lemma StoredTrue(s: Pipeline, start: nat, base: nat)
    requires Queue(s) && Shaped(s) && Truthful(s, start, base) && s.producer.AtStore?
    ensures Truthful(Stored(s), start, base)
  {
    hide Queue, TagsBelow, AnswerTrue, CompletionTrue, WorkerTrue, EventsTrue, Trouble, JobIn, SourceOf, Sized;
    StoredSlot(s);
  }

  /** The slot to put into is empty and not the worker's. */
  lemma StoredSlot(s: Pipeline)
    requires Queue(s) && Shaped(s) && s.producer.AtStore?
    ensures s.slots[s.put].phase == Empty && (s.worker.Working? ==> s.worker.index != s.put)
  {
    hide WorkerFits;
    SlotsTell(s);
  }

  lemma ReleasedTrue(s: Pipeline, start: nat, base: nat)
    requires Queue(s) && Shaped(s) && Truthful(s, start, base) && s.producer.AtRelease?
    ensures Truthful(ReleaseTaken(s), start, base)
  {
    hide Queue, TagsBelow, AnswerTrue, CompletionTrue, WorkerTrue, Trouble, JobIn, Sized;
    ReleaseJob(s);
  }

  lemma EmptiedTrue(s: Pipeline, start: nat, base: nat)
    requires Queue(s) && Shaped(s) && Truthful(s, start, base) && s.producer.AtEmpty?
    ensures Truthful(CompletionTaken(s), start, base)
  {
    hide Queue, TagsBelow, AnswerTrue, CompletionTrue, Trouble, Sized;
    OwnerNotDone(s);
    CountsOrdered(s);
    JobsShift(s);
  }

  /** Emptying the oldest slot moves every other slot's job not at all. */
  lemma JobsShift(s: Pipeline)
    requires Queue(s) && Shaped(s) && s.producer.AtEmpty?
    ensures var u := CompletionTaken(s);
            && JobAt(s, s.take) == |s.completed| && JobAt(u, 1 - s.take) == JobAt(s, 1 - s.take)
            && Owner(u.worker, u.active) == Owner(s.worker, s.active)
  {
    hide ProducerFits, WorkerFits, SlotFits;
  }

  lemma AdvanceTrue(s: Pipeline, start: nat, base: nat)
    requires Queue(s) && Shaped(s) && Truthful(s, start, base)
    ensures Truthful(Advance(s), start, base)
  {
    hide Queue, Shaped, Truthful, Stored, ReleaseTaken, CompletionTaken, Loads;
    match s.producer
    case AtStore(_) => StoredTrue(s, start, base);
    case AtRelease => ReleasedTrue(s, start, base);
    case AtEmpty(_) => EmptiedTrue(s, start, base);
    case _ => LoadsTrue(s, start, base);
  }

  // ----- the worker's own steps -----

  lemma MarkTrue(s: Pipeline, start: nat, base: nat)
    requires Queue(s) && Shaped(s) && Truthful(s, start, base) && s.worker.Working? && s.worker.stage.Mark?
    ensures Truthful(Marked(s), start, base)
  {
    hide Queue, TagsBelow, AnswerTrue, CompletionTrue, EventsTrue, Trouble, Sized, JobIn;
    WorkingSlots(s);
  }

  lemma SettleTrue(s: Pipeline, start: nat, base: nat, previous: bool)
    requires Queue(s) && Shaped(s) && Truthful(s, start, base) && s.worker.Working? && s.worker.stage == Settle(previous)
    ensures Truthful(Settling(s, previous), start, base)
  {
    hide Queue, TagsBelow, AnswerTrue, EventsTrue, Trouble, Sized, Took, Refused, VerifiedFor;
    WorkingSlots(s);
    OwnerPhase(s);
  }

  /** The slot that owns the transport is SUBMITTED and not the one being run. */
  lemma OwnerPhase(s: Pipeline)
    requires Queue(s) && Shaped(s)
    ensures s.active.Some? ==> s.active.value < 2 && s.slots[s.active.value].phase == Submitted && OwnerJob(s) == JobAt(s, s.active.value)
    ensures s.active.Some? && s.worker.Working? ==> s.active.value != s.worker.index
    ensures s.active.None? && s.worker.Working? ==> OwnerJob(s) == -1
    ensures s.worker.Faulting? || s.worker.Finishing? ==> s.active.None? && s.slots[s.worker.index].phase == Submitted
    ensures s.worker.Working? ==> s.worker.index < 2 && JobAt(s, s.worker.index) == s.picked - 1 && JobAt(s, 1 - s.worker.index) != s.picked - 1
  {
    hide ProducerFits;
  }

  lemma JudgeTrue(s: Pipeline, base: nat, start: nat)
    requires Inv(s, base) && Truthful(s, start, base) && s.worker.Working? && s.worker.stage.Judge?
    ensures Truthful(Judging(s), start, base)
  {
    hide Inv, Queue, Truthful, Judging;
    InvQueue(s, base);
    InvShaped(s, base);
    ReceiptGiven(s, base);
    if Answer(s) == Fault || Answer(s) == Busy { JudgeFaults(s, base, start); } else { JudgePasses(s, base, start); }
  }

  lemma JudgeFaults(s: Pipeline, base: nat, start: nat)
    requires Queue(s) && Shaped(s) && Truthful(s, start, base) && s.worker.Working? && s.worker.stage.Judge?
    requires Answer(s) == Fault || Answer(s) == Busy
    ensures Truthful(Judging(s), start, base)
  {
    hide Queue, TagsBelow, EventsTrue, Trouble, Sized, Took, Refused, VerifiedFor, CompletionTrue, JobIn;
    OwnerPhase(s);
    RunningPhase(s);
  }

  lemma JudgePasses(s: Pipeline, base: nat, start: nat)
    requires Queue(s) && Shaped(s) && Truthful(s, start, base) && s.worker.Working? && s.worker.stage.Judge?
    requires Answer(s) == Invalid || (Answer(s) == Ok && s.active.None?)
    ensures Truthful(Judging(s), start, base)
  {
    hide Queue, TagsBelow, EventsTrue, Trouble, Sized, Took, Refused, VerifiedFor, CompletionTrue, JobIn, SlotTrue;
  }

  /** After OK the receipt for the previous transfer has always come. */
  lemma ReceiptGiven(s: Pipeline, base: nat)
    requires Inv(s, base) && s.worker.Working? && s.worker.stage.Judge?
    ensures Answer(s) == Ok ==> s.active.None? && !s.fault
    ensures s.fault ==> Answer(s) == Fault
  {
    hide Queue, Sized, Untouched, Cookies, Sound, Verified, EventResults, SlotResult, Tied, Shaped;
  }

  /** While a slot is being run it is neither submitted nor done. */
  lemma RunningPhase(s: Pipeline)
    requires Queue(s) && Shaped(s) && s.worker.Working?
    ensures s.slots[s.worker.index].phase == Running || s.slots[s.worker.index].phase == Queued
  {
    hide ProducerFits;
  }

  lemma AbandonTrue(s: Pipeline, base: nat, start: nat)
    requires Inv(s, base) && Truthful(s, start, base) && s.worker.Working? && s.worker.stage.Abandon?
    ensures Truthful(Abandoning(s), start, base)
  {
    hide Queue, TagsBelow, EventsTrue, Trouble, Sized, Took, Refused, VerifiedFor, Untouched, Cookies, Sound, Verified, EventResults,
         SlotResult, Tied;
    OwnerPhase(s);
  }

  lemma PublishTrue(s: Pipeline, base: nat, start: nat)
    requires Inv(s, base) && Truthful(s, start, base) && s.worker.Working? && s.worker.stage.Publish?
    ensures Truthful(Publishing(s), start, base)
  {
    hide Queue, TagsBelow, EventsTrue, Trouble, Sized, Took, Refused, VerifiedFor, Untouched, Cookies, Sound, Verified, EventResults,
         SlotResult, Tied;
    OwnerPhase(s);
    PublishOwner(s);
  }

  lemma PublishOwner(s: Pipeline)
    requires Queue(s) && Shaped(s) && s.worker.Working? && s.worker.stage.Publish?
    ensures s.slots[s.worker.index].submitted == Ok ==> s.active.None?
  {
    hide ProducerFits, SlotFits;
  }

  lemma LookTrue(s: Pipeline, start: nat, base: nat)
    requires Queue(s) && Shaped(s) && Truthful(s, start, base) && s.worker.Looking?
    ensures Truthful(Looked(s), start, base)
  {
    hide Queue, AnswerTrue, CompletionTrue, EventsTrue, Trouble, Sized, SlotTrue, TagsBelow, VerifiedFor, Refused, JobIn;
    OwnerPhase(s);
    TagsSame(s.transfer.log, start, base, s.picked);
  }

  lemma TagsSame(log: seq<Call>, start: nat, base: nat, n: int)
    ensures TagsBelow(log, start, base, n) == TagsBelow(log, start, base, n + 1 - 1)
  {
  }

  lemma FinishTrue(s: Pipeline, start: nat, base: nat)
    requires Queue(s) && Shaped(s) && Truthful(s, start, base) && s.worker.Finishing?
    ensures Truthful(Finished(s), start, base)
  {
    hide Queue, AnswerTrue, EventsTrue, Trouble, Sized, TagsBelow, Took, Refused, VerifiedFor;
    OwnerPhase(s);
  }

  lemma OtherTrue(s: Pipeline, woke: bool, a: Answers, start: nat, base: nat)
    requires Queue(s) && Shaped(s) && Truthful(s, start, base)
    requires s.worker.Asleep? || s.worker.Checking? || s.worker.Leaving? || s.worker.Gone? || s.worker.Faulting?
    ensures Truthful(Toil(s, woke, a), start, base)
  {
    hide Queue, AnswerTrue, CompletionTrue, EventsTrue, Trouble, Sized, SlotTrue, TagsBelow, Process, Looked, Emptied, Finished;
    OwnerPhase(s);
  }

  // ----- steps that call the session -----

  /** What a longer log says of every job. */
  lemma LogGrows(old': seq<Call>, log: seq<Call>, start: nat, tag: nat, taken: bool, refused: bool, declined: bool)
    requires start <= |old'| && old' <= log && Says(log, |old'|, tag, taken, refused, declined)
    ensures forall k: nat :: Took(log, start, k) <==> Took(old', start, k) || (k == tag && taken)
    ensures forall k: nat :: Refused(log, start, k) <==> Refused(old', start, k) || (k == tag && refused)
    ensures Declined(log, start) <==> Declined(old', start) || declined
    ensures Failed(old') ==> Failed(log)
  {
    hide Says;
    SaysParts(log, |old'|, tag, taken, refused, declined);
    forall k: nat ensures Took(log, start, k) <==> Took(old', start, k) || (k == tag && taken) { TookGrows(old', log, start, tag, k); }
    forall k: nat ensures Refused(log, start, k) <==> Refused(old', start, k) || (k == tag && refused) { RefusedGrows(old', log, start, tag, k); }
    if Declined(old', start) {
      var i :| start <= i < |old'| && old'[i].Convert? && old'[i].outcome == Busy;
      assert log[i] == old'[i];
    }
    if Failed(old') {
      var i :| 0 <= i < |old'| && Failing(old'[i]);
      assert Failing(log[i]);
    }
  }

  lemma SaysParts(log: seq<Call>, from: nat, tag: nat, taken: bool, refused: bool, declined: bool)
    requires Says(log, from, tag, taken, refused, declined)
    ensures OnlyTag(log, from, tag) && Took(log, from, tag) == taken && Refused(log, from, tag) == refused && Declined(log, from) == declined
  {
  }

  lemma TookGrows(old': seq<Call>, log: seq<Call>, start: nat, tag: nat, k: nat)
    requires start <= |old'| && old' <= log && OnlyTag(log, |old'|, tag)
    ensures Took(log, start, k) <==> Took(old', start, k) || (k == tag && Took(log, |old'|, tag))
  {
    if Took(log, start, k) {
      var i :| start <= i < |log| && log[i].Start? && log[i].tag == k && log[i].accepted;
      if i < |old'| { assert old'[i] == log[i]; }
    }
    if Took(old', start, k) {
      var i :| start <= i < |old'| && old'[i].Start? && old'[i].tag == k && old'[i].accepted;
      assert log[i] == old'[i];
    }
  }

  lemma RefusedGrows(old': seq<Call>, log: seq<Call>, start: nat, tag: nat, k: nat)
    requires start <= |old'| && old' <= log && OnlyTag(log, |old'|, tag)
    ensures Refused(log, start, k) <==> Refused(old', start, k) || (k == tag && Refused(log, |old'|, tag))
  {
    if Refused(log, start, k) {
      var i :| start <= i < |log| && log[i].Convert? && log[i].tag == k && log[i].outcome == Invalid;
      if i < |old'| { assert old'[i] == log[i]; }
    }
    if Refused(old', start, k) {
      var i :| start <= i < |old'| && old'[i].Convert? && old'[i].tag == k && old'[i].outcome == Invalid;
      assert log[i] == old'[i];
    }
  }

  /** Verification grows by the outstanding start, if its wait succeeded. */
  lemma VerifiedGrows(t: Transfer, u: Transfer, base: nat, previous: bool)
    requires Receipt(t, u, previous) && base <= |Verified(t.log)|
    ensures base <= |Verified(u.log)|
    ensures previous ==> Outstanding(t.log).Some?
    ensures forall k: int :: VerifiedFor(u.log, base, k) <==> VerifiedFor(t.log, base, k) || (previous && Outstanding(t.log).value.tag == k)
  {
    hide Outstanding, Verified;
    forall k: int ensures VerifiedFor(u.log, base, k) <==> VerifiedFor(t.log, base, k) || (previous && Outstanding(t.log).value.tag == k) {
      if VerifiedFor(t.log, base, k) {
        var j :| base <= j < |Verified(t.log)| && Verified(t.log)[j].Start? && Verified(t.log)[j].tag == k;
        assert Verified(u.log)[j] == Verified(t.log)[j];
      }
      if previous && Outstanding(t.log).value.tag == k { assert Verified(u.log)[|Verified(t.log)|].tag == k; }
    }
  }

  lemma TagsGrow(old': seq<Call>, log: seq<Call>, start: nat, base: nat, n: nat, owner: int, previous: bool)
    requires TagsBelow(old', start, base, n) && start <= |old'| && old' <= log && OnlyTag(log, |old'|, n)
    requires forall k: int :: VerifiedFor(log, base, k) <==> VerifiedFor(old', base, k) || (previous && owner == k)
    requires previous ==> owner < n
    ensures TagsBelow(log, start, base, n + 1)
  {
    hide VerifiedFor;
  }

  /** The results of jobs that the session was not called for stay what they are. */
  lemma OthersTrue(old': seq<Call>, log: seq<Call>, start: nat, base: nat, n: nat, owner: int, previous: bool, k: nat)
    requires forall k: nat :: k != n ==> (Took(log, start, k) <==> Took(old', start, k)) && (Refused(log, start, k) <==> Refused(old', start, k))
    requires forall k: int :: VerifiedFor(log, base, k) <==> VerifiedFor(old', base, k) || (previous && owner == k)
    requires Trouble(old', start) ==> Trouble(log, start)
    requires k != n
    ensures forall r :: AnswerTrue(r, old', start, k) ==> AnswerTrue(r, log, start, k)
    ensures k != owner ==> forall r :: CompletionTrue(r, old', start, base, k) ==> CompletionTrue(r, log, start, base, k)
  {
    hide Took, Refused, VerifiedFor, Trouble;
  }

  lemma EventsStay(old': seq<Call>, log: seq<Call>, start: nat, base: nat, n: nat, owner: int, previous: bool, released: seq<Event>, completed: seq<Event>)
    requires forall k: nat :: k != n ==> (Took(log, start, k) <==> Took(old', start, k)) && (Refused(log, start, k) <==> Refused(old', start, k))
    requires forall k: int :: VerifiedFor(log, base, k) <==> VerifiedFor(old', base, k) || (previous && owner == k)
    requires Trouble(old', start) ==> Trouble(log, start)
    requires |completed| <= |released| <= n && (previous ==> |completed| <= owner)
    requires EventsTrue(old', start, base, released, completed)
    ensures EventsTrue(log, start, base, released, completed)
  {
    hide Took, Refused, VerifiedFor, Trouble;
  }

  /** What the session was called for, and what is outstanding, when a picked job is handed over. */
  lemma ConvertingTells(s: Pipeline, base: nat)
    requires Inv(s, base) && s.worker.Working? && s.worker.stage.Conversion? && !s.fault
    ensures Sound(s.transfer) && !s.transfer.busy && s.transfer.pending == s.active.Some?
    ensures s.transfer.pending ==> Outstanding(s.transfer.log).Some? && Outstanding(s.transfer.log).value.tag == OwnerJob(s)
    ensures s.active.Some? ==> |s.completed| <= OwnerJob(s) < s.picked - 1
  {
    hide Queue, Untouched, Cookies, Verified, EventResults, SlotResult, Shaped, Packed, PackAllowed, ImageBytes, Disciplined, Failed;
    InvQueue(s, base);
    OwnerOlder(s);
  }

  lemma OwnerOlder(s: Pipeline)
    requires Queue(s)
    ensures s.active.Some? || s.worker.Faulting? || s.worker.Finishing? ==> |s.completed| <= OwnerJob(s) < Ran(s.picked, s.worker)
  {
    hide ProducerFits, SlotFits, WorkerFits;
  }

  lemma ConvertTrue(s: Pipeline, base: nat, start: nat, a: Answers)
    requires Inv(s, base) && Truthful(s, start, base) && s.worker.Working? && s.worker.stage.Conversion?
    ensures Truthful(Converting(s, a), start, base)
  {
    hide Inv, TagsBelow, EventsTrue, SubmitEx, SourceOf, Took, Refused, VerifiedFor, Receipt, SlotTrue, WorkerTrue, Trouble, Verified, Sized;
    InvQueue(s, base);
    InvShaped(s, base);
    if s.fault { ConvertFaulted(s, base, start, a); } else { ConvertCalled(s, base, start, a); }
  }

  lemma ConvertFaulted(s: Pipeline, base: nat, start: nat, a: Answers)
    requires Queue(s) && Shaped(s) && Truthful(s, start, base) && s.worker.Working? && s.worker.stage.Conversion? && s.fault
    ensures Truthful(Converting(s, a), start, base)
  {
    hide Queue, EventsTrue, SubmitEx, SourceOf, CompletionTrue, Trouble, Verified, Sized;
    OwnerPhase(s);
    RunningPhase(s);
    NotYetCalled(s.transfer.log, start, base, s.picked - 1);
    LaterTags(s.transfer.log, start, base, s.picked - 1);
  }

  lemma NotYetCalled(log: seq<Call>, start: nat, base: nat, n: nat)
    requires TagsBelow(log, start, base, n)
    ensures !Took(log, start, n) && !Refused(log, start, n) && !VerifiedFor(log, base, n)
  {
  }

  lemma LaterTags(log: seq<Call>, start: nat, base: nat, n: nat)
    requires TagsBelow(log, start, base, n)
    ensures TagsBelow(log, start, base, n + 1)
  {
    hide VerifiedFor;
  }

  lemma ConvertCalled(s: Pipeline, base: nat, start: nat, a: Answers)
    requires Inv(s, base) && Truthful(s, start, base) && s.worker.Working? && s.worker.stage.Conversion? && !s.fault
    ensures Truthful(Converting(s, a), start, base)
  {
    hide Inv, Queue, TagsBelow, EventsTrue, SubmitEx, SourceOf, Took, Refused, Declined, VerifiedFor, Verified, Sized, Sound,
         CompletionTrue, AnswerTrue, Outstanding, Failed, Shaped, OwnerJob;
    InvQueue(s, base);
    InvShaped(s, base);
    OwnerPhase(s);
    RunningPhase(s);
    ConvertingTells(s, base);
    CountsOrdered(s);
    var x, n, job := s.transfer, s.picked - 1, s.slots[s.worker.index].job;
    var image := SourceOf(s.memory, job.frame);
    var (y, r, previous) := SubmitEx(x, image, job.degrees, n, a);
    SubmitTold(x, image, job.degrees, n, a, start, base, OwnerJob(s));
    var other := 1 - s.worker.index;
    OthersTrue(x.log, y.log, start, base, n, OwnerJob(s), previous, JobAt(s, other));
    EventsStay(x.log, y.log, start, base, n, OwnerJob(s), previous, s.released, s.completed);
    OwnerStays(s, Converting(s, a));
  }

  lemma SubmitTold(x: Transfer, image: Source, degrees: nat, n: nat, a: Answers, start: nat, base: nat, owner: int)
    requires Sound(x) && !x.busy && start <= |x.log| && base <= |Verified(x.log)| && TagsBelow(x.log, start, base, n)
    requires x.pending ==> Outstanding(x.log).Some? && Outstanding(x.log).value.tag == owner && owner < n
    ensures Sized(x)
    ensures var (y, r, previous) := SubmitEx(x, image, degrees, n, a);
            && (forall k: nat :: k != n ==> (Took(y.log, start, k) <==> Took(x.log, start, k)) && (Refused(y.log, start, k) <==> Refused(x.log, start, k)))
            && (forall k: int :: VerifiedFor(y.log, base, k) <==> VerifiedFor(x.log, base, k) || (previous && owner == k))
            && (Trouble(x.log, start) ==> Trouble(y.log, start))
            && base <= |Verified(y.log)| && TagsBelow(y.log, start, base, n + 1) && AnswerTrue(r, y.log, start, n)
            && !VerifiedFor(y.log, base, n) && start <= |y.log| && (previous ==> x.pending)
  {
    hide TagsBelow, SubmitEx, Took, Refused, Declined, VerifiedFor, Receipt, Verified, Sized, Sound, Says, AnswerTrue, Outstanding, Failed, Trouble,
         SameSetup, OwnStart;
    SoundSized(x);
    var (y, r, previous) := SubmitEx(x, image, degrees, n, a);
    SubmitKeeps(x, image, degrees, n, a);
    SubmitSays(x, image, degrees, n, a);
    ReceiptGrows(x, y, previous);
    CallTold(x, y, start, base, n, owner, r, previous);
  }

  lemma OwnerStays(s: Pipeline, u: Pipeline)
    requires u.active == s.active && u.completed == s.completed && u.take == s.take && s.worker.Working? && u.worker.Working?
    ensures OwnerJob(u) == OwnerJob(s) && forall i :: JobAt(u, i) == JobAt(s, i)
  {
  }

  /** The call of a submission, as every job sees it. */
  lemma CallTold(x: Transfer, y: Transfer, start: nat, base: nat, n: nat, owner: int, r: Outcome, previous: bool)
    requires Says(y.log, |x.log|, n, r == Ok, r == Invalid, r == Busy) && x.log <= y.log && Receipt(x, y, previous)
    requires start <= |x.log| && base <= |Verified(x.log)| && Sound(x) && Sound(y) && y.fault == (r == Fault)
    requires TagsBelow(x.log, start, base, n)
    requires previous ==> Outstanding(x.log).Some? ==> Outstanding(x.log).value.tag == owner && owner < n
    ensures forall k: nat :: k != n ==> (Took(y.log, start, k) <==> Took(x.log, start, k)) && (Refused(y.log, start, k) <==> Refused(x.log, start, k))
    ensures forall k: int :: VerifiedFor(y.log, base, k) <==> VerifiedFor(x.log, base, k) || (previous && owner == k)
    ensures Trouble(x.log, start) ==> Trouble(y.log, start)
    ensures base <= |Verified(y.log)| && TagsBelow(y.log, start, base, n + 1) && AnswerTrue(r, y.log, start, n)
    ensures !VerifiedFor(y.log, base, n) && start <= |y.log|
  {
    hide TagsBelow, Took, Refused, Declined, VerifiedFor, Receipt, Verified, Says, Outstanding, Failed, Disciplined, Sized;
    LogGrows(x.log, y.log, start, n, r == Ok, r == Invalid, r == Busy);
    VerifiedGrows(x, y, base, previous);
    SaysParts(y.log, |x.log|, n, r == Ok, r == Invalid, r == Busy);
    NotYetCalled(x.log, start, base, n);
    SoundFacts(y);
    if !(previous && Outstanding(x.log).None?) { TagsGrow(x.log, y.log, start, base, n, owner, previous); }
  }

  /** What is outstanding when the worker waits for the last transfer. */
  lemma EmptyingTells(s: Pipeline, base: nat)
    requires Inv(s, base) && s.worker.Emptying? && s.active.Some?
    ensures Sound(s.transfer) && !s.transfer.busy && !s.fault && s.transfer.pending
    ensures Outstanding(s.transfer.log).Some? && Outstanding(s.transfer.log).value.tag == OwnerJob(s)
    ensures |s.completed| <= OwnerJob(s) < s.picked && JobAt(s, s.active.value) == OwnerJob(s)
  {
    hide Queue, Untouched, Cookies, Verified, EventResults, SlotResult, Shaped, Packed, PackAllowed, ImageBytes, Disciplined, Failed;
    InvQueue(s, base);
    OwnerOlder(s);
  }

  lemma DrainSays(t: Transfer, waited: bool, tag: nat)
    requires Sound(t) && !t.busy
    ensures Says(SpiTransfer.Drain(t, waited).0.log, |t.log|, tag, false, false, false)
    ensures OnlyWaits(SpiTransfer.Drain(t, waited).0.log, |t.log|)
  {
    hide Says, Sound, Disciplined, Failed, Outstanding;
    SaysNothing(t.log, tag);
    FinishSays(t.(busy := true), waited, |t.log|, tag, false, false, false);
  }

  predicate OnlyWaits(log: seq<Call>, from: nat)
  {
    forall i :: from <= i < |log| ==> log[i].Wait?
  }

  lemma WaitTags(old': seq<Call>, log: seq<Call>, start: nat, base: nat, n: nat, owner: int, verified: bool)
    requires TagsBelow(old', start, base, n) && start <= |old'| && old' <= log && OnlyWaits(log, |old'|)
    requires forall k: int :: VerifiedFor(log, base, k) <==> VerifiedFor(old', base, k) || (verified && owner == k)
    requires owner < n
    ensures TagsBelow(log, start, base, n)
  {
    hide VerifiedFor;
  }

  lemma EmptyTrue(s: Pipeline, base: nat, start: nat, a: Answers)
    requires Inv(s, base) && Truthful(s, start, base) && s.worker.Emptying?
    ensures Truthful(Emptied(s, a), start, base)
  {
    hide Inv, Queue, TagsBelow, EventsTrue, SpiTransfer.Drain, Took, Refused, Declined, VerifiedFor, Receipt, Verified, Sized, Sound, Says,
         CompletionTrue, AnswerTrue, Outstanding, Failed, Shaped, SameSetup, Trouble;
    InvQueue(s, base);
    InvShaped(s, base);
    OwnerPhase(s);
    if s.active.Some? { EmptyCalled(s, base, start, a); }
  }

  lemma EmptyCalled(s: Pipeline, base: nat, start: nat, a: Answers)
    requires Inv(s, base) && Truthful(s, start, base) && s.worker.Emptying? && s.active.Some?
    ensures Truthful(Emptied(s, a), start, base)
  {
    hide Inv, Queue, TagsBelow, EventsTrue, SpiTransfer.Drain, Took, Refused, Declined, VerifiedFor, Receipt, Verified, Sized, Sound, Says,
         CompletionTrue, AnswerTrue, Outstanding, Failed, Shaped, SameSetup, OwnerJob, OnlyWaits;
    InvQueue(s, base);
    InvShaped(s, base);
    OwnerPhase(s);
    EmptyingTells(s, base);
    CountsOrdered(s);
    var x, n, tag, k := s.transfer, s.picked, s.picked + 2, OwnerJob(s);
    var (y, r) := SpiTransfer.Drain(x, a.waited);
    DrainKeeps(x, a.waited);
    DrainSays(x, a.waited, tag);
    DrainTold(x, y, start, base, n, tag, k, r);
    var other := 1 - s.active.value;
    OthersTrue(x.log, y.log, start, base, tag, k, r == Ok, JobAt(s, other));
    OthersTrue(x.log, y.log, start, base, tag, k, r == Ok, k);
    EventsStay(x.log, y.log, start, base, tag, k, r == Ok, s.released, s.completed);
    OwnerEmptied(s, a);
  }

  lemma OwnerEmptied(s: Pipeline, a: Answers)
    requires Shaped(s) && s.worker.Emptying? && s.active.Some?
    ensures OwnerJob(Emptied(s, a)) == OwnerJob(s) && forall i :: JobAt(Emptied(s, a), i) == JobAt(s, i)
    ensures JobAt(s, 1 - s.active.value) != JobAt(s, s.active.value)
  {
    hide Sized, SpiTransfer.Drain;
  }

  lemma DrainTold(x: Transfer, y: Transfer, start: nat, base: nat, n: nat, tag: nat, owner: nat, r: Outcome)
    requires Says(y.log, |x.log|, tag, false, false, false) && OnlyWaits(y.log, |x.log|) && x.log <= y.log
    requires if r == Ok then !y.fault && Receipt(x, y, true) else y.fault && Receipt(x, y, false)
    requires start <= |x.log| && base <= |Verified(x.log)| && Sound(x) && Sound(y)
    requires TagsBelow(x.log, start, base, n) && Outstanding(x.log).Some? && Outstanding(x.log).value.tag == owner && owner < n
    ensures forall k: nat :: k != tag ==> (Took(y.log, start, k) <==> Took(x.log, start, k)) && (Refused(y.log, start, k) <==> Refused(x.log, start, k))
    ensures forall k: int :: VerifiedFor(y.log, base, k) <==> VerifiedFor(x.log, base, k) || (r == Ok && owner == k)
    ensures Trouble(x.log, start) ==> Trouble(y.log, start)
    ensures r != Ok ==> Trouble(y.log, start)
    ensures base <= |Verified(y.log)| && TagsBelow(y.log, start, base, n) && start <= |y.log|
  {
    hide TagsBelow, Took, Refused, Declined, VerifiedFor, Receipt, Verified, Says, Outstanding, Failed, Disciplined, Sized;
    LogGrows(x.log, y.log, start, tag, false, false, false);
    VerifiedGrows(x, y, base, r == Ok);
    SoundFacts(y);
    WaitTags(x.log, y.log, start, base, n, owner, r == Ok);
  }

  lemma ToilTrue(s: Pipeline, base: nat, start: nat, woke: bool, a: Answers)
    requires Inv(s, base) && Truthful(s, start, base)
    ensures Shaped(s) && Truthful(Toil(s, woke, a), start, base)
  {
    hide Inv, Queue, Shaped, Truthful, Marked, Converting, Settling, Judging, Abandoning, Publishing, Looked, Emptied, Finished;
    InvQueue(s, base);
    InvShaped(s, base);
    match s.worker
    case Working(stage, _, _, _, _) =>
      match stage {
        case Mark => MarkTrue(s, start, base);
        case Conversion => ConvertTrue(s, base, start, a);
        case Settle(previous) => SettleTrue(s, start, base, previous);
        case Judge => JudgeTrue(s, base, start);
        case Abandon => AbandonTrue(s, base, start);
        case Publish => PublishTrue(s, base, start);
      }
    case Looking(_, _, _, _) => LookTrue(s, start, base);
    case Emptying(_) => EmptyTrue(s, base, start, a);
    case Finishing(_, _, _) => FinishTrue(s, start, base);
    case _ => OtherTrue(s, woke, a, start, base);
  }

  lemma StepTrue(s: Pipeline, base: nat, start: nat, a: Action)
    requires Inv(s, base) && Truthful(s, start, base)
    ensures Shaped(s) && Truthful(Next(s, a), start, base)
  {
    hide Inv, Queue, Shaped, Truthful, Toil, Advance, Begin;
    InvQueue(s, base);
    InvShaped(s, base);
    if a.Work? { ToilTrue(s, base, start, a.woke, a.answers); }
    else if a.Produce? { AdvanceTrue(s, start, base); }
    else if s.producer.Free? { BeginTrue(s, a, start, base); }
  }

  // ----- every run -----

  lemma CreatedTrue(x: Transfer, memory: map<nat, seq<byte>>)
    requires IdleSession(x)
    ensures Truthful(SpiPipeline.Created(x, memory), |x.log|, |Verified(x.log)|)
  {
    hide Verified, IdleSession;
  }

  lemma {:induction false} ReachedTrue(x: Transfer, memory: map<nat, seq<byte>>, actions: seq<Action>)
    requires IdleSession(x)
    ensures Truthful(Reached(x, memory, actions), |x.log|, |Verified(x.log)|)
    decreases |actions|
  {
    hide Inv, Truthful, Next, IdleSession;
    if actions == [] {
      CreatedTrue(x, memory);
    } else {
      var before, a := Reached(x, memory, actions[..|actions| - 1]), actions[|actions| - 1];
      ReachedTrue(x, memory, actions[..|actions| - 1]);
      StepTrue(before, |Verified(x.log)|, |x.log|, a);
    }
  }

  /** What every completion and release of a run reports. A completion is OK if and only if the wait for
      that frame's own start, with its own image, succeeded; INVALID if and only if its conversion was
      refused; FAULT only after something failed or was declined; nothing else. A release is OK if and
      only if the transport took the frame. */
  ghost predicate Accurate(s: Pipeline, start: nat, base: nat)
  {
    var log := s.transfer.log;
    && (forall k: nat :: k < |s.completed| ==>
          && (s.completed[k].result == Ok <==> Confirmed(s.transfer, base, s.accepted, k))
          && (s.completed[k].result == Invalid <==> Refused(log, start, k))
          && (s.completed[k].result == Fault ==> Trouble(log, start)) && s.completed[k].result != Busy)
    && (forall k: nat :: k < |s.released| ==>
          && (s.released[k].result == Ok <==> Took(log, start, k))
          && (s.released[k].result == Invalid <==> Refused(log, start, k))
          && (s.released[k].result == Fault ==> Trouble(log, start)) && s.released[k].result != Busy)
    && (s.fault ==> Trouble(log, start))
  }

  lemma ResultsExactly(x: Transfer, memory: map<nat, seq<byte>>, actions: seq<Action>)
    requires IdleSession(x)
    ensures Accurate(Reached(x, memory, actions), |x.log|, |Verified(x.log)|)
  {
    hide Reached, Inv, Truthful, Accurate;
    ReachedTrue(x, memory, actions);
    TrueIsAccurate(Reached(x, memory, actions), |x.log|, |Verified(x.log)|);
  }

  lemma TrueIsAccurate(s: Pipeline, start: nat, base: nat)
    requires Inv(s, base) && Truthful(s, start, base)
    ensures Accurate(s, start, base)
  {
    hide Inv, Took, Refused, VerifiedFor, Trouble, TagsBelow, SlotTrue, WorkerTrue, Confirmed, ResultsMeant, Verified;
    forall k: nat | k < |s.completed|
      ensures CompletionTrue(s.completed[k].result, s.transfer.log, start, base, k)
      ensures s.completed[k].result == Ok <==> Confirmed(s.transfer, base, s.accepted, k)
    {
      InvMeansShown(s, base, k);
      if s.completed[k].result == Ok { MeantOk(s, base, k); }
      if Confirmed(s.transfer, base, s.accepted, k) { ConfirmedVerified(s.transfer, base, s.accepted, k); }
    }
  }

  lemma MeantOk(s: Pipeline, base: nat, k: nat)
    requires ResultsMeant(s, base, k) && k < |s.completed| && s.completed[k].result == Ok
    ensures Confirmed(s.transfer, base, s.accepted, k)
  {
  }

  lemma ConfirmedVerified(x: Transfer, base: nat, jobs: seq<Admitted>, k: int)
    requires Confirmed(x, base, jobs, k)
    ensures VerifiedFor(x.log, base, k)
  {
    hide Verified, Packed, PackAllowed, ImageBytes;
    var j :| base <= j < |Verified(x.log)| && IsStartOf(Verified(x.log)[j], x, k, jobs[k]);
  }

  // ----- refusals -----

  /** Without a transform a conversion is refused only for a frame that the packer cannot take. */
  ghost predicate RefusalsMeant(x: Transfer, jobs: seq<Admitted>, start: nat)
  {
    !x.transform ==>
      forall k: nat :: Refused(x.log, start, k) ==>
        k < |jobs| && !PackAllowed(jobs[k].image, ImageBytes(x.width, x.height), x.width, x.height, jobs[k].job.degrees)
  }

  lemma SubmitMeant(x: Transfer, jobs: seq<Admitted>, start: nat, n: nat, a: Answers)
    requires Sound(x) && !x.busy && n < |jobs| && start <= |x.log| && RefusalsMeant(x, jobs, start)
    ensures RefusalsMeant(SubmitEx(x, jobs[n].image, jobs[n].job.degrees, n, a).0, jobs, start)
  {
    hide Sound, SubmitEx, Says, Refused, PackAllowed, ImageBytes, Receipt, OwnStart;
    SoundFacts(x);
    var (y, r, _) := SubmitEx(x, jobs[n].image, jobs[n].job.degrees, n, a);
    SubmitKeeps(x, jobs[n].image, jobs[n].job.degrees, n, a);
    SubmitSays(x, jobs[n].image, jobs[n].job.degrees, n, a);
    LogGrows(x.log, y.log, start, n, r == Ok, r == Invalid, r == Busy);
    SubmitAnswersExactly(x, jobs[n].image, jobs[n].job.degrees, n, a);
  }

  lemma DrainMeant(x: Transfer, jobs: seq<Admitted>, start: nat, waited: bool)
    requires Sound(x) && !x.busy && start <= |x.log| && RefusalsMeant(x, jobs, start)
    ensures RefusalsMeant(SpiTransfer.Drain(x, waited).0, jobs, start)
  {
    hide Sound, SpiTransfer.Drain, Says, Refused, PackAllowed, ImageBytes, Receipt, OnlyWaits;
    DrainKeeps(x, waited);
    DrainSays(x, waited, 0);
    LogGrows(x.log, SpiTransfer.Drain(x, waited).0.log, start, 0, false, false, false);
  }

  lemma MoreJobs(x: Transfer, jobs: seq<Admitted>, more: seq<Admitted>, start: nat)
    requires RefusalsMeant(x, jobs, start) && jobs <= more
    ensures RefusalsMeant(x, more, start)
  {
    hide Refused, PackAllowed, ImageBytes;
  }

  lemma StepMeant(s: Pipeline, base: nat, start: nat, a: Action)
    requires Inv(s, base) && start <= |s.transfer.log| && RefusalsMeant(s.transfer, s.accepted, start)
    ensures Shaped(s) && RefusalsMeant(Next(s, a).transfer, Next(s, a).accepted, start)
  {
    hide Inv, RefusalsMeant, SubmitEx, SpiTransfer.Drain, SourceOf, Shaped;
    InvShaped(s, base);
    InvTells(s, base);
    if a.Work? && s.worker.Working? && s.worker.stage.Conversion? && !s.fault {
      ConvertedMeant(s, base, start, a.answers);
    } else if a.Work? && s.worker.Emptying? && s.active.Some? {
      DrainMeant(s.transfer, s.accepted, start, a.answers.waited);
      EmptiedTransfer(s, a.answers);
    } else {
      OtherSteps(s, a);
      MoreJobs(s.transfer, s.accepted, Next(s, a).accepted, start);
    }
  }

  lemma InvTells(s: Pipeline, base: nat)
    requires Inv(s, base)
    ensures Sound(s.transfer) && !s.transfer.busy
  {
    hide Queue, Shaped, Untouched, Cookies, Sound, Verified, TransferFits, SlotResult, EventResults;
  }

  lemma ConvertedMeant(s: Pipeline, base: nat, start: nat, a: Answers)
    requires Inv(s, base) && start <= |s.transfer.log| && RefusalsMeant(s.transfer, s.accepted, start)
    requires s.worker.Working? && s.worker.stage.Conversion? && !s.fault
    ensures Shaped(s) && RefusalsMeant(Next(s, Work(false, a)).transfer, Next(s, Work(false, a)).accepted, start)
    ensures forall woke :: Next(s, Work(woke, a)) == Next(s, Work(false, a))
  {
    hide Queue, RefusalsMeant, SubmitEx, SourceOf, Cookies, Transport, Sized, Untouched;
    RunningJob(s);
    InvTells(s, base);
    SubmitMeant(s.transfer, s.accepted, start, s.picked - 1, a);
  }

  lemma EmptiedTransfer(s: Pipeline, a: Answers)
    requires Shaped(s) && s.worker.Emptying? && s.active.Some?
    ensures Emptied(s, a).transfer == SpiTransfer.Drain(s.transfer, a.waited).0 && Emptied(s, a).accepted == s.accepted
    ensures forall woke :: Next(s, Work(woke, a)) == Emptied(s, a)
  {
    hide SpiTransfer.Drain, Sized;
  }

  lemma OtherSteps(s: Pipeline, a: Action)
    requires Shaped(s)
    requires !(a.Work? && s.worker.Working? && s.worker.stage.Conversion? && !s.fault) && !(a.Work? && s.worker.Emptying? && s.active.Some?)
    ensures Next(s, a).transfer == s.transfer && s.accepted <= Next(s, a).accepted
  {
    hide Shaped, Toil, Advance, Borrowed;
    if a.Work? { OtherToil(s, a); } else if a.Produce? { OtherAdvance(s); }
  }

  lemma OtherToil(s: Pipeline, a: Action)
    requires Shaped(s) && a.Work? && !(s.worker.Working? && s.worker.stage.Conversion? && !s.fault) && !(s.worker.Emptying? && s.active.Some?)
    ensures Toil(s, a.woke, a.answers).transfer == s.transfer && Toil(s, a.woke, a.answers).accepted == s.accepted
  {
    hide Shaped, Marked, Settling, Judging, Abandoning, Publishing, Looked, Finished, SubmitEx, SourceOf, SpiTransfer.Drain;
  }

  lemma OtherAdvance(s: Pipeline)
    requires Shaped(s)
    ensures Advance(s).transfer == s.transfer && s.accepted <= Advance(s).accepted
  {
    hide Shaped, Loads, Stored, ReleaseTaken, CompletionTaken;
    match s.producer
    case AtStore(_) => StoreAccepts(s);
    case AtRelease => TakesAcceptNone(s);
    case AtEmpty(_) => TakesAcceptNone(s);
    case _ =>
  }

  lemma StoreAccepts(s: Pipeline)
    requires Shaped(s) && s.producer.AtStore?
    ensures s.accepted <= Stored(s).accepted
  {
    hide Sized, SourceOf;
  }

  lemma TakesAcceptNone(s: Pipeline)
    requires Shaped(s)
    ensures s.producer.AtRelease? ==> ReleaseTaken(s).accepted == s.accepted
    ensures s.producer.AtEmpty? ==> CompletionTaken(s).accepted == s.accepted
  {
    hide Sized;
  }

  /** Without a transform INVALID is reported only for a frame that the packer cannot take; with the
      other laws: such a frame is never shown, and any other is only if something failed before it. */
  lemma {:induction false} InvalidMeansUnpackable(x: Transfer, memory: map<nat, seq<byte>>, actions: seq<Action>)
    requires IdleSession(x)
    ensures var s := Reached(x, memory, actions); |x.log| <= |s.transfer.log| && RefusalsMeant(s.transfer, s.accepted, |x.log|)
    decreases |actions|
  {
    hide Inv, RefusalsMeant, Next, IdleSession, Truthful;
    if actions == [] {
      NothingRefused(x, memory);
    } else {
      var before, a := Reached(x, memory, actions[..|actions| - 1]), actions[|actions| - 1];
      InvalidMeansUnpackable(x, memory, actions[..|actions| - 1]);
      StepMeant(before, |Verified(x.log)|, |x.log|, a);
      ReachedTrue(x, memory, actions);
      LogLonger(Reached(x, memory, actions), |x.log|, |Verified(x.log)|);
    }
  }

  lemma LogLonger(s: Pipeline, start: nat, base: nat)
    requires Truthful(s, start, base)
    ensures start <= |s.transfer.log|
  {
  }

  lemma NothingRefused(x: Transfer, memory: map<nat, seq<byte>>)
    ensures var s := SpiPipeline.Created(x, memory); s.transfer == x && RefusalsMeant(x, s.accepted, |x.log|)
  {
  }
}
