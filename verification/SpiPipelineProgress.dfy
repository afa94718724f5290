/** What the pipeline gets done: which event a take delivers, and that the worker alone finishes every
    accepted job, whatever the session answers. */
module SpiPipelineProgress {
  import opened Prelude
  import opened SpiFrame
  import opened SpiTransfer
  import opened SpiPipeline
  import opened SpiPipelineRun
  import opened SpiPipelineLaws

  // ----- taking -----

  /** Jobs whose running has ended: their sources can be released. */
  function EndedJobs(s: Pipeline): int
  {
    Ran(s.picked, s.worker)
  }

  /** An uninterrupted take delivers the release of the oldest unreleased job if its running has ended;
      else the completion of the oldest untaken job if it was released and does not own the transport;
      else nothing. */
  lemma TakeExactly(s: Pipeline, base: nat)
    requires Inv(s, base) && s.producer.Free? && !s.closed
    ensures Shaped(s)
    ensures var u, r, t := SpiPipelineLaws.Call(s, Take), |s.released|, |s.completed|;
            && (r < EndedJobs(s) <==> u.reply.Released?)
            && (u.reply.Completed? <==> r >= EndedJobs(s) && t < r && OwnerJob(s) != t)
            && (!u.reply.Released? && !u.reply.Completed? ==> u.reply == Nothing)
            && r <= |s.accepted| && t <= |s.accepted|
            && (u.reply.Released? ==> r < |s.accepted| && u.reply.event.cookie == s.accepted[r].job.cookie && |u.released| == r + 1)
            && (u.reply.Completed? ==> t < |s.accepted| && u.reply.event.cookie == s.accepted[t].job.cookie && |u.completed| == t + 1)
  {
    hide Inv, Queue, Shaped, Begin, Advance, SpiPipelineLaws.Call;
    InvShaped(s, base);
    InvQueue(s, base);
    CountsOrdered(s);
    TakeReply(s);
    SlotsReady(s);
  }

  /** Which slot phases stand for which jobs. */
  lemma SlotsReady(s: Pipeline)
    requires Queue(s) && Shaped(s)
    ensures var slot := s.slots[s.release];
            ((slot.phase == Submitted || slot.phase == Done) && !slot.released) <==> |s.released| < EndedJobs(s)
    ensures var slot := s.slots[s.take];
            |s.released| >= EndedJobs(s) ==> ((slot.phase == Done && slot.released) <==> |s.completed| < |s.released| && OwnerJob(s) != |s.completed|)
    ensures |s.released| < EndedJobs(s) ==> |s.released| < |s.accepted| && s.slots[s.release].job == s.accepted[|s.released|].job
    ensures |s.completed| < |s.released| ==> |s.completed| < |s.accepted| && s.slots[s.take].job == s.accepted[|s.completed|].job
  {
    hide ProducerFits, WorkerFits;
  }

  lemma TakeReply(s: Pipeline)
    requires Shaped(s) && s.producer.Free? && !s.closed
    ensures var u, slot, oldest := SpiPipelineLaws.Call(s, Take), s.slots[s.release], s.slots[s.take];
            if (slot.phase == Submitted || slot.phase == Done) && !slot.released
            then u.reply == Released(Event(slot.job.cookie, slot.submitted)) && |u.released| == |s.released| + 1
            else if oldest.phase == Done && oldest.released
            then u.reply == Completed(Event(oldest.job.cookie, oldest.completed)) && |u.completed| == |s.completed| + 1
            else u.reply == Nothing
  {
    hide Sized, ReleaseTaken, Begin;
    TakeStarts(s);
    var c := ReleaseTaken(s.(producer := AtRelease));
    ReleaseReply(s.(producer := AtRelease));
    if c.producer.AtTake? {
      var d := Advance(c);
      assert Shaped(d) && (d.producer.Free? || d.producer.AtEmpty?);
    }
  }

  lemma TakeStarts(s: Pipeline)
    requires Shaped(s) && s.producer.Free? && !s.closed
    ensures Begin(s, Take) == s.(producer := AtRelease) && Shaped(s.(producer := AtRelease))
  {
    hide Sized;
  }

  lemma ReleaseReply(s: Pipeline)
    requires Shaped(s) && s.producer.AtRelease?
    ensures Shaped(ReleaseTaken(s))
    ensures var c, slot := ReleaseTaken(s), s.slots[s.release];
            if (slot.phase == Submitted || slot.phase == Done) && !slot.released
            then c.producer.Free? && c.reply == Released(Event(slot.job.cookie, slot.submitted)) && |c.released| == |s.released| + 1
            else c == s.(producer := AtTake)
  {
    hide Sized;
  }

  // ----- the worker's progress -----

  /** Nothing is left to do: every accepted job was run and none owns the transport; and the worker
      sleeps, or has exited once stopped. */
  predicate AllRun(s: Pipeline)
  {
    s.picked == |s.accepted| && s.active.None? && if s.stopping then s.worker.Gone? else s.worker.Asleep?
  }

  function Waiting(s: Pipeline): int
  {
    |s.accepted| - s.picked
  }

  /** The round that is under way may end without all being run, so another one is needed. */
  predicate Stale(s: Pipeline)
  {
    match s.worker
    case Looking(tries, ran, woke, last) => !last && !ran && (woke || (tries == 2 && Waiting(s) > 0))
    case Checking(ran, woke) => !ran && (woke || Waiting(s) > 0)
    case Emptying(last) => !last && (Waiting(s) > 0 || s.stopping)
    case Faulting(_, last) => !last && (Waiting(s) > 0 || s.stopping)
    case Finishing(_, _, last) => !last && (Waiting(s) > 0 || s.stopping)
    case _ => false
  }

  /** The last round, after stop was seen. */
  predicate Last(w: Worker)
  {
    match w
    case Looking(_, _, _, last) => last
    case Working(_, _, _, _, last) => last
    case Emptying(last) => last
    case Faulting(_, last) => last
    case Finishing(_, _, last) => last
    case Leaving => true
    case Gone => true
    case _ => false
  }

  function Position(w: Worker): nat
  {
    match w
    case Asleep => 13
    case Looking(_, ran, _, _) => if ran then 16 else 12
    case Working(stage, _, _, _, _) => StagePosition(stage)
    case Checking(ran, _) => if ran then 15 else 11
    case Emptying(_) => 10
    case Faulting(_, _) => 39
    case Finishing(_, _, _) => 38
    case Leaving => 5
    case Gone => 4
  }

  function StagePosition(stage: Stage): nat
  {
    match stage
    case Mark => 60
    case Conversion => 59
    case Settle(_) => 58
    case Judge => 57
    case Abandon => 56
    case Publish => 55
  }

  /** Steps that the worker needs at most. */
  function Rank(s: Pipeline): int
  {
    if AllRun(s) then 0
    else
      1 + (if Stale(s) then 400 else 0) + (if Last(s.worker) then 0 else 200) + 60 * Waiting(s)
      + (if s.active.Some? then 30 else 0) + Position(s.worker)
  }

  /** Every step of a worker that is not woken brings the end nearer. */
  lemma StepAdvances(s: Pipeline, base: nat, a: Answers)
    requires Inv(s, base) && !AllRun(s)
    ensures Shaped(s)
    ensures var u := Toil(s, false, a);
            && 0 <= Rank(u) < Rank(s) && u.accepted == s.accepted && u.producer == s.producer && u.released == s.released && u.completed == s.completed
  {
    hide Inv, Queue, Shaped, Toil;
    InvShaped(s, base);
    InvQueue(s, base);
    CountsOrdered(s);
    WorkerStays(s, a);
    if s.worker.Working? { WorkingAdvances(s, a); }
    else if s.worker.Looking? { LookingAdvances(s, a); }
    else { OthersAdvance(s, a); }
  }

  lemma WorkerStays(s: Pipeline, a: Answers)
    requires Shaped(s)
    ensures var u := Toil(s, false, a);
            u.accepted == s.accepted && u.producer == s.producer && u.released == s.released && u.completed == s.completed
  {
    hide Shaped;
  }

  lemma WorkingAdvances(s: Pipeline, a: Answers)
    requires Queue(s) && Shaped(s) && s.worker.Working? && s.picked <= |s.accepted|
    ensures 0 <= Rank(Toil(s, false, a)) < Rank(s)
  {
    hide Queue, Shaped, Process, Looked, Emptied, Finished;
    ProcessIs(s, a);
    if s.worker.stage.Publish? { PublishFrees(s); }
  }

  /** What a stage does to the worker's position and to the slot that owns the transport. */
  lemma ProcessIs(s: Pipeline, a: Answers)
    requires Shaped(s) && s.worker.Working?
    ensures s.worker.index < |s.slots|
    ensures var u, w := Process(s, a), s.worker;
            && u.picked == s.picked && u.accepted == s.accepted && u.stopping == s.stopping
            && (if w.stage.Publish?
                then u.worker == Looking(w.tries + 1, true, w.woke, w.last)
                     && (u.active == s.active || (u.active.Some? && s.slots[w.index].submitted == Ok))
                else u.worker.Working? && StagePosition(u.worker.stage) < StagePosition(w.stage) && u.worker.last == w.last
                     && (u.active == s.active || u.active.None?))
  {
    hide Shaped, Marked, Converting, Settling, Judging, Abandoning, Publishing;
    WorkingIndex(s);
    match s.worker.stage
    case Mark => MarkedIs(s);
    case Conversion => ConvertingIs(s, a);
    case Settle(previous) => SettlingIs(s, previous);
    case Judge => JudgingIs(s);
    case Abandon => AbandoningIs(s);
    case Publish => PublishingIs(s);
  }

  lemma WorkingIndex(s: Pipeline)
    requires Shaped(s) && s.worker.Working?
    ensures s.worker.index < |s.slots|
  {
  }

  lemma MarkedIs(s: Pipeline)
    requires Shaped(s) && s.worker.Working?
    ensures var u := Marked(s); u.picked == s.picked && u.active == s.active && u.worker == s.worker.(stage := Conversion)
  {
    hide Sized;
  }

  lemma ConvertingIs(s: Pipeline, a: Answers)
    requires Shaped(s) && s.worker.Working?
    ensures var u := Converting(s, a);
            u.picked == s.picked && u.active == s.active && u.worker.Working? && u.worker.stage.Settle? && u.worker.last == s.worker.last
  {
    hide Sized, Handover;
  }

  lemma SettlingIs(s: Pipeline, previous: bool)
    requires Shaped(s) && s.worker.Working?
    ensures var u := Settling(s, previous);
            && u.picked == s.picked && (u.active == s.active || u.active.None?) && u.worker == s.worker.(stage := Judge)
  {
    hide Sized;
  }

  lemma JudgingIs(s: Pipeline)
    requires Shaped(s) && s.worker.Working?
    ensures var u := Judging(s);
            && u.picked == s.picked && u.active == s.active
            && (u.worker == s.worker.(stage := Abandon) || u.worker == s.worker.(stage := Publish))
  {
    hide Sized;
  }

  lemma AbandoningIs(s: Pipeline)
    requires Shaped(s) && s.worker.Working?
    ensures var u := Abandoning(s);
            u.picked == s.picked && (u.active == s.active || u.active.None?) && u.worker == s.worker.(stage := Publish)
  {
    hide Sized;
  }

  lemma PublishingIs(s: Pipeline)
    requires Shaped(s) && s.worker.Working?
    ensures var u, w := Publishing(s), s.worker;
            && u.picked == s.picked && u.worker == Looking(w.tries + 1, true, w.woke, w.last)
            && (u.active == s.active || (u.active.Some? && s.slots[w.index].submitted == Ok))
  {
    hide Sized;
  }

  lemma PublishFrees(s: Pipeline)
    requires Queue(s) && s.worker.Working? && s.worker.stage.Publish?
    ensures s.worker.index < |s.slots| && (s.slots[s.worker.index].submitted == Ok ==> s.active.None?)
  {
    hide SlotFits, ProducerFits;
  }

  lemma LookingAdvances(s: Pipeline, a: Answers)
    requires Queue(s) && Shaped(s) && s.worker.Looking? && s.picked <= |s.accepted|
    ensures 0 <= Rank(Toil(s, false, a)) < Rank(s)
  {
    hide Queue, Shaped, Looked, Process, Emptied, Finished;
    NextQueued(s);
    LookedIs(s);
    if s.worker.tries == 2 || s.slots[s.run].phase != Queued { LooksAway(s); }
  }

  lemma LooksAway(s: Pipeline)
    requires s.worker.Looking? && s.picked <= |s.accepted| && (s.worker.last ==> s.stopping && |s.accepted| - s.picked <= 2 - s.worker.tries)
    requires s.worker.tries == 2 || s.picked == |s.accepted|
    ensures var w := s.worker;
            0 <= Rank(s.(worker := if w.last then Emptying(true) else Checking(w.ran, w.woke))) < Rank(s)
  {
  }

  lemma LookedIs(s: Pipeline)
    requires Shaped(s) && s.worker.Looking?
    ensures s.run < |s.slots|
    ensures var w := s.worker;
            Looked(s) == if w.tries == 2 || s.slots[s.run].phase != Queued
                         then s.(worker := if w.last then Emptying(true) else Checking(w.ran, w.woke))
                         else s.(run := 1 - s.run, picked := s.picked + 1, worker := Working(Mark, s.run, w.tries, w.woke, w.last))
  {
    hide Sized;
  }

  /** The next slot to run is queued exactly when a job waits; the last round leaves none. */
  lemma NextQueued(s: Pipeline)
    requires Queue(s) && Shaped(s) && s.worker.Looking?
    ensures s.slots[s.run].phase == Queued <==> s.picked < |s.accepted|
    ensures s.worker.last ==> s.stopping && |s.accepted| - s.picked <= 2 - s.worker.tries
    ensures s.worker.tries <= 2
  {
    hide ProducerFits;
  }

  lemma OthersAdvance(s: Pipeline, a: Answers)
    requires Queue(s) && Shaped(s) && !s.worker.Working? && !s.worker.Looking? && s.picked <= |s.accepted| && !AllRun(s)
    ensures 0 <= Rank(Toil(s, false, a)) < Rank(s)
  {
    hide Queue, Shaped, Looked, Process, Emptied, Finished;
    RoundEnds(s);
    EndsAre(s, a);
  }

  lemma EndsAre(s: Pipeline, a: Answers)
    requires Shaped(s)
    ensures s.worker.Emptying? ==>
              var u, last := Emptied(s, a), s.worker.last;
              && u.picked == s.picked && u.accepted == s.accepted && u.stopping == s.stopping
              && if s.active.None? then u == s.(worker := AfterDrain(last))
                 else u.active.None? && (u.worker == Finishing(s.active.value, Ok, last) || u.worker == Faulting(s.active.value, last))
    ensures s.worker.Finishing? ==>
              var u := Finished(s);
              && u.picked == s.picked && u.accepted == s.accepted && u.stopping == s.stopping && u.active == s.active
              && u.worker == AfterDrain(s.worker.last)
  {
    hide Sized, SpiTransfer.Drain;
  }

  lemma RoundEnds(s: Pipeline)
    requires Queue(s)
    ensures s.worker.Gone? || s.worker.Leaving? ==> s.stopping && s.picked == |s.accepted| && s.active.None?
    ensures s.worker.Faulting? || s.worker.Finishing? ==> s.active.None?
    ensures (s.worker.Emptying? || s.worker.Faulting? || s.worker.Finishing?) && s.worker.last ==> s.stopping && s.picked == |s.accepted|
  {
    hide SlotFits, ProducerFits;
  }

  /** The worker alone, step after step. */
  function Alone(s: Pipeline, answers: seq<Answers>): Pipeline
    decreases |answers|
  {
    if answers == [] || !Shaped(s) then s else Alone(Toil(s, false, answers[0]), answers[1..])
  }

  /** Whatever the session answers, the worker alone brings every reachable state, within a number of
      steps known beforehand, to one in which every accepted job was run and none owns the transport;
      once stopped it has then exited. */
  lemma {:induction false} WorkerFinishes(s: Pipeline, base: nat, answers: seq<Answers>) returns (n: nat)
    requires Inv(s, base) && |answers| >= Rank(s)
    ensures n <= |answers| && AllRun(Alone(s, answers[..n])) && Inv(Alone(s, answers[..n]), base)
    ensures Alone(s, answers[..n]).accepted == s.accepted && Alone(s, answers[..n]).producer == s.producer
    ensures 0 <= Rank(s) <= 811
    decreases |answers|
  {
    hide Inv, Shaped, Toil, AllRun, Rank;
    RankBound(s, base);
    if AllRun(s) {
      n := 0;
    } else {
      AlonePositive(s);
      StepAdvances(s, base, answers[0]);
      StepKeeps(s, base, Work(false, answers[0]));
      n := WorkerFinishes(Toil(s, false, answers[0]), base, answers[1..]);
      n := n + 1;
      assert answers[..n][1..] == answers[1..][..n - 1];
    }
  }

  lemma AlonePositive(s: Pipeline)
    ensures !AllRun(s) && Waiting(s) >= 0 ==> Rank(s) > 0
  {
  }

  lemma RankBound(s: Pipeline, base: nat)
    requires Inv(s, base)
    ensures 0 <= Rank(s) <= 811 && Waiting(s) >= 0
  {
    hide Inv, Queue, Stale;
    InvQueue(s, base);
    CountsOrdered(s);
  }

  /** When all was run, takes deliver every event that is owed: nothing is delivered only when nothing is. */
  lemma IdleDelivers(s: Pipeline, base: nat)
    requires Inv(s, base) && AllRun(s) && s.producer.Free? && !s.closed
    ensures Shaped(s)
    ensures SpiPipelineLaws.Call(s, Take).reply == Nothing <==> |s.completed| == |s.released| == |s.accepted|
  {
    hide Inv, SpiPipelineLaws.Call;
    InvShaped(s, base);
    InvQueue(s, base);
    CountsOrdered(s);
    TakeExactly(s, base);
  }
}
