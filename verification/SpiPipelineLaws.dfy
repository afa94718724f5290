/** What the pipeline promises over every run. */
module SpiPipelineLaws {
  import opened Prelude
  import opened SpiFrame
  import opened SpiTransfer
  import opened SpiPipeline
  import opened SpiPipelineRun

  /** The delivered events are the first ones of an unbounded queue of the accepted jobs: each kind
      in submission order, a job's release before its completion, at most two jobs untaken. */
  predicate FirstInFirstOut(s: Pipeline)
  {
    && |s.completed| <= |s.released| <= s.picked <= |s.accepted| <= |s.completed| + 2
    && (forall k :: 0 <= k < |s.released| ==> s.released[k].cookie == s.accepted[k].job.cookie)
    && (forall k :: 0 <= k < |s.completed| ==> s.completed[k].cookie == s.accepted[k].job.cookie)
  }

  lemma EveryRunIsAQueue(x: Transfer, memory: map<nat, seq<byte>>, actions: seq<Action>)
    requires IdleSession(x)
    ensures FirstInFirstOut(Reached(x, memory, actions))
  {
    hide Reached, FirstInFirstOut;
    InvIsAQueue(Reached(x, memory, actions), |Verified(x.log)|);
  }

  lemma InvIsAQueue(s: Pipeline, base: nat)
    requires Inv(s, base)
    ensures FirstInFirstOut(s)
  {
    hide Untouched, Transport, Shaped;
    CountsOrdered(s);
  }

  /** A completion reported OK was waited for: the transport accepted that frame's own start, holding
      its packed image when no transform is installed, and that start's wait succeeded. A release
      reported OK means that the frame was handed to the transport. */
  lemma CompletedMeansShown(x: Transfer, memory: map<nat, seq<byte>>, actions: seq<Action>, k: nat)
    requires IdleSession(x)
    ensures ResultsMeant(Reached(x, memory, actions), |Verified(x.log)|, k)
  {
    hide Reached, ResultsMeant;
    InvMeansShown(Reached(x, memory, actions), |Verified(x.log)|, k);
  }

  /** What the events of job k say about the transport. */
  ghost predicate ResultsMeant(s: Pipeline, base: nat, k: nat)
  {
    && (k < |s.completed| && s.completed[k].result == Ok ==> Confirmed(s.transfer, base, s.accepted, k))
    && (k < |s.released| && s.released[k].result == Ok ==> Handed(s.transfer, k))
  }

  lemma InvMeansShown(s: Pipeline, base: nat, k: nat)
    requires Inv(s, base)
    ensures ResultsMeant(s, base, k)
  {
    hide Untouched, Queue, Shaped, Confirmed, Handed, Verified, Sound, TransferFits, SlotResult;
  }

  /** The job whose transfer is outstanding, at every position of the worker: the current one once its
      submission was answered OK, else the active slot's unless that was just waited for. */
  function UnderWay(s: Pipeline): Option<int>
  {
    if s.worker.Working? && !s.worker.stage.Mark? && !s.worker.stage.Conversion? && Answer(s) == Ok then Some(s.picked - 1)
    else if s.active.None? || (s.worker.Working? && s.worker.stage == Settle(true)) then None
    else Some(OwnerJob(s))
  }

  /** A fault is latched, or was answered and is about to be. */
  predicate Faulted(s: Pipeline)
  {
    s.fault || s.worker.Faulting? || (s.worker.Working? && s.worker.stage.Settle? && Answer(s) == Fault)
    || (s.worker.Working? && s.worker.stage.Judge? && Answer(s) == Fault)
  }

  /** While nothing failed a transfer is outstanding exactly for the job under way, wherever the worker
      is, also between marking and converting the next frame; and from that job's start until its wait
      the buffer under DMA holds exactly the packed image of that job. */
  lemma UnderDma(x: Transfer, memory: map<nat, seq<byte>>, actions: seq<Action>)
    requires IdleSession(x)
    ensures Sound(Reached(x, memory, actions).transfer) && DmaHolds(Reached(x, memory, actions))
  {
    hide Reached, DmaHolds, Sound;
    InvDma(Reached(x, memory, actions), |Verified(x.log)|);
  }

  ghost predicate DmaHolds(s: Pipeline)
    requires Sound(s.transfer)
  {
    !Faulted(s) ==>
      && (s.transfer.pending <==> UnderWay(s).Some?)
      && (UnderWay(s).Some? ==>
            && 0 <= UnderWay(s).value < |s.accepted| && s.transfer.active.Some?
            && ImageBytes(s.transfer.width, s.transfer.height) <= |Contents(s.transfer, s.transfer.active.value)|
            && (!s.transfer.transform ==> ShowsJob(s.transfer, s.accepted, UnderWay(s).value)))
  }

  lemma InvDma(s: Pipeline, base: nat)
    requires Inv(s, base)
    ensures Sound(s.transfer) && DmaHolds(s)
  {
    hide Untouched, Queue, Shaped, Confirmed, Handed, SlotResult, EventResults, Cookies, Packed, PackAllowed, Tied, OwnerJob;
    if !Faulted(s) && UnderWay(s).Some? {
      TiedShows(s.transfer, s.accepted, UnderWay(s).value);
    }
    if !Faulted(s) { TiedPends(s.transfer, s.accepted, s.picked - 1); }
  }

  lemma TiedPends(x: Transfer, jobs: seq<Admitted>, k: int)
    ensures Tied(x, jobs, k) ==> x.pending
  {
    hide OwnStart;
  }

  ghost predicate ShowsJob(x: Transfer, jobs: seq<Admitted>, k: int)
  {
    && 0 <= k < |jobs| && Sized(x) && x.active.Some?
    && PackAllowed(jobs[k].image, ImageBytes(x.width, x.height), x.width, x.height, jobs[k].job.degrees)
    && Contents(x, x.active.value)[..ImageBytes(x.width, x.height)]
       == Packed(jobs[k].image, x.width, x.height, jobs[k].job.degrees, x.swap)
  }

  lemma TiedShows(x: Transfer, jobs: seq<Admitted>, k: int)
    requires Sound(x) && Tied(x, jobs, k)
    ensures 0 <= k < |jobs| && x.pending && x.active.Some?
    ensures ImageBytes(x.width, x.height) <= |Contents(x, x.active.value)|
    ensures !x.transform ==> ShowsJob(x, jobs, k)
  {
    hide Disciplined, Failed, Outstanding, Packed, PackAllowed;
  }

  /** Once either fault is latched no step of either thread calls the transport or converts again. */
  lemma SilentAfterFault(x: Transfer, memory: map<nat, seq<byte>>, actions: seq<Action>, a: Action)
    requires IdleSession(x)
    ensures var s := Reached(x, memory, actions);
            && Shaped(s)
            && (s.fault || s.transfer.fault ==> Next(s, a).transfer.log == s.transfer.log)
            && (s.fault ==> Next(s, a).fault)
  {
    hide Reached;
    FaultSilences(Reached(x, memory, actions), |Verified(x.log)|, a);
  }

  lemma FaultSilences(s: Pipeline, base: nat, a: Action)
    requires Inv(s, base)
    ensures s.fault || s.transfer.fault ==> Next(s, a).transfer.log == s.transfer.log
    ensures s.fault ==> Next(s, a).fault
  {
    hide Queue, Untouched, Cookies, Loads, Stored, ReleaseTaken, CompletionTaken, Marked, Settling, Judging, Abandoning,
         Publishing, Looked, Finished, SubmitEx, SpiTransfer.Drain, Sized, Begin, Sound, Verified, Outstanding, SlotResult,
         EventResults, ActiveTied, Confirmed, StageFits;
    var x := s.transfer;
    if a.Work? && s.worker.Working? && !s.fault {
      var job := s.slots[s.worker.index].job;
      SubmitKeeps(x, SourceOf(s.memory, job.frame), job.degrees, s.picked - 1, a.answers);
    }
    if a.Work? && s.worker.Emptying? {
      DrainKeeps(x, a.answers.waited);
    }
  }

  // ----- shutdown -----

  /** When the worker has published its exit every accepted job was run, every slot is empty or
      done and no slot owns the transport; and a successful close means that every event of every
      accepted job was delivered. */
  lemma ExitLosesNothing(x: Transfer, memory: map<nat, seq<byte>>, actions: seq<Action>)
    requires IdleSession(x)
    ensures var s := Reached(x, memory, actions);
            && (s.exited ==> Settled(s))
            && (s.closed ==> s.exited && |s.completed| == |s.released| == s.picked == |s.accepted|)
  {
    hide Reached, Untouched, Transport, Cookies;
    GoneIsSettled(Reached(x, memory, actions));
    CountsOrdered(Reached(x, memory, actions));
  }

  predicate Settled(s: Pipeline)
  {
    && |s.slots| == 2 && s.picked == |s.accepted| && s.active.None?
    && (s.slots[0].phase == Empty || s.slots[0].phase == Done) && (s.slots[1].phase == Empty || s.slots[1].phase == Done)
  }

  lemma GoneIsSettled(s: Pipeline)
    requires Queue(s) && Shaped(s)
    ensures s.exited ==> Settled(s)
  {
    hide ProducerFits;
  }

  /** One call of the producer, run to its return. */
  function Call(s: Pipeline, a: Action): Pipeline
    requires Shaped(s) && s.producer.Free? && !a.Work? && !a.Produce?
  {
    var b := Begin(s, a);
    if !Shaped(b) then b
    else
      var c := Advance(b);
      if !Shaped(c) then c
      else
        var d := Advance(c);
        if !Shaped(d) then d else Advance(d)
  }

  /** After exit: the producer is between calls and not yet done. */
  ghost predicate Winding(s: Pipeline, base: nat)
  {
    Inv(s, base) && s.exited && s.producer.Free? && !s.closed
  }

  lemma CallKeeps(s: Pipeline, base: nat, a: Action)
    requires Inv(s, base) && s.producer.Free? && !a.Work? && !a.Produce?
    ensures var b := Begin(s, a);
            && Shaped(b) && Inv(b, base) && Shaped(Advance(b)) && Inv(Advance(b), base)
            && Shaped(Advance(Advance(b))) && Inv(Advance(Advance(b)), base)
            && Call(s, a) == Advance(Advance(Advance(b))) && Inv(Call(s, a), base)
  {
    hide Inv, Shaped, Begin, Advance;
    var b := Begin(s, a);
    InvShaped(s, base);
    BeginKeeps(s, base, a);
    InvShaped(b, base);
    AdvanceKeeps(b, base);
    InvShaped(Advance(b), base);
    AdvanceKeeps(Advance(b), base);
    InvShaped(Advance(Advance(b)), base);
    AdvanceKeeps(Advance(Advance(b)), base);
  }

  /** Which event is next once the worker is gone. */
  lemma NextEvent(s: Pipeline)
    requires Queue(s) && Shaped(s) && s.exited && |s.completed| < |s.accepted|
    ensures var slot := s.slots[s.release];
            |s.released| < |s.accepted| ==> slot.phase == Done && !slot.released
    ensures var slot, other := s.slots[s.take], s.slots[s.release];
            |s.released| == |s.accepted| ==>
              slot.phase == Done && slot.released && (other.phase == Empty || (other.phase == Done && other.released))
  {
    hide ProducerFits;
  }

  /** After exit every take delivers exactly one more event until all are delivered. */
  lemma TakeDelivers(s: Pipeline, base: nat)
    requires Winding(s, base) && |s.completed| < |s.accepted|
    ensures Shaped(s)
    ensures var u := Call(s, Take);
            && Winding(u, base) && u.accepted == s.accepted
            && |u.released| + |u.completed| == |s.released| + |s.completed| + 1
  {
    hide Inv, Queue, Shaped, Untouched, Transport, Cookies, Begin, Advance;
    InvShaped(s, base);
    InvQueue(s, base);
    NextEvent(s);
    CountsOrdered(s);
    CallKeeps(s, base, Take);
    TakeSteps(s);
  }

  lemma InvQueue(s: Pipeline, base: nat)
    requires Inv(s, base)
    ensures Queue(s)
  {
  }

  /** The steps of one take: the release of the next job, or else the completion of the oldest. */
  lemma TakeSteps(s: Pipeline)
    requires Shaped(s) && s.producer.Free? && !s.closed
    requires var b := Begin(s, Take);
             Shaped(b) && Shaped(Advance(b)) && Shaped(Advance(Advance(b)))
    ensures var u, slot, next := Advance(Advance(Advance(Begin(s, Take)))), s.slots[s.release], s.slots[s.take];
            && u.producer.Free? && u.closed == s.closed && u.exited == s.exited && u.accepted == s.accepted
            && if (slot.phase == Submitted || slot.phase == Done) && !slot.released
               then |u.released| == |s.released| + 1 && u.completed == s.completed
               else |u.released| == |s.released|
                    && |u.completed| == |s.completed| + if next.phase == Done && next.released then 1 else 0
  {
    hide Sized, Shaped, Advance;
    var b := Begin(s, Take);
    var c := Advance(b);
    assert c == ReleaseTaken(b) by { AdvanceAtRelease(b); }
    if c.producer.Free? { AdvanceFree(c); } else { CompletionSteps(c); }
  }

  lemma AdvanceAtRelease(s: Pipeline)
    requires Shaped(s) && s.producer.AtRelease?
    ensures Advance(s) == ReleaseTaken(s)
  {
  }

  lemma AdvanceFree(s: Pipeline)
    requires Shaped(s) && s.producer.Free?
    ensures Advance(s) == s
  {
  }

  lemma CompletionSteps(s: Pipeline)
    requires Shaped(s) && s.producer.AtTake? && Shaped(Advance(s))
    ensures var u, next := Advance(Advance(s)), s.slots[s.take];
            && u.producer.Free? && u.closed == s.closed && u.exited == s.exited && u.accepted == s.accepted
            && u.released == s.released
            && |u.completed| == |s.completed| + if next.phase == Done && next.released then 1 else 0
  {
    hide Sized, Shaped;
  }

  /** Repeated takes. */
  function Takes(s: Pipeline, n: nat): Pipeline
    decreases n
  {
    if n == 0 || !Shaped(s) || !s.producer.Free? then s else Takes(Call(s, Take), n - 1)
  }

  /** Nothing is lost at shutdown: after exit, one take per undelivered event delivers them all and
      close then succeeds; before that it does not. */
  lemma {:induction false} ShutdownCompletes(s: Pipeline, base: nat)
    requires Winding(s, base)
    ensures |s.completed| <= |s.released| <= |s.accepted|
    ensures var u := Takes(s, 2 * |s.accepted| - |s.released| - |s.completed|);
            && Winding(u, base) && u.accepted == s.accepted && |u.completed| == |u.released| == |s.accepted|
            && Shaped(u) && Call(u, Close).closed
    ensures Shaped(s) && (|s.completed| < |s.accepted| ==> !Call(s, Close).closed)
    decreases 2 * |s.accepted| - |s.released| - |s.completed|
  {
    hide Inv, Queue, Shaped, Begin, Advance, Call;
    InvShaped(s, base);
    InvQueue(s, base);
    CountsOrdered(s);
    CloseExactly(s, base);
    if |s.completed| < |s.accepted| {
      TakeDelivers(s, base);
      ShutdownCompletes(Call(s, Take), base);
    }
  }

  lemma CloseExactly(s: Pipeline, base: nat)
    requires Winding(s, base)
    ensures Shaped(s) && (Call(s, Close).closed <==> |s.completed| == |s.accepted|)
  {
    hide Inv, Queue, Shaped, Untouched, Transport, Cookies;
    InvShaped(s, base);
    InvQueue(s, base);
    SlotsTell(s);
    CallKeeps(s, base, Close);
  }
}
