/** The pipeline object: each operation, run without interruption, is a sequence of the machine's steps.

    The session appears by its specification and the application's memory as a map; the position of
    each thread and the history are ghost. */
module SpiPipelineRing {
  import opened Prelude
  import opened SpiFrame
  import T = SpiTransfer
  import P = SpiPipeline
  import R = SpiPipelineRun
  import L = SpiPipelineLaws

  // ----- whole operations as steps -----

  /** A number of steps of the worker, with the same answers from the session. */
  function Steps(s: P.Pipeline, a: T.Answers, n: nat): P.Pipeline
    decreases n
  {
    if n == 0 || !P.Shaped(s) then s else Steps(P.Toil(s, false, a), a, n - 1)
  }

  /** Running a picked slot: mark it, convert and start, settle the previous one, judge, give up the
      active one if that failed, publish. */
  function Processed(s: P.Pipeline, a: T.Answers): P.Pipeline
  {
    var u := Steps(s, a, 4);
    Steps(u, a, if u.worker.Working? && u.worker.stage.Abandon? then 2 else 1)
  }

  /** One attempt to run a slot; a slot that is not queued leaves everything as it is. */
  function RanNext(s: P.Pipeline, a: T.Answers): P.Pipeline
    requires P.Shaped(s)
  {
    if s.slots[s.run].phase != P.Queued then s else Processed(Steps(s, a, 1), a)
  }

  /** Waiting for the outstanding transfer, if there is one. */
  function Drained(s: P.Pipeline, a: T.Answers): P.Pipeline
  {
    var u := Steps(s, a, 1);
    Steps(u, a, if u.worker.Faulting? then 2 else if u.worker.Finishing? then 1 else 0)
  }

  lemma StepsMore(s: P.Pipeline, a: T.Answers, n: nat)
    requires P.Shaped(s)
    ensures Steps(s, a, n + 1) == Steps(P.Toil(s, false, a), a, n)
    ensures Steps(s, a, 0) == s
  {
    hide P.Shaped, P.Toil;
  }

  /** However many steps, all that every step keeps is kept. */
  lemma {:induction false} StepsKeep(s: P.Pipeline, base: nat, a: T.Answers, n: nat)
    requires R.Inv(s, base)
    ensures P.Shaped(s) && R.Inv(Steps(s, a, n), base)
    decreases n
  {
    hide R.Inv, P.Shaped, P.Toil;
    R.InvShaped(s, base);
    if n > 0 {
      R.StepKeeps(s, base, P.Work(false, a));
      StepsKeep(P.Toil(s, false, a), base, a, n - 1);
    }
  }

  /** An uninterrupted attempt or drain keeps the invariant of every interleaving. */
  lemma RunsKeep(s: P.Pipeline, base: nat, a: T.Answers)
    requires R.Inv(s, base)
    ensures P.Shaped(s) && R.Inv(RanNext(s, a), base) && R.Inv(Drained(s, a), base)
  {
    hide R.Inv, P.Shaped, Steps;
    R.InvShaped(s, base);
    ShapedSlots(s);
    StepsKeep(s, base, a, 1);
    var u := Steps(s, a, 1);
    StepsKeep(u, base, a, if u.worker.Faulting? then 2 else if u.worker.Finishing? then 1 else 0);
    StepsKeep(u, base, a, 4);
    var v := Steps(u, a, 4);
    StepsKeep(v, base, a, if v.worker.Working? && v.worker.stage.Abandon? then 2 else 1);
  }

  lemma ShapedSlots(s: P.Pipeline)
    requires P.Shaped(s)
    ensures |s.slots| == 2 && s.run < 2 && s.put < 2 && s.release < 2 && s.take < 2 && (s.active.Some? ==> s.active.value < 2)
  {
  }

  class Ring {
    const slots: array<P.Slot>
    var put: nat
    var release: nat
    var take: nat
    var run: nat
    var active: Option<nat>
    var stopping: bool
    var exited: bool
    var fault: bool
    var session: T.Transfer
    var memory: map<nat, seq<byte>>
    var picked: nat // names the jobs in the session's log
    ghost var closed: bool
    ghost var worker: P.Worker
    ghost var producer: P.Producer
    ghost var reply: P.Reply
    ghost var accepted: seq<P.Admitted>
    ghost var released: seq<P.Event>
    ghost var completed: seq<P.Event>

    ghost function State(): P.Pipeline
      reads this, slots
    {
      P.Pipeline(slots[..], put, release, take, run, active, stopping, exited, fault, closed, session, memory,
                 worker, producer, reply, accepted, picked, released, completed)
    }

    ghost predicate Valid()
      reads this, slots
    {
      slots.Length == 2 && P.Shaped(State())
    }

    constructor (session: T.Transfer, memory: map<nat, seq<byte>>)
      requires T.Sized(session)
      ensures Valid() && fresh(slots) && State() == P.Created(session, memory)
    {
      var blank := P.Slot(P.Empty, false, P.Job(P.Frame(0, 0, 0, 0), 0, 0), T.Ok, T.Ok);
      slots := new P.Slot[2](_ => blank);
      put, release, take, run, active := 0, 0, 0, 0, None;
      stopping, exited, fault, closed := false, false, false, false;
      this.session, this.memory := session, memory;
      worker, producer, reply, accepted, picked, released, completed := P.Asleep, P.Free, P.NoReply, [], 0, [], [];
    }

    // ----- the worker -----

    method Complete(index: nat, result: T.Outcome)
      requires slots.Length == 2 && index < 2
      modifies slots
      ensures slots[..] == old(slots[..])[index := old(slots[index]).(phase := P.Done, completed := result)]
    {
      slots[index] := slots[index].(completed := result);
      slots[index] := slots[index].(phase := P.Done);
    }

    /** Take the next queued slot and run it. */
    method RunNext(a: T.Answers) returns (ran: bool)
      requires Valid() && worker.Looking? && worker.tries < 2
      modifies this, slots
      ensures State() == RanNext(old(State()), a) && ran == (old(slots[run]).phase == P.Queued)
    {
      hide T.Sized, P.Toil, Steps, Processed;
      ran := slots[run].phase == P.Queued;
      if !ran { return; }
      StepsMore(State(), a, 0);
      var i := Pick(a);
      Process(i, a);
    }

    method Pick(ghost a: T.Answers) returns (i: nat)
      requires Valid() && worker.Looking? && worker.tries < 2 && slots[run].phase == P.Queued
      modifies this`run, this`picked, this`worker
      ensures Valid() && i < 2 && State() == Steps(old(State()), a, 1)
      ensures worker.Working? && worker.stage.Mark? && worker.index == i
    {
      hide P.Shaped, P.Toil, Steps;
      StepsMore(State(), a, 0);
      ShapedSlots(State());
      PickIs(State(), a);
      i := run;
      run := 1 - run;
      picked := picked + 1;
      worker := P.Working(P.Mark, i, worker.tries, worker.woke, worker.last);
      StepsMore(State(), a, 0);
    }

    method Process(i: nat, a: T.Answers)
      requires Valid() && i < 2 && worker.Working? && worker.stage.Mark? && worker.index == i
      modifies this, slots
      ensures State() == Processed(old(State()), a)
    {
      hide P.Toil, P.Shaped, Steps;
      var failed := Handle(i, a);
      Conclude(i, failed, a);
    }

    /** Up to the judgement: mark, convert and start, settle the previous one, judge. */
    method Handle(i: nat, a: T.Answers) returns (failed: bool)
      requires Valid() && i < 2 && worker.Working? && worker.stage.Mark? && worker.index == i
      modifies this, slots
      ensures Valid() && State() == Steps(old(State()), a, 4)
      ensures worker.Working? && worker.index == i && worker.stage == if failed then P.Abandon else P.Publish
    {
      hide P.Toil, P.Shaped, Steps;
      StepsMore(State(), a, 3);
      Mark(i, a);
      StepsMore(State(), a, 2);
      var previous := Convert(i, a);
      StepsMore(State(), a, 1);
      Receipt(previous, a);
      StepsMore(State(), a, 0);
      failed := Judge(i, a);
      StepsMore(State(), a, 0);
    }

    method Conclude(i: nat, failed: bool, ghost a: T.Answers)
      requires Valid() && i < 2 && worker.Working? && worker.index == i && worker.stage == if failed then P.Abandon else P.Publish
      modifies this, slots
      ensures State() == Steps(old(State()), a, if failed then 2 else 1)
    {
      hide P.Toil, P.Shaped, Steps;
      StepsMore(State(), a, 1);
      if failed { Abandon(a); }
      StepsMore(State(), a, 0);
      Publish(i, a);
      StepsMore(State(), a, 0);
    }

    method Mark(i: nat, ghost a: T.Answers)
      requires Valid() && i < 2 && worker.Working? && worker.stage.Mark? && worker.index == i
      modifies this`worker, slots
      ensures Valid() && State() == P.Toil(old(State()), false, a) && worker == old(worker).(stage := P.Conversion)
    {
      hide T.Sized;
      slots[i] := slots[i].(phase := P.Running);
      worker := worker.(stage := P.Conversion);
    }

    /** The session converts and starts the frame, unless the pipeline is faulted. */
    method Convert(i: nat, a: T.Answers) returns (previous: bool)
      requires Valid() && i < 2 && worker.Working? && worker.stage.Conversion? && worker.index == i
      modifies this`session, this`worker, slots
      ensures Valid() && State() == P.Toil(old(State()), false, a) && worker == old(worker).(stage := P.Settle(previous))
    {
      hide T.SubmitEx, T.Sized, P.SourceOf;
      var job, r := slots[i].job, T.Fault;
      previous := false;
      T.StaysSized(session, P.SourceOf(memory, job.frame), job.degrees, picked - 1, a);
      if !fault {
        var done := T.SubmitEx(session, P.SourceOf(memory, job.frame), job.degrees, picked - 1, a);
        session, r, previous := done.0, done.1, done.2;
      }
      slots[i] := slots[i].(submitted := r);
      worker := worker.(stage := P.Settle(previous));
    }

    /** The session waited for the previous transfer: its slot is done. */
    method Receipt(previous: bool, ghost a: T.Answers)
      requires Valid() && worker.Working? && worker.stage == P.Settle(previous)
      modifies this`active, this`worker, slots
      ensures Valid() && State() == P.Toil(old(State()), false, a) && worker == old(worker).(stage := P.Judge)
    {
      hide T.Sized;
      if active.Some? && previous {
        var index := active.value;
        active := None;
        Complete(index, T.Ok);
      }
      worker := worker.(stage := P.Judge);
    }

    method Judge(i: nat, ghost a: T.Answers) returns (failed: bool)
      requires Valid() && i < 2 && worker.Working? && worker.stage.Judge? && worker.index == i
      modifies this`fault, this`worker, slots
      ensures Valid() && State() == P.Toil(old(State()), false, a) && worker.Working? && worker.index == i
      ensures worker.stage == if failed then P.Abandon else P.Publish
    {
      hide T.Sized;
      var r := slots[i].submitted;
      failed := r == T.Fault || r == T.Busy || (r == T.Ok && active.Some?);
      if failed {
        slots[i] := slots[i].(submitted := T.Fault);
        fault := true;
        worker := worker.(stage := P.Abandon);
      } else {
        worker := worker.(stage := P.Publish);
      }
    }

    method Abandon(ghost a: T.Answers)
      requires Valid() && worker.Working? && worker.stage.Abandon?
      modifies this`active, this`worker, slots
      ensures Valid() && State() == P.Toil(old(State()), false, a) && worker == old(worker).(stage := P.Publish)
    {
      hide T.Sized;
      if active.Some? {
        var index := active.value;
        active := None;
        Complete(index, T.Fault);
      }
      worker := worker.(stage := P.Publish);
    }

    method Publish(i: nat, ghost a: T.Answers)
      requires Valid() && i < 2 && worker.Working? && worker.stage.Publish? && worker.index == i
      modifies this`active, this`worker, slots
      ensures Valid() && State() == P.Toil(old(State()), false, a)
    {
      hide T.Sized;
      worker := P.Looking(worker.tries + 1, true, worker.woke, worker.last);
      if slots[i].submitted == T.Ok {
        active := Some(i);
        slots[i] := slots[i].(phase := P.Submitted);
      } else {
        Complete(i, slots[i].submitted);
      }
    }

    /** Wait for the outstanding transfer, if there is one. */
    method DrainActive(a: T.Answers)
      requires Valid() && worker.Emptying?
      modifies this, slots
      ensures State() == Drained(old(State()), a)
    {
      hide T.Drain, Drained, P.Shaped;
      if active.None? {
        IdleDrain(State(), a);
        worker := P.AfterDrain(worker.last);
      } else {
        Wait(a);
      }
    }

    method Wait(a: T.Answers)
      requires Valid() && worker.Emptying? && active.Some?
      modifies this, slots
      ensures State() == Drained(old(State()), a)
    {
      hide T.Drain, Drained, P.Shaped;
      var last, index := worker.last, active.value;
      ShapedSlots(State());
      BusyDrain(State(), a);
      var result := Await(a);
      Complete(index, result);
      worker := P.AfterDrain(last);
    }

    /** The session waits; anything but OK faults the pipeline. */
    method Await(a: T.Answers) returns (result: T.Outcome)
      requires Valid() && active.Some?
      modifies this`active, this`session, this`fault
      ensures var (t, r) := T.Drain(old(session), a.waited);
              && result == (if r == T.Ok then T.Ok else T.Fault)
              && State() == old(State()).(active := None, transfer := t, fault := old(fault) || r != T.Ok)
    {
      hide T.Drain, T.Sized;
      var drained := T.Drain(session, a.waited);
      active := None;
      session := drained.0;
      result := drained.1;
      if result != T.Ok {
        result := T.Fault;
        fault := true;
      }
    }

    // ----- the producer -----

    method Submit(job: P.Job) returns (r: T.Outcome)
      requires Valid() && producer.Free? && !closed
      modifies this, slots
      ensures State() == L.Call(old(State()), P.Submit(job)) && reply == P.Answered(r)
    {
      hide P.Shaped, P.SourceOf, L.Call;
      ShapedSlots(State());
      SubmitIs(State(), job);
      r := if stopping then T.Invalid else if fault then T.Fault else if slots[put].phase != P.Empty then T.Busy else T.Ok;
      reply := P.Answered(r);
      if r != T.Ok { return; }
      accepted := accepted + [P.Admitted(job, P.SourceOf(memory, job.frame))];
      slots[put] := slots[put].(job := job, released := false);
      slots[put] := slots[put].(phase := P.Queued);
      put := 1 - put;
    }

    /** The next event: the release of the oldest unreleased job, else the completion of the oldest. */
    method TakeEvent() returns (ok: bool, completion: bool, event: P.Event)
      requires Valid() && producer.Free? && !closed
      modifies this, slots
      ensures State() == L.Call(old(State()), P.Take)
      ensures reply == if !ok then P.Nothing else if completion then P.Completed(event) else P.Released(event)
    {
      hide P.Shaped, L.Call;
      ShapedSlots(State());
      var slot := slots[release];
      if (slot.phase == P.Submitted || slot.phase == P.Done) && !slot.released {
        event := TakeRelease();
        ok, completion := true, false;
      } else {
        ok, event := TakeCompletion();
        completion := ok;
      }
    }

    /** The release of the job due for one. */
    method TakeRelease() returns (event: P.Event)
      requires Valid() && producer.Free? && !closed && release < slots.Length
      requires (slots[release].phase == P.Submitted || slots[release].phase == P.Done) && !slots[release].released
      modifies this, slots
      ensures State() == L.Call(old(State()), P.Take) && reply == P.Released(event)
    {
      hide P.Shaped, L.Call;
      ReleaseIs(State());
      var slot := slots[release];
      event := P.Event(slot.job.cookie, slot.submitted);
      slots[release] := slot.(released := true);
      release := 1 - release;
      released := released + [event];
      reply := P.Released(event);
    }

    /** The completion of the oldest job, if it is done and was released. */
    method TakeCompletion() returns (ok: bool, event: P.Event)
      requires Valid() && producer.Free? && !closed && release < slots.Length
      requires !((slots[release].phase == P.Submitted || slots[release].phase == P.Done) && !slots[release].released)
      modifies this, slots
      ensures State() == L.Call(old(State()), P.Take) && reply == if ok then P.Completed(event) else P.Nothing
    {
      hide P.Shaped, L.Call;
      ShapedSlots(State());
      CompletionIs(State());
      var slot := slots[take];
      event := P.Event(slot.job.cookie, slot.completed);
      if slot.phase != P.Done || !slot.released {
        reply := P.Nothing;
        return false, event;
      }
      ok := true;
      slots[take] := slot.(phase := P.Empty);
      take := 1 - take;
      completed := completed + [event];
      reply := P.Completed(event);
    }

    method Stop()
      requires Valid() && producer.Free? && !closed
      modifies this`stopping
      ensures State() == L.Call(old(State()), P.Stop)
    {
      hide T.Sized;
      stopping := true;
    }

    method Close() returns (ok: bool)
      requires Valid() && producer.Free? && !closed
      modifies this`closed, this`reply
      ensures State() == L.Call(old(State()), P.Close) && ok == closed
    {
      hide T.Sized, L.Call;
      CloseIs(State());
      ok := exited;
      var i := 0;
      while i < 2 && ok
        invariant i <= 2 && ok == (exited && forall k :: 0 <= k < i ==> slots[k].phase == P.Empty)
      {
        ok := slots[i].phase == P.Empty;
        i := i + 1;
      }
      closed, reply := ok, P.Closed(ok);
    }
  }

  lemma DrainSized(t: T.Transfer, waited: bool)
    requires T.Sized(t)
    ensures T.Sized(T.Drain(t, waited).0)
  {
  }

  // ----- each call of the producer in one piece -----

  lemma SubmitIs(s: P.Pipeline, job: P.Job)
    requires P.Shaped(s) && s.producer.Free? && !s.closed
    ensures var r := if s.stopping then T.Invalid else if s.fault then T.Fault else if s.slots[s.put].phase != P.Empty then T.Busy else T.Ok;
            var u := s.(reply := P.Answered(r));
            L.Call(s, P.Submit(job))
            == if r != T.Ok then u
               else u.(slots := s.slots[s.put := s.slots[s.put].(phase := P.Queued, released := false, job := job)], put := 1 - s.put,
                       accepted := s.accepted + [P.Admitted(job, P.SourceOf(s.memory, job.frame))])
  {
    hide T.Sized, P.SourceOf;
    var b := P.Begin(s, P.Submit(job));
    assert P.Shaped(b);
    if b.producer.AtFault? {
      var c := P.Advance(b);
      assert P.Shaped(c) && (c.producer.Free? || c == s.(producer := P.AtSlot(job)));
    }
  }

  lemma ReleaseIs(s: P.Pipeline)
    requires P.Shaped(s) && s.producer.Free? && !s.closed
    requires var slot := s.slots[s.release]; (slot.phase == P.Submitted || slot.phase == P.Done) && !slot.released
    ensures var slot := s.slots[s.release];
            var event := P.Event(slot.job.cookie, slot.submitted);
            L.Call(s, P.Take) == s.(slots := s.slots[s.release := slot.(released := true)], release := 1 - s.release,
                                    released := s.released + [event], reply := P.Released(event))
  {
    hide T.Sized, P.CompletionTaken;
  }

  lemma CompletionIs(s: P.Pipeline)
    requires P.Shaped(s) && s.producer.Free? && !s.closed
    requires var slot := s.slots[s.release]; !((slot.phase == P.Submitted || slot.phase == P.Done) && !slot.released)
    ensures var oldest := s.slots[s.take];
            var last := P.Event(oldest.job.cookie, oldest.completed);
            L.Call(s, P.Take)
            == if oldest.phase != P.Done || !oldest.released then s.(reply := P.Nothing)
               else s.(slots := s.slots[s.take := oldest.(phase := P.Empty)], take := 1 - s.take,
                       completed := s.completed + [last], reply := P.Completed(last))
  {
    hide T.Sized, P.Begin, P.ReleaseTaken;
    PassesRelease(s);
    var c := s.(producer := P.AtTake);
    var d := P.Advance(c);
    assert P.Shaped(d) && (d.producer.Free? || d.producer.AtEmpty?);
    assert L.Call(s, P.Take) == P.Advance(d);
  }

  lemma PassesRelease(s: P.Pipeline)
    requires P.Shaped(s) && s.producer.Free? && !s.closed
    requires var slot := s.slots[s.release]; !((slot.phase == P.Submitted || slot.phase == P.Done) && !slot.released)
    ensures P.Shaped(P.Begin(s, P.Take)) && P.Shaped(P.Advance(P.Begin(s, P.Take)))
    ensures P.Advance(P.Begin(s, P.Take)) == s.(producer := P.AtTake)
  {
    hide T.Sized;
  }

  lemma CloseIs(s: P.Pipeline)
    requires P.Shaped(s) && s.producer.Free? && !s.closed
    ensures var ok := s.exited && s.slots[0].phase == P.Empty && s.slots[1].phase == P.Empty;
            L.Call(s, P.Close) == s.(closed := ok, reply := P.Closed(ok))
  {
    hide T.Sized;
  }

  lemma PickIs(s: P.Pipeline, a: T.Answers)
    requires P.Shaped(s) && s.worker.Looking? && s.worker.tries < 2 && s.slots[s.run].phase == P.Queued
    ensures var w := s.worker;
            && P.Toil(s, false, a) == s.(run := 1 - s.run, picked := s.picked + 1, worker := P.Working(P.Mark, s.run, w.tries, w.woke, w.last))
            && P.Shaped(P.Toil(s, false, a))
  {
    hide T.Sized;
  }

  lemma IdleDrain(s: P.Pipeline, a: T.Answers)
    requires P.Shaped(s) && s.worker.Emptying? && s.active.None?
    ensures Drained(s, a) == s.(worker := P.AfterDrain(s.worker.last))
  {
    hide T.Drain, Steps, P.Toil, P.Shaped;
    EmptiedIs(s, a);
    StepsMore(s, a, 0);
    StepsMore(P.Toil(s, false, a), a, 0);
  }

  lemma BusyDrain(s: P.Pipeline, a: T.Answers)
    requires P.Shaped(s) && s.worker.Emptying? && s.active.Some?
    ensures s.active.value < |s.slots|
    ensures var (t, r) := T.Drain(s.transfer, a.waited);
            var result, i := if r == T.Ok then T.Ok else T.Fault, s.active.value;
            Drained(s, a)
            == s.(active := None, transfer := t, fault := s.fault || r != T.Ok, worker := P.AfterDrain(s.worker.last),
                  slots := s.slots[i := s.slots[i].(phase := P.Done, completed := result)])
  {
    hide T.Drain, Steps, P.Toil, P.Shaped;
    EmptiedIs(s, a);
    var u := P.Toil(s, false, a);
    StepsMore(s, a, 0);
    StepsMore(u, a, 0);
    if u.worker.Faulting? {
      FaultingIs(u, a);
      StepsMore(u, a, 1);
      u := P.Toil(u, false, a);
    }
    FinishingIs(u, a);
    StepsMore(u, a, 0);
    StepsMore(P.Toil(u, false, a), a, 0);
  }

  lemma EmptiedIs(s: P.Pipeline, a: T.Answers)
    requires P.Shaped(s) && s.worker.Emptying?
    ensures |s.slots| == 2 && (s.active.Some? ==> s.active.value < 2)
    ensures var (t, r) := T.Drain(s.transfer, a.waited);
            var u := P.Toil(s, false, a);
            && P.Shaped(u)
            && u == if s.active.None? then s.(worker := P.AfterDrain(s.worker.last))
                    else s.(active := None, transfer := t,
                            worker := if r == T.Ok then P.Finishing(s.active.value, T.Ok, s.worker.last)
                                      else P.Faulting(s.active.value, s.worker.last))
  {
    hide T.Sized, T.Drain;
    DrainSized(s.transfer, a.waited);
  }

  lemma FaultingIs(s: P.Pipeline, a: T.Answers)
    requires P.Shaped(s) && s.worker.Faulting?
    ensures P.Shaped(P.Toil(s, false, a))
    ensures P.Toil(s, false, a) == s.(fault := true, worker := P.Finishing(s.worker.index, T.Fault, s.worker.last))
  {
    hide T.Sized;
  }

  lemma FinishingIs(s: P.Pipeline, a: T.Answers)
    requires P.Shaped(s) && s.worker.Finishing?
    ensures s.worker.index < |s.slots| && P.Shaped(P.Toil(s, false, a))
    ensures P.Toil(s, false, a) == P.Complete(s, s.worker.index, s.worker.result).(worker := P.AfterDrain(s.worker.last))
  {
    hide T.Sized;
  }
}
