/** What the animation clock promises: exact media time, sufficient waits, and whole runs. */
module ApngTimelineLaws {
  import opened Prelude
  import opened ApngTimeline

  // ----- media time -----

  /** Media time grows by exactly elapsed * rate; an advance is refused only by a clock that
      runs backwards or by a media time that no longer fits 64 bits. */
  lemma MediaTimeIsExact(c: Clock, now: u64)
    requires Sound(c) && c.initialized
    ensures var elapsed := if c.paused then 0 else now - c.lastUs;
            && (Advanced(c, now).Some? <==>
                now >= c.lastUs && MediaTicks(c) + elapsed * c.rateNum < (U64_MAX + 1) * c.rateDen)
            && (Advanced(c, now).Some? ==>
                MediaTicks(Advanced(c, now).value) == MediaTicks(c) + elapsed * c.rateNum)
  {
    var elapsed := if c.paused then 0 else now - c.lastUs;
    DivExceeds(MediaTicks(c) + elapsed * c.rateNum, c.rateDen, U64_MAX + 1);
  }

  /** Looking at the clock in between changes nothing: there is no drift from extra polls. */
  lemma ExtraPollsDoNotDrift(c: Clock, between: u64, now: u64)
    requires Sound(c) && c.initialized && c.lastUs <= between <= now
    requires Advanced(c, now).Some?
    ensures Advanced(c, between).Some?
    ensures Sound(Advanced(c, between).value)
    ensures Advanced(Advanced(c, between).value, now) == Advanced(c, now)
  {
    MediaTimeIsExact(c, between);
    MediaTimeIsExact(c, now);
    if !c.paused {
      MulMonotone(between - c.lastUs, now - c.lastUs, c.rateNum);
      var a := Advanced(c, between).value;
      assert (between - c.lastUs) * c.rateNum + (now - between) * c.rateNum == (now - c.lastUs) * c.rateNum;
      assert MediaTicks(a) + (now - a.lastUs) * a.rateNum == MediaTicks(c) + (now - c.lastUs) * c.rateNum;
    }
  }

  /** A rate change never moves media time forward, and loses less than one tick of the new grid. */
  lemma RateChangeLosesUnderOneTick(c: Clock, now: u64, num: u32, den: u32)
    requires Sound(c) && Rated(c, now, num, den).Some?
    ensures var a, r := Advanced(c, now).value, Rated(c, now, num, den).value;
            && Sound(r)
            && MediaTicks(r) * a.rateDen <= MediaTicks(a) * r.rateDen
            && MediaTicks(a) * r.rateDen < (MediaTicks(r) + 1) * a.rateDen
  {
    var a, r := Advanced(c, now).value, Rated(c, now, num, den).value;
    ScaledFraction(a.mediaFraction, a.rateDen, den);
    DivBounds(a.mediaFraction * den, a.rateDen);
    Regrid(a.mediaUs, a.mediaFraction, a.rateDen, den, r.mediaFraction);
  }

  lemma Regrid(media: int, fraction: int, oldDen: int, newDen: int, rescaled: int)
    requires rescaled * oldDen <= fraction * newDen < (rescaled + 1) * oldDen
    ensures (media * newDen + rescaled) * oldDen <= (media * oldDen + fraction) * newDen
    ensures (media * oldDen + fraction) * newDen < (media * newDen + rescaled + 1) * oldDen
  {
    assert media * newDen * oldDen == media * oldDen * newDen;
  }

  // ----- waiting -----

  /** Exact remaining media time, in units of 2^-32 / rateDen microsecond. */
  function Gap(c: Clock): int
  {
    DeadlineQ(c) * c.rateDen - MediaTicks(c) * Q32
  }

  /** A WAIT answer is positive, never earlier than the exact deadline, and less than
      rateDen/rateNum + 1 microseconds late. (Multiplied through by rateNum * 2^32.) */
  lemma WaitIsTight(c: Clock, now: u64)
    requires Sound(c) && Polled(c, now).Some? && Polled(c, now).value.1.action == Wait
    ensures var (t, step) := Polled(c, now).value;
            && Sound(t) && t.initialized && !t.paused && !t.ended && !t.awaitingFrame && t.lastUs == now
            && 0 < step.waitUs
            && 0 < Gap(t) <= step.waitUs * t.rateNum * Q32
            && step.waitUs * t.rateNum * Q32 < Gap(t) + t.rateDen * Q32 + t.rateNum * Q32
  {
    var (t, step) := Polled(c, now).value;
    var w, r := step.waitUs, RemainingUs(t);
    CeilDivBounds(Gap(t), t.rateDen * Q32);
    CeilDivBounds(r * t.rateDen, t.rateNum);
    WaitBounds(w, r, t.rateDen, t.rateNum, Gap(t), Q32);
  }

  lemma WaitBounds(w: int, r: int, den: int, num: int, gap: int, scale: int)
    requires 0 < den && 0 < num && 0 < scale && 0 < gap
    requires (r - 1) * (den * scale) < gap <= r * (den * scale)
    requires (w - 1) * num < r * den <= w * num
    ensures 0 < w
    ensures gap <= w * num * scale < gap + den * scale + num * scale
  {
    assert r * (den * scale) == r * den * scale;
    assert (r - 1) * (den * scale) == r * den * scale - den * scale;
    MulMonotone(r * den, w * num, scale);
    MulMonotone((w - 1) * num + 1, r * den, scale);
    assert w * num * scale == (w - 1) * num * scale + num * scale;
    if w <= 0 {
      MulMonotone(w, 0, num);
      MulMonotone(w * num, 0, scale);
    }
  }

  /** Sleeping for the answered time is enough: at the same rate the next successful poll
      requests a frame or reports the end. */
  lemma WaitIsSufficient(c: Clock, now: u64)
    requires Sound(c) && Polled(c, now).Some? && Polled(c, now).value.1.action == Wait
    requires now + Polled(c, now).value.1.waitUs <= U64_MAX
    ensures Sound(Polled(c, now).value.0)
    ensures var (t, step) := Polled(c, now).value;
            var next := Polled(t, now + step.waitUs);
            next.Some? ==> next.value.1.action == Frame || next.value.1.action == Ended
  {
    WaitIsTight(c, now);
    var (t, step) := Polled(c, now).value;
    var later: u64 := now + step.waitUs;
    if Polled(t, later).Some? {
      MediaTimeIsExact(t, later);
      var a := Advanced(t, later).value;
      Reached(MediaTicks(t), step.waitUs * t.rateNum, Gap(t), DeadlineQ(t) * t.rateDen, Q32);
      assert DueExactly(a);
    }
  }

  lemma Reached(ticks: int, gained: int, gap: int, goal: int, scale: int)
    requires gap == goal - ticks * scale && gap <= gained * scale
    ensures (ticks + gained) * scale >= goal
  {
  }

  // ----- whole runs -----

  datatype Op =
    | DoPoll(now: u64)
    | DoCommit(now: u64, num: u16, den: u16)
    | DoPause(now: u64, paused: bool)
    | DoRate(now: u64, rateNum: u32, rateDen: u32)

  /** A clock together with what has been committed on it so far. */
  datatype Run = Run(clock: Clock, committed: seq<u32>, delays: seq<(u16, u16)>, startQ: int)

  /** A refused operation leaves the clock unchanged. */
  function Apply(r: Run, op: Op): Run
    requires Sound(r.clock)
  {
    match op
    case DoPoll(now) =>
      (match Polled(r.clock, now) case None => r case Some((c, _)) => r.(clock := c))
    case DoPause(now, paused) =>
      (match PausedAs(r.clock, now, paused) case None => r case Some(c) => r.(clock := c))
    case DoRate(now, num, den) =>
      (match Rated(r.clock, now, num, den) case None => r case Some(c) => r.(clock := c))
    case DoCommit(now, num, den) =>
      match Committed(r.clock, now, num, den)
      case None => r
      case Some(c) =>
        Run(c, r.committed + [r.clock.index],
            if c.animated then r.delays + [(num, den)] else r.delays,
            if r.clock.started then r.startQ else BaseQ(Advanced(r.clock, now).value))
  }

  lemma ApplySound(r: Run, op: Op)
    requires Sound(r.clock)
    ensures Sound(Apply(r, op).clock)
  {
    if op.DoRate? && Rated(r.clock, op.now, op.rateNum, op.rateDen).Some? {
      RateChangeLosesUnderOneTick(r.clock, op.now, op.rateNum, op.rateDen);
    }
  }

  function SumQ(delays: seq<(u16, u16)>, minimum: u32): int
  {
    if delays == [] then 0
    else
      var last := delays[|delays| - 1];
      SumQ(delays[..|delays| - 1], minimum) + DelayQ(last.0, last.1, minimum)
  }

  /** How many commits stand behind a clock's index and play count. */
  ghost predicate CountLaw(c: Clock, n: nat)
  {
    && (c.ended ==> !c.awaitingFrame && c.plays != 0 && n == c.plays * c.frames)
    && (!c.ended && c.awaitingFrame ==> n == c.completedPlays * c.frames + c.index)
    && (!c.ended && !c.awaitingFrame ==> n == c.completedPlays * c.frames + c.index + 1)
    && (!c.ended && c.plays != 0 ==> c.completedPlays < c.plays)
    && (!c.ended && !c.animated ==> c.completedPlays == 0 && c.awaitingFrame)
  }

  lemma TurnKeepsCount(c: Clock, due: bool, n: nat)
    requires c.index < c.frames && !c.ended && CountLaw(c, n) && TurnedWhen(c, due).Some?
    ensures CountLaw(TurnedWhen(c, due).value, n)
  {
    var p, f := c.completedPlays, c.frames;
    if c.awaitingFrame || !due {
    } else if c.index + 1 < f {
    } else {
      assert n == (p + 1) * f by { assert (p + 1) * f == p * f + f; }
      if c.plays != 0 && p + 1 >= c.plays {
        assert p + 1 == c.plays;
      }
    }
  }

  /** What every run keeps: how many commits stand behind the index and the play count, which
      frame each of them showed, and where the deadline stands. */
  ghost predicate RunLaw(r: Run)
  {
    var c, n := r.clock, |r.committed|;
    && Sound(c) && c.initialized
    && CountLaw(c, n)
    && (forall k :: 0 <= k < n ==> r.committed[k] == k % c.frames)
    && (c.started <==> n > 0)
    && (c.animated ==> |r.delays| == n)
    && (!c.animated ==> r.delays == [])
    && (c.started ==> DeadlineQ(c) == r.startQ + SumQ(r.delays, c.minimumDelayUs))
  }

  lemma InitialRunLaw(frames: u32, plays: u32, animated: bool, minimum: u32, now: u64)
    requires InitAllowed(frames, animated, minimum)
    ensures RunLaw(Run(Initial(frames, plays, animated, minimum, now), [], [], 0))
  {
  }

  lemma PollKeepsRunLaw(r: Run, now: u64)
    requires RunLaw(r)
    ensures RunLaw(Apply(r, DoPoll(now)))
  {
    hide SumQ, DelayQ, WaitFor, RemainingUs, DueExactly;
    if Polled(r.clock, now).Some? {
      var a := Advanced(r.clock, now).value;
      assert CountLaw(a, |r.committed|);
      if !a.ended && !a.paused {
        TurnKeepsCount(a, DueExactly(a), |r.committed|);
      }
    }
  }

  /** An advance only moves media time. */
  lemma AdvanceKeepsRest(c: Clock, now: u64)
    requires Sound(c) && Advanced(c, now).Some?
    ensures var a := Advanced(c, now).value;
            a == c.(mediaUs := a.mediaUs, mediaFraction := a.mediaFraction, lastUs := a.lastUs) && Sound(a)
  {
  }

  lemma CommitKeepsRunLaw(r: Run, now: u64, num: u16, den: u16)
    requires RunLaw(r)
    ensures RunLaw(Apply(r, DoCommit(now, num, den)))
  {
    hide MediaTicks, DelayQ, SumQ, DeadlineQ, Committed, CountLaw, Advanced;
    if Committed(r.clock, now, num, den).Some? {
      CommitCounts(r.clock, now, num, den, |r.committed|);
      CommitSound(r.clock, now, num, den);
      CommitDeadline(r, now, num, den);
    }
  }

  /** The committed frame is the next one, and the count goes up by it. */
  lemma CommitCounts(c: Clock, now: u64, num: u16, den: u16, n: nat)
    requires Sound(c) && c.initialized && CountLaw(c, n) && Committed(c, now, num, den).Some?
    ensures c.index == n % c.frames && CountLaw(Committed(c, now, num, den).value, n + 1)
  {
    hide MediaTicks, DelayQ, Advanced;
    AdvanceKeepsRest(c, now);
    DivModUnique(c.completedPlays, c.index, c.frames);
  }

  lemma CommitSound(c: Clock, now: u64, num: u16, den: u16)
    requires Sound(c) && c.initialized && Committed(c, now, num, den).Some?
    ensures var d := Committed(c, now, num, den).value;
            && Sound(d) && d.initialized && d.started
            && d.frames == c.frames && d.animated == c.animated && d.minimumDelayUs == c.minimumDelayUs
  {
    hide MediaTicks, DelayQ, Advanced;
    AdvanceKeepsRest(c, now);
  }

  lemma CommitDeadline(r: Run, now: u64, num: u16, den: u16)
    requires RunLaw(r) && Committed(r.clock, now, num, den).Some?
    ensures var u := Apply(r, DoCommit(now, num, den));
            DeadlineQ(u.clock) == u.startQ + SumQ(u.delays, u.clock.minimumDelayUs)
  {
    hide MediaTicks, DelayQ, Advanced, CountLaw;
    AdvanceKeepsRest(r.clock, now);
    var u := Apply(r, DoCommit(now, num, den));
    if u.clock.animated {
      var n := |r.delays|;
      assert u.delays[..n] == r.delays && u.delays[n] == (num, den);
    }
  }

  lemma PauseKeepsRunLaw(r: Run, now: u64, paused: bool)
    requires RunLaw(r)
    ensures RunLaw(Apply(r, DoPause(now, paused)))
  {
    hide SumQ, DelayQ;
  }

  lemma RateKeepsRunLaw(r: Run, now: u64, num: u32, den: u32)
    requires RunLaw(r)
    ensures RunLaw(Apply(r, DoRate(now, num, den)))
  {
    hide SumQ, DelayQ;
    ApplySound(r, DoRate(now, num, den));
  }

  lemma StepKeepsRunLaw(r: Run, op: Op)
    requires RunLaw(r)
    ensures RunLaw(Apply(r, op))
  {
    hide *;
    match op
    case DoPoll(now) => PollKeepsRunLaw(r, now);
    case DoCommit(now, num, den) => CommitKeepsRunLaw(r, now, num, den);
    case DoPause(now, paused) => PauseKeepsRunLaw(r, now, paused);
    case DoRate(now, num, den) => RateKeepsRunLaw(r, now, num, den);
  }

  function After(r: Run, ops: seq<Op>): Run
    requires RunLaw(r)
    ensures RunLaw(After(r, ops))
    decreases |ops|
  {
    if ops == [] then r
    else
      StepKeepsRunLaw(r, ops[0]);
      After(Apply(r, ops[0]), ops[1..])
  }

  /** A run that has not begun. */
  function NewRun(frames: u32, plays: u32, animated: bool, minimum: u32, now: u64): (r: Run)
    requires InitAllowed(frames, animated, minimum)
    ensures RunLaw(r)
  {
    InitialRunLaw(frames, plays, animated, minimum, now);
    Run(Initial(frames, plays, animated, minimum, now), [], [], 0)
  }

  function RunOf(frames: u32, plays: u32, animated: bool, minimum: u32, now: u64, ops: seq<Op>): Run
    requires InitAllowed(frames, animated, minimum)
  {
    After(NewRun(frames, plays, animated, minimum, now), ops)
  }

  ghost predicate SameParameters(c: Clock, d: Clock)
  {
    c.frames == d.frames && c.plays == d.plays && c.animated == d.animated && c.minimumDelayUs == d.minimumDelayUs
  }

  lemma StepKeepsParameters(r: Run, op: Op)
    requires Sound(r.clock)
    ensures SameParameters(r.clock, Apply(r, op).clock)
  {
  }

  lemma {:induction false} ParametersNeverChange(r: Run, ops: seq<Op>)
    requires RunLaw(r)
    ensures SameParameters(r.clock, After(r, ops).clock)
    decreases |ops|
  {
    if ops != [] {
      StepKeepsRunLaw(r, ops[0]);
      StepKeepsParameters(r, ops[0]);
      ParametersNeverChange(Apply(r, ops[0]), ops[1..]);
    }
  }

  lemma CountBound(c: Clock, n: nat)
    requires Sound(c) && c.initialized && CountLaw(c, n)
    ensures c.ended ==> c.plays != 0 && n == c.plays * c.frames
    ensures !c.ended && c.plays != 0 ==> n <= c.plays * c.frames
  {
    if !c.ended && c.plays != 0 {
      MulMonotone(c.completedPlays + 1, c.plays, c.frames);
      assert (c.completedPlays + 1) * c.frames == c.completedPlays * c.frames + c.frames;
    }
  }

  /** Over every run: frames are committed 0, 1, .., frames-1 cyclically with none skipped, a
      finite animation has ended only after exactly plays * frames commits, and the deadline is
      the first commit's media time plus the quantised delays, whenever the commits came. */
  lemma {:induction false} WholeRun(frames: u32, plays: u32, animated: bool, minimum: u32, now: u64, ops: seq<Op>)
    requires InitAllowed(frames, animated, minimum)
    ensures var r := RunOf(frames, plays, animated, minimum, now, ops);
            var total := if animated then plays else 1;
            && (forall k :: 0 <= k < |r.committed| ==> r.committed[k] == k % frames)
            && (r.clock.ended ==> total != 0 && |r.committed| == total * frames)
            && (!r.clock.ended && total != 0 ==> |r.committed| <= total * frames)
            && (|r.committed| > 0 ==>
                  && DeadlineQ(r.clock) == r.startQ + SumQ(r.delays, minimum)
                  && exists m: nat :: StartsAt(NewRun(frames, plays, animated, minimum, now), ops, m))
            && (animated ==> |r.delays| == |r.committed|)
  {
    hide CountLaw, DeadlineQ, SumQ, After, Sound;
    var start := NewRun(frames, plays, animated, minimum, now);
    ParametersNeverChange(start, ops);
    var r := After(start, ops);
    CountBound(r.clock, |r.committed|);
    if r.committed != [] { var m := StartIsFirstCommit(start, ops); }
  }

  /** Nothing is left to show: the animation has ended, or its last frame is on screen. */
  predicate Exhausted(c: Clock)
  {
    c.ended || (!c.awaitingFrame && c.plays != 0 && c.index + 1 == c.frames && c.completedPlays + 1 == c.plays)
  }

  /** With p of q plays done and i of f frames shown in the current one, all are shown exactly at the
      last frame of the last play. */
  lemma AllFrames(p: int, i: int, q: int, f: int)
    requires 0 <= p < q && 0 < i <= f
    ensures p * f + i == q * f <==> i == f && p + 1 == q
  {
    assert (p + 1) * f == p * f + f;
    if p + 1 < q {
      MulMonotone(p + 2, q, f);
      assert (p + 2) * f == (p + 1) * f + f;
    }
  }

  lemma CountExhausts(c: Clock, n: nat)
    requires Sound(c) && c.initialized && CountLaw(c, n) && c.plays != 0
    ensures n == c.plays * c.frames <==> Exhausted(c)
  {
    if !c.ended {
      if c.awaitingFrame {
        NotAllFrames(c.completedPlays, c.index, c.plays, c.frames);
      } else {
        AllFrames(c.completedPlays, c.index + 1, c.plays, c.frames);
      }
    }
  }

  lemma NotAllFrames(p: int, i: int, q: int, f: int)
    requires 0 <= p < q && 0 <= i < f
    ensures p * f + i < q * f
  {
    assert (p + 1) * f == p * f + f;
    MulMonotone(p + 1, q, f);
  }

  /** With nothing left no frame is asked for or taken, and the poll that finds the last deadline
      passed, while running, is the one that ends the animation. */
  lemma ExhaustedEnds(c: Clock, now: u64, num: u16, den: u16)
    requires Sound(c) && c.initialized && Exhausted(c) && (c.ended ==> !c.awaitingFrame)
    ensures Committed(c, now, num, den).None?
    ensures Polled(c, now).Some? ==>
              && Polled(c, now).value.1.action != Frame && Exhausted(Polled(c, now).value.0)
              && (Polled(c, now).value.0.ended <==> c.ended || (!c.paused && DueExactly(Advanced(c, now).value)))
              && (Polled(c, now).value.1.action == Ended <==> Polled(c, now).value.0.ended)
    ensures !c.ended && !c.paused && Advanced(c, now).Some? && DueExactly(Advanced(c, now).value) ==> Polled(c, now).Some?
  {
    hide RemainingUs, WaitFor, DueExactly;
    if Advanced(c, now).Some? { AdvanceKeepsRest(c, now); }
  }

  /** The converse: over every run, exactly when plays * frames commits are made nothing is left to
      show, so from then on no frame is requested and the first due poll ends a finite animation. */
  lemma {:induction false} AllShownEnds(frames: u32, plays: u32, animated: bool, minimum: u32, now: u64, ops: seq<Op>,
                                        later: u64, num: u16, den: u16)
    requires InitAllowed(frames, animated, minimum)
    ensures var r := RunOf(frames, plays, animated, minimum, now, ops);
            var total := if animated then plays else 1;
            && Sound(r.clock)
            && (total != 0 ==> (|r.committed| == total * frames <==> Exhausted(r.clock)))
            && (total != 0 && |r.committed| == total * frames ==>
                  && Committed(r.clock, later, num, den).None?
                  && (Polled(r.clock, later).Some? ==> Polled(r.clock, later).value.1.action != Frame)
                  && (Advanced(r.clock, later).Some? && !r.clock.paused && DueExactly(Advanced(r.clock, later).value) ==>
                        Polled(r.clock, later).Some? && Polled(r.clock, later).value.1.action == Ended))
  {
    hide DeadlineQ, SumQ, After, Sound, Polled, Committed, Advanced, DueExactly, Exhausted;
    var start := NewRun(frames, plays, animated, minimum, now);
    ParametersNeverChange(start, ops);
    var r := After(start, ops);
    if r.clock.plays != 0 { CountExhausts(r.clock, |r.committed|); }
    if r.clock.plays != 0 && Exhausted(r.clock) {
      ExhaustedEnds(r.clock, later, num, den);
      if r.clock.ended && Advanced(r.clock, later).Some? { EndedPolls(r.clock, later); }
    }
  }

  lemma EndedPolls(c: Clock, now: u64)
    requires Sound(c) && c.ended && Advanced(c, now).Some?
    ensures Polled(c, now).Some? && Polled(c, now).value.1.action == Ended
  {
    AdvanceKeepsRest(c, now);
  }

  /** A run's start is the media time of its first commit, truncated to 2^-32 microsecond. */
  ghost predicate StartsAt(r: Run, ops: seq<Op>, m: nat)
    requires RunLaw(r)
  {
    && m < |ops| && ops[m].DoCommit? && After(r, ops[..m]).committed == []
    && var c := Advanced(After(r, ops[..m]).clock, ops[m].now);
       c.Some? && c.value.rateDen > 0 && After(r, ops).startQ == MediaTicks(c.value) * Q32 / c.value.rateDen
  }

  lemma FirstCommit(r: Run, op: Op)
    requires RunLaw(r) && r.committed == [] && Apply(r, op).committed != []
    ensures op.DoCommit? && Advanced(r.clock, op.now).Some?
    ensures var c := Advanced(r.clock, op.now).value;
            c.rateDen > 0 && Apply(r, op).startQ == MediaTicks(c) * Q32 / c.rateDen
  {
    hide DelayQ, SumQ, MediaTicks, CountLaw;
    if op.DoCommit? && Advanced(r.clock, op.now).Some? { AdvanceKeepsRest(r.clock, op.now); }
  }

  lemma {:induction false} StartStays(r: Run, ops: seq<Op>)
    requires RunLaw(r) && r.committed != []
    ensures After(r, ops).startQ == r.startQ && After(r, ops).committed != []
    decreases |ops|
  {
    hide RunLaw, Apply;
    if ops != [] {
      RunSound(r);
      StepKeepsRunLaw(r, ops[0]);
      StartKept(r, ops[0]);
      StartStays(Apply(r, ops[0]), ops[1..]);
    }
  }

  lemma StartKept(r: Run, op: Op)
    requires RunLaw(r) && r.committed != []
    ensures Apply(r, op).startQ == r.startQ && Apply(r, op).committed != []
  {
    hide DelayQ, SumQ, MediaTicks, CountLaw;
  }

  lemma RunSound(r: Run)
    requires RunLaw(r)
    ensures Sound(r.clock)
  {
  }

  /** What the deadline of a whole run is counted from: the media time of its first commit. */
  lemma {:induction false} StartIsFirstCommit(r: Run, ops: seq<Op>) returns (m: nat)
    requires RunLaw(r) && r.committed == [] && After(r, ops).committed != []
    ensures StartsAt(r, ops, m)
    decreases |ops|
  {
    hide RunLaw, Apply, Advanced;
    RunSound(r);
    StepKeepsRunLaw(r, ops[0]);
    if Apply(r, ops[0]).committed == [] {
      m := StartIsFirstCommit(Apply(r, ops[0]), ops[1..]);
      assert ops[..m + 1][1..] == ops[1..][..m];
      m := m + 1;
    } else {
      m := 0;
      FirstCommit(r, ops[0]);
      StartStays(Apply(r, ops[0]), ops[1..]);
      assert ops[..0] == [];
    }
  }

  /** The end is final: no later operation commits a frame or leaves it. */
  lemma {:induction false} EndedIsFinal(r: Run, ops: seq<Op>)
    requires RunLaw(r) && r.clock.ended
    ensures After(r, ops).clock.ended && After(r, ops).committed == r.committed
    decreases |ops|
  {
    if ops != [] {
      StepKeepsRunLaw(r, ops[0]);
      EndedIsFinal(Apply(r, ops[0]), ops[1..]);
    }
  }

  // ----- the deadline against exact delays -----

  function ExactDelay(num: u16, den: u16, minimum: u32): real
  {
    var exact := (num * 1_000_000) as real / Denominator(den) as real;
    if exact < minimum as real then minimum as real else exact
  }

  function ExactSum(delays: seq<(u16, u16)>, minimum: u32): real
  {
    if delays == [] then 0.0
    else
      var last := delays[|delays| - 1];
      ExactSum(delays[..|delays| - 1], minimum) + ExactDelay(last.0, last.1, minimum)
  }

  const Q32R: real := 4294967296.0

  lemma FloorOfQuotient(n: int, d: int)
    requires d > 0
    ensures (n / d) as real <= n as real / d as real < (n / d) as real + 1.0
  {
    var q, rest := n / d, n % d;
    assert n as real == q as real * d as real + rest as real by {
      assert n == q * d + rest;
    }
    assert n as real / d as real == q as real + rest as real / d as real;
    assert 0.0 <= rest as real / d as real < 1.0;
  }

  lemma DelayErrorUnderOneQ(num: u16, den: u16, minimum: u32)
    ensures DelayQ(num, den, minimum) as real <= ExactDelay(num, den, minimum) * Q32R
                                              < DelayQ(num, den, minimum) as real + 1.0
  {
    var d := Denominator(den);
    var units := num * 1_000_000;
    FloorOfQuotient(units * Q32, d);
    assert (units * Q32) as real / d as real == units as real / d as real * Q32R;
  }

  /** Quantising n delays loses less than n * 2^-32 microsecond in all. */
  lemma {:induction false} DeadlineErrorBound(delays: seq<(u16, u16)>, minimum: u32)
    ensures SumQ(delays, minimum) as real <= ExactSum(delays, minimum) * Q32R
                                          <= SumQ(delays, minimum) as real + |delays| as real
    ensures delays != [] ==> ExactSum(delays, minimum) * Q32R < SumQ(delays, minimum) as real + |delays| as real
  {
    if delays != [] {
      var last := delays[|delays| - 1];
      DeadlineErrorBound(delays[..|delays| - 1], minimum);
      DelayErrorUnderOneQ(last.0, last.1, minimum);
    }
  }
}
