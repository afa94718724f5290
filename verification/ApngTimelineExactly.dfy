/** When each operation on the animation clock succeeds and what it answers, over every run. */
module ApngTimelineExactly {
  import opened Prelude
  import opened ApngTimeline
  import opened ApngTimelineLaws

  /** The media time has reached the deadline. */
  predicate Passed(c: Clock)
  {
    MediaTicks(c) * Q32 >= DeadlineQ(c) * c.rateDen
  }

  /** After n commits a frame is requested: the next one of its play, with a reset before the first. */
  function Request(n: nat, frames: nat): Option<Step>
    requires frames > 0 && frames <= U32_MAX
  {
    QuotientWithin(n, frames);
    if n / frames > U64_MAX then None else Some(Step(Frame, n % frames, n / frames, 0, n % frames == 0))
  }

  /** What a poll answers over every run, from the number of commits n alone and from whether the deadline passed:
      an ended or paused clock says so; frame n is requested when it is awaited, or due with more to show; the end
      is announced when the last deadline passed; and otherwise the answer is to wait. It fails only when time
      runs backwards or a number does not fit 64 bits. */
  lemma PollAnswers(frames: u32, plays: u32, animated: bool, minimum: u32, start: u64, ops: seq<Op>, now: u64)
    requires InitAllowed(frames, animated, minimum)
    ensures var r := RunOf(frames, plays, animated, minimum, start, ops);
            var c, n, total: nat := r.clock, |r.committed|, if animated then plays else 1;
            && Sound(c)
            && match Advanced(c, now) {
                 case None => Polled(c, now).None?
                 case Some(a) =>
                   var p := Polled(c, now);
                   if c.ended then p == Some((a, Step(Ended, c.index, c.completedPlays, 0, false)))
                   else if c.paused then p == Some((a, Step(Paused, c.index, c.completedPlays, 0, false)))
                   else if c.awaitingFrame || (Passed(a) && (total == 0 || n < total * frames)) then
                     match Request(n, frames) {
                       case None => p.None?
                       case Some(step) => p == Some((a.(index := step.frameIndex, completedPlays := step.completedPlays, awaitingFrame := true), step))
                     }
                   else if Passed(a) then
                     p == Some((a.(completedPlays := total, ended := true), Step(Ended, c.index, total, 0, false)))
                   else if a.rateDen == 0 || a.rateNum == 0 || RemainingUs(a) > U64_MAX || WaitFor(a) > U64_MAX then p.None?
                   else WaitFor(a) >= 0 && p == Some((a, Step(Wait, c.index, c.completedPlays, WaitFor(a), false)))
               }
  {
    hide SumQ, DelayQ, RemainingUs, WaitFor, DueExactly, MediaTicks, DeadlineQ, After, Advanced;
    var begun := NewRun(frames, plays, animated, minimum, start);
    ParametersNeverChange(begun, ops);
    var r := After(begun, ops);
    var c, n, total := r.clock, |r.committed|, if animated then plays else 1;
    if Advanced(c, now).Some? {
      AdvanceKeepsRest(c, now);
      Counted(c, n);
      if !c.ended { PollCounts(c, Advanced(c, now).value, now, n, total); }
    }
  }

  /** Index and plays of the next frame. */
  lemma Counted(c: Clock, n: nat)
    requires Sound(c) && c.initialized && CountLaw(c, n)
    ensures !c.ended && c.awaitingFrame ==> n / c.frames == c.completedPlays && n % c.frames == c.index
    ensures !c.ended && !c.awaitingFrame && c.index + 1 < c.frames ==> n / c.frames == c.completedPlays && n % c.frames == c.index + 1
    ensures !c.ended && !c.awaitingFrame && c.index + 1 == c.frames ==> n / c.frames == c.completedPlays + 1 && n % c.frames == 0
    ensures !c.ended && !c.awaitingFrame && c.plays != 0 ==> (n == c.plays * c.frames <==> c.index + 1 == c.frames && c.completedPlays + 1 == c.plays)
  {
    if !c.ended {
      if c.awaitingFrame {
        Digits(n, c.completedPlays, c.index, c.frames);
      } else if c.index + 1 < c.frames {
        Digits(n, c.completedPlays, c.index + 1, c.frames);
      } else {
        NextPlay(c.completedPlays, c.frames);
        Digits(n, c.completedPlays + 1, 0, c.frames);
      }
      if c.plays != 0 && !c.awaitingFrame { AllFrames(c.completedPlays, c.index + 1, c.plays, c.frames); }
    }
  }

  lemma NextPlay(p: int, f: int)
    ensures (p + 1) * f == p * f + f
  {
  }

  lemma Digits(n: int, p: int, i: int, f: int)
    requires n == p * f + i && 0 <= i < f
    ensures n / f == p && n % f == i
  {
    DivModUnique(p, i, f);
  }

  lemma PollCounts(c: Clock, a: Clock, now: u64, n: nat, total: nat)
    requires Sound(c) && c.initialized && CountLaw(c, n) && !c.ended && Advanced(c, now) == Some(a) && total == c.plays
    requires a == c.(mediaUs := a.mediaUs, mediaFraction := a.mediaFraction, lastUs := a.lastUs) && Sound(a)
    ensures var p := Polled(c, now);
            if c.paused then p == Some((a, Step(Paused, c.index, c.completedPlays, 0, false)))
            else if c.awaitingFrame || (Passed(a) && (total == 0 || n < total * c.frames)) then
              match Request(n, c.frames) {
                case None => p.None?
                case Some(step) => p == Some((a.(index := step.frameIndex, completedPlays := step.completedPlays, awaitingFrame := true), step))
              }
            else if Passed(a) then p == Some((a.(completedPlays := total, ended := true), Step(Ended, c.index, total, 0, false)))
            else if RemainingUs(a) > U64_MAX || WaitFor(a) > U64_MAX then p.None?
            else WaitFor(a) >= 0 && p == Some((a, Step(Wait, c.index, c.completedPlays, WaitFor(a), false)))
  {
    hide RemainingUs, WaitFor, MediaTicks, DeadlineQ, Advanced, CountLaw;
    Counted(c, n);
    NotBeyond(c, n);
    if !c.paused && !c.awaitingFrame && !Passed(a) { WaitPositive(a); }
  }

  lemma NotBeyond(c: Clock, n: nat)
    requires Sound(c) && c.initialized && CountLaw(c, n) && !c.ended
    ensures c.plays != 0 ==> n <= c.plays * c.frames && c.completedPlays < c.plays
    ensures c.awaitingFrame && c.plays != 0 ==> n < c.plays * c.frames
  {
    CountBound(c, n);
    if c.plays != 0 && c.awaitingFrame { NotAllFrames(c.completedPlays, c.index, c.plays, c.frames); }
  }

  lemma WaitPositive(a: Clock)
    requires Sound(a) && a.initialized && !Passed(a)
    ensures RemainingUs(a) > 0 && WaitFor(a) > 0
  {
    hide MediaTicks, DeadlineQ;
    WaitExactly(a);
    var r := RemainingUs(a);
    if r <= 0 { MulMonotone(r, 0, a.rateDen * Q32); }
    MulMonotone(1, r, a.rateDen);
    if WaitFor(a) <= 0 { MulMonotone(WaitFor(a), 0, a.rateNum); }
  }

  /** The wait is the least number of microseconds at the rate that covers the remaining media time, which is
      itself the least number of whole microseconds that reaches the deadline. */
  lemma WaitExactly(c: Clock)
    requires Sound(c) && c.initialized
    ensures (RemainingUs(c) - 1) * (c.rateDen * Q32) < Gap(c) <= RemainingUs(c) * (c.rateDen * Q32)
    ensures (WaitFor(c) - 1) * c.rateNum < RemainingUs(c) * c.rateDen <= WaitFor(c) * c.rateNum
  {
    hide MediaTicks, DeadlineQ;
    CeilDivBounds(Gap(c), c.rateDen * Q32);
    CeilDivBounds(RemainingUs(c) * c.rateDen, c.rateNum);
  }

  /** A commit succeeds exactly when a frame is awaited and neither the media time nor the deadline overflows: the
      deadline is then one delay after the last, or after the media time of the first commit. A still picture ends
      with its commit. */
  lemma CommitExactly(c: Clock, now: u64, num: u16, den: u16)
    requires Sound(c) && c.initialized
    ensures (Committed(c, now, num, den).Some? <==>
              && c.awaitingFrame && !c.ended && Advanced(c, now).Some?
              && Advanced(c, now).value.rateDen > 0
              && BaseQ(Advanced(c, now).value) + (if c.animated then DelayQ(num, den, c.minimumDelayUs) else 0) < (U64_MAX + 1) * Q32)
    ensures Committed(c, now, num, den).Some? ==>
              var a, d := Advanced(c, now).value, Committed(c, now, num, den).value;
              && DeadlineQ(d) == BaseQ(a) + (if c.animated then DelayQ(num, den, c.minimumDelayUs) else 0)
              && d == a.(deadlineUs := d.deadlineUs, deadlineFraction := d.deadlineFraction, started := true, awaitingFrame := false,
                         ended := !c.animated, completedPlays := if c.animated then c.completedPlays else 1)
  {
    hide MediaTicks, DelayQ, Advanced;
    if Advanced(c, now).Some? {
      AdvanceKeepsRest(c, now);
      var a := Advanced(c, now).value;
      BasePositive(a);
      var q := BaseQ(a) + (if c.animated then DelayQ(num, den, c.minimumDelayUs) else 0);
      DivExceeds(q, Q32, U64_MAX + 1);
    }
  }

  lemma BasePositive(a: Clock)
    requires Sound(a) && a.initialized
    ensures BaseQ(a) >= 0
  {
    MulMonotone(0, a.mediaUs, a.rateDen);
    DivExceeds(MediaTicks(a) * Q32, a.rateDen, 0);
  }

  /** Pausing and changing the rate succeed exactly when the clock can be advanced, and the rate is between a tenth
      and ten; a pause changes nothing else, and a rate only the grid that media time is counted on. */
  lemma PauseAndRateExactly(c: Clock, now: u64, paused: bool, num: u32, den: u32)
    requires Sound(c) && c.initialized
    ensures PausedAs(c, now, paused).Some? <==> Advanced(c, now).Some?
    ensures PausedAs(c, now, paused).Some? ==> PausedAs(c, now, paused).value == Advanced(c, now).value.(paused := paused)
    ensures Rated(c, now, num, den).Some? <==>
              Advanced(c, now).Some? && 1 <= num <= 1_000_000 && 1 <= den <= 1_000_000 && den <= 10 * num && num <= 10 * den
    ensures Rated(c, now, num, den).Some? ==>
              var a, d := Advanced(c, now).value, Rated(c, now, num, den).value;
              d == a.(mediaFraction := d.mediaFraction, rateNum := num, rateDen := den)
  {
    hide Advanced;
  }
}
