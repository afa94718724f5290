/**
 The serialized presentation clock of an animation: rational-rate media time with an exact
 remainder, deadlines with 32 fraction bits, and the frame index that advances when they pass.

 The specification functions below use exact arithmetic (one number of ticks, one Q32 deadline);
 the class runs the 64-bit code, which splits every quantity into parts so that nothing wraps.
 */
module ApngTimeline {
  import opened Prelude

  const Q32: int := 0x1_0000_0000
  const RATE_LIMIT: int := 1_000_000

  datatype Clock = Clock(
    lastUs: u64, mediaUs: u64, deadlineUs: u64, completedPlays: u64,
    rateNum: u32, rateDen: u32, mediaFraction: u32, deadlineFraction: u32,
    frames: u32, plays: u32, index: u32, minimumDelayUs: u32,
    initialized: bool, animated: bool, started: bool, awaitingFrame: bool, paused: bool, ended: bool)

  datatype Action = Frame | Wait | Paused | Ended

  datatype Step = Step(action: Action, frameIndex: u32, completedPlays: u64, waitUs: u64, resetCanvas: bool)

  const NO_STEP: Step := Step(Wait, 0, 0, 0, false)

  predicate RateAllowed(num: u32, den: u32)
  {
    0 < num <= RATE_LIMIT && 0 < den <= RATE_LIMIT && num * 10 >= den && den * 10 >= num
  }

  /** What initialization establishes and every operation keeps. */
  ghost predicate Sound(c: Clock)
  {
    c.initialized ==>
      && RateAllowed(c.rateNum, c.rateDen)
      && c.mediaFraction < c.rateDen
      && c.index < c.frames
      && 0 < c.minimumDelayUs <= 1_000_000
      && (!c.animated ==> c.frames == 1 && c.plays == 1)
  }

  // ----- exact specification -----

  /** Media time in units of 1/rateDen microsecond. */
  function MediaTicks(c: Clock): int
  {
    c.mediaUs * c.rateDen + c.mediaFraction
  }

  /** The pending deadline in units of 2^-32 microsecond. */
  function DeadlineQ(c: Clock): int
  {
    c.deadlineUs * Q32 + c.deadlineFraction
  }

  function AtTicks(c: Clock, ticks: int): Clock
    requires 0 < c.rateDen && 0 <= ticks && ticks / c.rateDen <= U64_MAX
  {
    var rest: u32 := ticks % c.rateDen;
    c.(mediaUs := ticks / c.rateDen, mediaFraction := rest)
  }

  function AtDeadline(c: Clock, q: int): Clock
    requires 0 <= q && q / Q32 <= U64_MAX
  {
    c.(deadlineUs := q / Q32, deadlineFraction := q % Q32)
  }

  /** Wall time moves media time by exactly elapsed * rate; only a 64-bit overflow can stop it. */
  function Advanced(c: Clock, now: u64): Option<Clock>
    requires Sound(c)
  {
    if !c.initialized || now < c.lastUs then None
    else
      var elapsed := if c.paused then 0 else now - c.lastUs;
      MulMonotone(0, elapsed, c.rateNum);
      MulMonotone(0, c.mediaUs, c.rateDen);
      var ticks := MediaTicks(c) + elapsed * c.rateNum;
      if ticks / c.rateDen > U64_MAX then None
      else Some(AtTicks(c, ticks).(lastUs := now))
  }

  predicate DueExactly(c: Clock)
  {
    MediaTicks(c) * Q32 >= DeadlineQ(c) * c.rateDen
  }

  /** Remaining media time, rounded up to whole microseconds. */
  function RemainingUs(c: Clock): int
    requires 0 < c.rateDen
  {
    CeilDiv(DeadlineQ(c) * c.rateDen - MediaTicks(c) * Q32, c.rateDen * Q32)
  }

  function WaitFor(c: Clock): int
    requires 0 < c.rateDen && 0 < c.rateNum
  {
    CeilDiv(RemainingUs(c) * c.rateDen, c.rateNum)
  }

  /** A passed deadline moves to the next frame, the next play, or the end. */
  function Turned(c: Clock): Option<Clock>
    requires c.index < c.frames
  {
    TurnedWhen(c, DueExactly(c))
  }

  function TurnedWhen(c: Clock, due: bool): Option<Clock>
    requires c.index < c.frames
  {
    if c.awaitingFrame || !due then Some(c)
    else if c.index + 1 < c.frames then Some(c.(index := c.index + 1, awaitingFrame := true))
    else if c.completedPlays == U64_MAX then None
    else
      var d := c.(completedPlays := c.completedPlays + 1);
      if d.plays != 0 && d.completedPlays >= d.plays then Some(d.(ended := true, awaitingFrame := false))
      else Some(d.(index := 0, awaitingFrame := true))
  }

  function Polled(c: Clock, now: u64): Option<(Clock, Step)>
    requires Sound(c)
  {
    match Advanced(c, now)
    case None => None
    case Some(a) =>
      if a.ended then Some((a, Step(Ended, a.index, a.completedPlays, 0, false)))
      else if a.paused then Some((a, Step(Paused, a.index, a.completedPlays, 0, false)))
      else
        match Turned(a)
        case None => None
        case Some(t) =>
          if t.ended then Some((t, Step(Ended, t.index, t.completedPlays, 0, false)))
          else if t.awaitingFrame then Some((t, Step(Frame, t.index, t.completedPlays, 0, t.index == 0)))
          else if RemainingUs(t) > U64_MAX || WaitFor(t) > U64_MAX || WaitFor(t) < 0 then None
          else Some((t, Step(Wait, t.index, t.completedPlays, WaitFor(t), false)))
  }

  function Denominator(den: u16): u16
  {
    if den == 0 then 100 else den
  }

  /** A frame delay in Q32 microseconds: truncated to the grid, never below the minimum. */
  function DelayQ(num: u16, den: u16, minimum: u32): int
  {
    Max(num * 1_000_000 * Q32 / Denominator(den), minimum * Q32)
  }

  /** The deadline a commit adds its delay to: media time, truncated to Q32, for the first frame. */
  function BaseQ(c: Clock): int
    requires 0 < c.rateDen
  {
    if c.started then DeadlineQ(c) else MediaTicks(c) * Q32 / c.rateDen
  }

  function Committed(c: Clock, now: u64, num: u16, den: u16): Option<Clock>
    requires Sound(c)
  {
    if !c.awaitingFrame || c.ended then None
    else
      match Advanced(c, now)
      case None => None
      case Some(a) =>
        var q := BaseQ(a) + (if a.animated then DelayQ(num, den, a.minimumDelayUs) else 0);
        if BaseQ(a) < 0 || q / Q32 > U64_MAX then None
        else
          var d := AtDeadline(a, q).(started := true, awaitingFrame := false);
          Some(if a.animated then d else d.(ended := true, completedPlays := 1))
  }

  function PausedAs(c: Clock, now: u64, paused: bool): Option<Clock>
    requires Sound(c)
  {
    match Advanced(c, now)
    case None => None
    case Some(a) => Some(a.(paused := paused))
  }

  function Rated(c: Clock, now: u64, num: u32, den: u32): Option<Clock>
    requires Sound(c)
  {
    if !RateAllowed(num, den) then None
    else
      match Advanced(c, now)
      case None => None
      case Some(a) =>
        ScaledFraction(a.mediaFraction, a.rateDen, den);
        Some(a.(mediaFraction := a.mediaFraction * den / a.rateDen, rateNum := num, rateDen := den))
  }

  function Initial(frames: u32, plays: u32, animated: bool, minimum: u32, now: u64): Clock
  {
    Clock(now, 0, 0, 0, 1, 1, 0, 0, frames, if animated then plays else 1, 0, minimum,
          true, animated, false, true, false, false)
  }

  predicate InitAllowed(frames: u32, animated: bool, minimum: u32)
  {
    frames != 0 && (animated || frames == 1) && 0 < minimum <= 1_000_000
  }

  // ----- the 64-bit code -----

  /** The comparison the code makes, on the split representation. */
  predicate IsDue(c: Clock)
  {
    c.mediaUs > c.deadlineUs
    || (c.mediaUs == c.deadlineUs && c.mediaFraction * Q32 >= c.deadlineFraction * c.rateDen)
  }

  lemma FractionProduct(part: int, whole: int, scale: int)
    requires 0 <= part < whole && 0 < scale
    ensures 0 <= part * scale < whole * scale
  {
  }

  /** Deadline minus media time on the common grid: whole microseconds plus less than one. */
  lemma GapFromParts(deadline: int, high: int, media: int, low: int, den: int, scale: int)
    requires 0 <= high < scale && 0 <= low < den
    ensures (deadline * scale + high) * den - (media * den + low) * scale
            == (deadline - media) * (den * scale) + (high * den - low * scale)
    ensures -(den * scale) < high * den - low * scale < den * scale
  {
    FractionProduct(high, scale, den);
    FractionProduct(low, den, scale);
    calc {
      (deadline * scale + high) * den - (media * den + low) * scale;
      deadline * scale * den + high * den - media * den * scale - low * scale;
      { assert deadline * scale * den == deadline * (den * scale); assert media * den * scale == media * (den * scale); }
      (deadline - media) * (den * scale) + (high * den - low * scale);
    }
  }

  lemma DueIsExact(c: Clock)
    requires c.mediaFraction < c.rateDen
    ensures IsDue(c) <==> DueExactly(c)
  {
    GapFromParts(c.deadlineUs, c.deadlineFraction, c.mediaUs, c.mediaFraction, c.rateDen, Q32);
    var k := c.deadlineUs - c.mediaUs;
    if k >= 1 {
      MulMonotone(1, k, c.rateDen * Q32);
    } else if k <= -1 {
      MulMonotone(k, -1, c.rateDen * Q32);
    }
  }

  /** What is left to wait, from the parts the code holds. */
  lemma RemainingFromParts(c: Clock)
    requires c.mediaFraction < c.rateDen
    ensures RemainingUs(c) == c.deadlineUs - c.mediaUs
                              + (if c.deadlineFraction * c.rateDen > c.mediaFraction * Q32 then 1 else 0)
  {
    GapFromParts(c.deadlineUs, c.deadlineFraction, c.mediaUs, c.mediaFraction, c.rateDen, Q32);
    var x := c.deadlineFraction * c.rateDen - c.mediaFraction * Q32;
    CeilOfGap(c.deadlineUs - c.mediaUs, x, c.rateDen * Q32);
  }

  lemma CeilOfGap(k: int, x: int, unit: int)
    requires 0 < unit && -unit < x < unit
    ensures CeilDiv(k * unit + x, unit) == k + (if x > 0 then 1 else 0)
  {
    CeilDivIs(k * unit + x, unit, k + (if x > 0 then 1 else 0));
  }

  lemma CeilDivIs(a: int, b: int, q: int)
    requires b > 0 && (q - 1) * b < a <= q * b
    ensures CeilDiv(a, b) == q
  {
    CeilDivBounds(a, b);
    MultipleWithin(CeilDiv(a, b) - q, b);
  }

  /** Ceiling of a scaled quotient, computed without forming the large product. */
  lemma CeilFromParts(delta: int, den: int, num: int)
    requires 0 <= delta && 0 < den && 0 < num
    ensures CeilDiv(delta * den, num) == delta / num * den + CeilDiv(delta % num * den, num)
    ensures delta % num * den >= 0 && CeilDiv(delta % num * den, num) >= 0
  {
    MulMonotone(0, delta % num, den);
    QuotientWithin(delta % num * den, num);
    assert delta * den == (delta / num * den) * num + delta % num * den;
    DivModShift(delta / num * den, delta % num * den, num);
  }

  /** A fraction below one whole stays below one whole on a different grid. */
  lemma ScaledFraction(fraction: int, whole: int, scale: int)
    requires 0 <= fraction < whole && 0 < scale
    ensures 0 <= fraction * scale / whole < scale
  {
    MulMonotone(fraction, whole - 1, scale);
    MulMonotone(0, fraction, scale);
    DivExceeds(fraction * scale, whole, scale);
  }

  /** Exact ticks after an advance, from the parts the code holds. */
  lemma AdvanceFromParts(media: int, fraction: int, elapsed: int, num: int, den: int)
    requires 0 < den && 0 <= elapsed && 0 < num
    ensures var ticks := media * den + fraction + elapsed * num;
            var tail := elapsed % den * num + fraction;
            && ticks / den == media + elapsed / den * num + tail / den
            && ticks % den == tail % den
  {
    var tail := elapsed % den * num + fraction;
    assert elapsed * num == elapsed / den * den * num + elapsed % den * num;
    assert media * den + fraction + elapsed * num == (media + elapsed / den * num) * den + tail;
    DivModShift(media + elapsed / den * num, tail, den);
  }

  /** The truncated delay, from the whole microseconds and the fraction the code computes. */
  lemma DelayFromParts(units: int, den: int)
    requires 0 <= units && 0 < den
    ensures units * Q32 / den == units / den * Q32 + units % den * Q32 / den
    ensures 0 <= units % den * Q32 / den < Q32
    ensures 0 <= units / den <= units
  {
    QuotientWithin(units, den);
    assert units * Q32 == (units / den * Q32) * den + units % den * Q32;
    DivModShift(units / den * Q32, units % den * Q32, den);
    ScaledFraction(units % den, den, Q32);
  }

  /** The first deadline: media time on the Q32 grid. */
  lemma StartFromParts(media: int, fraction: int, den: int, scale: int)
    requires 0 <= fraction < den && 0 < scale
    ensures 0 <= fraction * scale / den < scale
    ensures (media * den + fraction) * scale / den == media * scale + fraction * scale / den
  {
    ScaledFraction(fraction, den, scale);
    assert (media * den + fraction) * scale == (media * scale) * den + fraction * scale;
    DivModShift(media * scale, fraction * scale, den);
  }

  /** A deadline plus a delay, added in parts with the carry. */
  lemma NextDeadlineFromParts(whole: int, low: int, duration: int, fraction: int)
    ensures var q := (whole * Q32 + low) + (duration * Q32 + fraction);
            && q / Q32 == whole + (duration + (fraction + low) / Q32)
            && q % Q32 == (fraction + low) % Q32
  {
    DivModShift(whole + duration, fraction + low, Q32);
  }

  /** The code's two overflow guards reject exactly the sums that leave 64 bits. */
  lemma AdvanceGuards(media: int, whole: int, tail: int, num: int, den: int)
    requires 0 <= media <= U64_MAX && 0 <= whole && 0 <= tail && 0 < num && 0 < den
    ensures whole > (U64_MAX - media) / num <==> whole * num > U64_MAX - media
    ensures 0 <= tail / den
    ensures 0 <= whole * num
  {
    DivExceeds(U64_MAX - media, num, whole);
    MulMonotone(0, whole, num);
  }

  lemma RemainderProduct(n: int, d: int, k: int, limit: int)
    requires 0 < d <= limit && 0 < k <= limit
    ensures 0 <= n % d * k <= limit * limit
  {
    MulMonotone(n % d, limit, k);
    MulMonotone(k, limit, limit);
    MulMonotone(0, n % d, k);
  }

  /** The parts of a wait fit 64 bits, and the two guards reject exactly the waits that do not. */
  lemma WaitGuards(delta: int, den: int, num: int)
    requires 0 <= delta && 0 < den <= RATE_LIMIT && 0 < num <= RATE_LIMIT
    ensures var whole, tail, wait := delta / num, delta % num * den, CeilDiv(delta * den, num);
            && 0 <= whole <= delta && 0 <= tail <= RATE_LIMIT * RATE_LIMIT
            && 0 <= CeilDiv(tail, num) <= tail + 1
            && wait == whole * den + CeilDiv(tail, num) && 0 <= whole * den
            && (whole > U64_MAX / den <==> whole * den > U64_MAX)
  {
    CeilFromParts(delta, den, num);
    RemainderProduct(delta, num, den, RATE_LIMIT);
    QuotientWithin(delta, num);
    QuotientWithin(delta % num * den, num);
    DivExceeds(U64_MAX, den, delta / num);
    MulMonotone(0, delta / num, den);
  }

  method Advance(c: Clock, now: u64) returns (ok: bool, r: Clock)
    requires Sound(c)
    ensures ok == Advanced(c, now).Some?
    ensures ok ==> r == Advanced(c, now).value
  {
    r := c;
    if !c.initialized || now < c.lastUs { return false, r; }
    var elapsed: u64 := if c.paused then 0 else now - c.lastUs;
    AdvanceFromParts(c.mediaUs, c.mediaFraction, elapsed, c.rateNum, c.rateDen);
    RemainderProduct(elapsed, c.rateDen, c.rateNum, RATE_LIMIT);
    QuotientWithin(elapsed, c.rateDen);
    var whole: u64 := elapsed / c.rateDen;
    var tail: u64 := elapsed % c.rateDen * c.rateNum + c.mediaFraction;
    AdvanceGuards(c.mediaUs, whole, tail, c.rateNum, c.rateDen);
    if whole > (U64_MAX - c.mediaUs) / c.rateNum { return false, r; }
    var moved: u64 := whole * c.rateNum;
    if tail / c.rateDen > U64_MAX - c.mediaUs - moved { return false, r; }
    r := c.(mediaUs := c.mediaUs + moved + tail / c.rateDen, mediaFraction := tail % c.rateDen, lastUs := now);
    ok := true;
  }

  class Timeline {
    var clock: Clock

    ghost predicate Valid()
      reads this
    {
      Sound(clock)
    }

    /** A clock before its first initialization: every operation on it fails. */
    constructor ()
      ensures Valid() && !clock.initialized
    {
      clock := Clock(0, 0, 0, 0, 0, 0, 0, 0, 0, 0, 0, 0, false, false, false, false, false, false);
    }

    method Init(frames: u32, plays: u32, animated: bool, minimum: u32, now: u64) returns (ok: bool)
      modifies this
      ensures ok == InitAllowed(frames, animated, minimum)
      ensures clock == if ok then Initial(frames, plays, animated, minimum, now) else old(clock)
      ensures ok ==> Valid()
    {
      if frames == 0 || (!animated && frames != 1) || minimum == 0 || minimum > 1_000_000 { return false; }
      clock := Clock(now, 0, 0, 0, 1, 1, 0, 0, frames, if animated then plays else 1, 0, minimum,
                     true, animated, false, true, false, false);
      ok := true;
    }

    method Poll(now: u64) returns (ok: bool, step: Step)
      requires Valid()
      modifies this
      ensures Valid()
      ensures ok == Polled(old(clock), now).Some?
      ensures ok ==> (clock, step) == Polled(old(clock), now).value
      ensures !ok ==> clock == old(clock)
    {
      step := NO_STEP;
      var c;
      ok, c := Advance(clock, now);
      if !ok { return; }
      var action, wait: u64, reset := Wait, 0, false;
      if c.ended {
        action := Ended;
      } else if c.paused {
        action := Paused;
      } else {
        DueIsExact(c);
        if !c.awaitingFrame && IsDue(c) {
          if c.index + 1 < c.frames {
            c := c.(index := c.index + 1);
          } else {
            if c.completedPlays == U64_MAX { return false, step; }
            c := c.(completedPlays := c.completedPlays + 1);
            if c.plays != 0 && c.completedPlays >= c.plays {
              c := c.(ended := true);
            } else {
              c := c.(index := 0);
            }
          }
          c := c.(awaitingFrame := !c.ended);
        }
        if c.ended {
          action := Ended;
        } else if c.awaitingFrame {
          action, reset := Frame, c.index == 0;
        } else {
          ok, wait := WaitTime(c);
          if !ok { return; }
        }
      }
      step := Step(action, c.index, c.completedPlays, wait, reset);
      clock := c;
      ok := true;
    }

    /** The conservative integer wake-up, rounded up twice. */
    static method WaitTime(c: Clock) returns (ok: bool, wait: u64)
      requires Sound(c) && c.initialized && !IsDue(c)
      ensures ok == (RemainingUs(c) <= U64_MAX && 0 <= WaitFor(c) <= U64_MAX)
      ensures ok ==> wait == WaitFor(c)
    {
      hide MediaTicks, DeadlineQ, DueExactly;
      RemainingFromParts(c);
      wait := 0;
      var delta: u64 := c.deadlineUs - c.mediaUs;
      if c.deadlineFraction * c.rateDen > c.mediaFraction * Q32 {
        if delta == U64_MAX { return false, wait; }
        delta := delta + 1;
      }
      WaitGuards(delta, c.rateDen, c.rateNum);
      var whole: u64, tail: u64 := delta / c.rateNum, delta % c.rateNum * c.rateDen;
      if whole > U64_MAX / c.rateDen { return false, wait; }
      whole := whole * c.rateDen;
      tail := tail / c.rateNum + (if tail % c.rateNum != 0 then 1 else 0);
      if tail > U64_MAX - whole { return false, wait; }
      return true, whole + tail;
    }

    static method Delay(num: u16, den: u16, minimum: u32) returns (duration: u64, fraction: u64)
      requires minimum <= 1_000_000
      ensures fraction < Q32 && duration <= 0x1_0000 * 1_000_000
      ensures duration * Q32 + fraction == DelayQ(num, den, minimum)
    {
      var d := if den == 0 then 100 else den;
      var units: u64 := num * 1_000_000;
      DelayFromParts(units, d);
      duration, fraction := units / d, units % d * Q32 / d;
      if duration < minimum {
        duration, fraction := minimum, 0;
      }
    }

    /** Moves the deadline on by one delay, as whole microseconds and a Q32 fraction. */
    static method AddDelay(c: Clock, num: u16, den: u16) returns (ok: bool, r: Clock)
      requires c.minimumDelayUs <= 1_000_000
      ensures ok == ((DeadlineQ(c) + DelayQ(num, den, c.minimumDelayUs)) / Q32 <= U64_MAX)
      ensures ok ==> r == AtDeadline(c, DeadlineQ(c) + DelayQ(num, den, c.minimumDelayUs))
    {
      r := c;
      var duration, fraction := Delay(num, den, c.minimumDelayUs);
      NextDeadlineFromParts(c.deadlineUs, c.deadlineFraction, duration, fraction);
      fraction := fraction + c.deadlineFraction;
      duration := duration + fraction / Q32;
      if duration > U64_MAX - c.deadlineUs { return false, r; }
      r := c.(deadlineUs := c.deadlineUs + duration, deadlineFraction := fraction % Q32);
      ok := true;
    }

    method Commit(now: u64, num: u16, den: u16) returns (ok: bool)
      requires Valid()
      modifies this
      ensures Valid()
      ensures ok == Committed(old(clock), now, num, den).Some?
      ensures clock == if ok then Committed(old(clock), now, num, den).value else old(clock)
    {
      if !clock.awaitingFrame || clock.ended { return false; }
      var c;
      ok, c := Advance(clock, now);
      if !ok { return; }
      if !c.started {
        StartFromParts(c.mediaUs, c.mediaFraction, c.rateDen, Q32);
        c := c.(deadlineUs := c.mediaUs, deadlineFraction := c.mediaFraction * Q32 / c.rateDen);
      }
      if !c.animated {
        c := c.(ended := true, completedPlays := 1);
      } else {
        ok, c := AddDelay(c, num, den);
        if !ok { return; }
      }
      c := c.(started := true, awaitingFrame := false);
      clock := c;
      ok := true;
    }

    method Pause(now: u64, paused: bool) returns (ok: bool)
      requires Valid()
      modifies this
      ensures Valid()
      ensures ok == PausedAs(old(clock), now, paused).Some?
      ensures clock == if ok then PausedAs(old(clock), now, paused).value else old(clock)
    {
      var c;
      ok, c := Advance(clock, now);
      if !ok { return; }
      clock := c.(paused := paused);
    }

    method Rate(now: u64, num: u32, den: u32) returns (ok: bool)
      requires Valid()
      modifies this
      ensures Valid()
      ensures ok == Rated(old(clock), now, num, den).Some?
      ensures clock == if ok then Rated(old(clock), now, num, den).value else old(clock)
    {
      if num == 0 || den == 0 || num > RATE_LIMIT || den > RATE_LIMIT || num * 10 < den || den * 10 < num {
        return false;
      }
      var c;
      ok, c := Advance(clock, now);
      if !ok { return; }
      ScaledFraction(c.mediaFraction, c.rateDen, den);
      c := c.(mediaFraction := c.mediaFraction * den / c.rateDen);
      clock := c.(rateNum := num, rateDen := den);
    }
  }
}
