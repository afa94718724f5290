/** One panel transfer at a time: convert a frame into a DMA buffer, wait for the previous one, start the next.

    The value model below carries a log of every call made to the outside: the
    conversion into a buffer, the transport's start and the transport's wait. The
    properties of a run are statements about that log. */
module SpiTransfer {
  import opened Prelude
  import opened SpiFrame

  datatype Outcome = Ok | Invalid | Busy | Fault

  /** The two DMA buffers; the second exists only when overlap is enabled. */
  datatype Buffer = Front | Rear

  datatype Call =
    | Convert(tag: nat, into: Buffer, outcome: Outcome)
    | Start(tag: nat, buffer: Buffer, image: seq<byte>, accepted: bool)
    | Wait(done: bool)

  datatype Transfer = Transfer(
    width: u32, height: u32, swap: bool, transform: bool,
    front: seq<byte>, rear: Option<seq<byte>>, active: Option<Buffer>,
    pending: bool, busy: bool, fault: bool, started: bool,
    log: seq<Call>)

  /** What the callbacks answer during one call; a transform may leave any picture behind.
      Outcome Fault stands for every result other than OK, INVALID and BUSY. */
  datatype Answers = Answers(transformed: Outcome, picture: seq<byte>, started: bool, waited: bool)

  // ----- reading the log -----

  predicate Failing(c: Call)
  {
    match c
    case Convert(_, _, outcome) => outcome == Fault
    case Start(_, _, _, accepted) => !accepted
    case Wait(done) => !done
  }

  predicate Failed(log: seq<Call>)
  {
    exists i :: 0 <= i < |log| && Failing(log[i])
  }

  /** The DMA the transport may still be reading: the last start with no successful wait after it. */
  function Outstanding(log: seq<Call>): (r: Option<Call>)
    ensures r.Some? ==> r.value.Start? && r.value in log
  {
    if log == [] then None
    else
      match log[|log| - 1]
      case Convert(_, _, _) => Outstanding(log[..|log| - 1])
      case Start(_, _, _, _) => Some(log[|log| - 1])
      case Wait(done) => if done then None else Outstanding(log[..|log| - 1])
  }

  /** The starts whose completion was verified, in order. */
  function Verified(log: seq<Call>): seq<Call>
  {
    if log == [] then []
    else
      var before := log[..|log| - 1];
      if log[|log| - 1] == Wait(true) && Outstanding(before).Some? then Verified(before) + [Outstanding(before).value]
      else Verified(before)
  }

  /** The discipline of one call after what came before: nothing after a failure, no conversion
      into the buffer under DMA, no start while another is outstanding, no wait for nothing. */
  predicate CallAllowed(before: seq<Call>, c: Call)
  {
    && !Failed(before)
    && match c
       case Convert(_, into, _) => Outstanding(before).Some? ==> Outstanding(before).value.buffer != into
       case Start(_, _, _, _) => Outstanding(before).None?
       case Wait(_) => Outstanding(before).Some?
  }

  predicate Disciplined(log: seq<Call>)
  {
    forall i :: 0 <= i < |log| ==> CallAllowed(log[..i], log[i])
  }

  lemma Appended(log: seq<Call>, c: Call)
    ensures (log + [c])[..|log|] == log && (log + [c])[|log|] == c
    ensures Failed(log + [c]) <==> Failed(log) || Failing(c)
    ensures Disciplined(log + [c]) <==> Disciplined(log) && CallAllowed(log, c)
  {
    hide CallAllowed, Failing;
    var l := log + [c];
    assert l[..|log|] == log;
    forall i | 0 <= i < |log| ensures l[..i] == log[..i] && l[i] == log[i] {}
    if Failed(log) {
      var i :| 0 <= i < |log| && Failing(log[i]);
      assert Failing(l[i]);
    }
    if Failing(c) { assert Failing(l[|log|]); }
    if Disciplined(l) {
      assert CallAllowed(l[..|log|], l[|log|]);
      forall i | 0 <= i < |log| ensures CallAllowed(log[..i], log[i]) { assert CallAllowed(l[..i], l[i]); }
    }
    if Disciplined(log) && CallAllowed(log, c) {
      forall i | 0 <= i < |l| ensures CallAllowed(l[..i], l[i]) {
        if i < |log| { assert CallAllowed(log[..i], log[i]); }
      }
    }
  }

  /** One more call that the discipline allows, and what the log then says. */
  lemma Logged(log: seq<Call>, c: Call)
    requires Disciplined(log) && !Failed(log)
    requires match c
             case Convert(_, into, _) => Outstanding(log).Some? ==> Outstanding(log).value.buffer != into
             case Start(_, _, _, _) => Outstanding(log).None?
             case Wait(_) => Outstanding(log).Some?
    ensures Disciplined(log + [c]) && Failed(log + [c]) == Failing(c) && log <= log + [c]
    ensures Outstanding(log + [c])
            == if c.Start? then Some(c) else if c == Wait(true) then None else Outstanding(log)
    ensures Verified(log + [c])
            == if c == Wait(true) && Outstanding(log).Some? then Verified(log) + [Outstanding(log).value] else Verified(log)
  {
    hide Disciplined, Failed;
    Appended(log, c);
  }

  // ----- the operations -----

  predicate CreateAllowed(front: seq<byte>, width: u32, height: u32)
  {
    0 < width <= 4096 && 0 < height <= 4096 && ImageBytes(width, height) <= |front|
  }

  function Created(front: seq<byte>, width: u32, height: u32, swap: bool): Transfer
  {
    Transfer(width, height, swap, false, front, None, None, false, false, false, false, [])
  }

  function SetTransform(t: Transfer): (Transfer, bool)
  {
    if t.busy || t.started || t.transform || t.fault then (t, false) else (t.(transform := true), true)
  }

  function SetBackBuffer(t: Transfer, pixels: seq<byte>): (Transfer, bool)
  {
    if t.busy || t.started || t.fault || t.rear.Some? || |pixels| < ImageBytes(t.width, t.height) then (t, false)
    else (t.(rear := Some(pixels)), true)
  }

  function Called(t: Transfer, c: Call): Transfer
  {
    t.(log := t.log + [c], fault := t.fault || Failing(c))
  }

  /** Wait for the outstanding transfer, if any; the last part says that one completed. */
  function Finish(t: Transfer, waited: bool): (Transfer, Outcome, bool)
  {
    if t.fault then (t, Fault, false)
    else if !t.pending then (t, Ok, false)
    else if waited then (Called(t, Wait(true)).(pending := false), Ok, true)
    else (Called(t, Wait(false)), Fault, false)
  }

  /** The idle buffer. */
  function Target(t: Transfer): Buffer
  {
    if t.rear.Some? && t.pending && t.active == Some(Front) then Rear else Front
  }

  function Contents(t: Transfer, b: Buffer): seq<byte>
  {
    if b == Front || t.rear.None? then t.front else t.rear.value
  }

  function WithContents(t: Transfer, b: Buffer, bytes: seq<byte>): Transfer
  {
    if b == Front || t.rear.None? then t.(front := bytes) else t.(rear := Some(bytes))
  }

  /** A buffer after some writes: any picture laid over what was there. */
  function Overlaid(picture: seq<byte>, was: seq<byte>): (r: seq<byte>)
    ensures |r| == |was|
  {
    if |picture| <= |was| then picture + was[|picture|..] else picture[..|was|]
  }

  function Conversion(t: Transfer, s: Source, degrees: nat, into: Buffer, a: Answers): Outcome
  {
    if t.transform then a.transformed
    else if PackAllowed(s, |Contents(t, into)|, t.width, t.height, degrees) then Ok else Invalid
  }

  function Picture(t: Transfer, s: Source, degrees: nat, into: Buffer, a: Answers): seq<byte>
  {
    if t.transform then a.picture
    else if PackAllowed(s, |Contents(t, into)|, t.width, t.height, degrees)
    then Packed(s, t.width, t.height, degrees, t.swap)
    else []
  }

  function Converted(t: Transfer, s: Source, degrees: nat, tag: nat, into: Buffer, a: Answers): Transfer
  {
    var written := WithContents(t, into, Overlaid(Picture(t, s, degrees, into, a), Contents(t, into)));
    Called(written, Convert(tag, into, Conversion(t, s, degrees, into, a)))
  }

  /** Hand a buffer to the transport; even a refused start may have begun to read it. */
  function Launched(t: Transfer, tag: nat, b: Buffer, started: bool): Transfer
    requires ImageBytes(t.width, t.height) <= |Contents(t, b)|
  {
    var image := Contents(t, b)[..ImageBytes(t.width, t.height)];
    Called(t, Start(tag, b, image, started)).(active := Some(b), pending := true)
  }

  predicate Sized(t: Transfer)
  {
    && 0 < t.width <= 4096 && 0 < t.height <= 4096
    && ImageBytes(t.width, t.height) <= |t.front|
    && (t.rear.Some? ==> ImageBytes(t.width, t.height) <= |t.rear.value|)
  }

  /** Conversion into the idle buffer and, when another buffer is in flight, its wait. */
  function ConvertThenWait(t: Transfer, s: Source, degrees: nat, tag: nat, into: Buffer, a: Answers): (Transfer, Outcome, bool)
  {
    var c, t1 := Conversion(t, s, degrees, into, a), Converted(t, s, degrees, tag, into, a);
    if c != Ok then (t1, c, false)
    else if t.rear.Some? then Finish(t1, a.waited)
    else (t1, Ok, false)
  }

  /** From the conversion on. */
  function Proceed(t: Transfer, s: Source, degrees: nat, tag: nat, a: Answers): (Transfer, Outcome, bool)
    requires Sized(t)
  {
    var into := Target(t);
    var (u, r, previous) := ConvertThenWait(t, s, degrees, tag, into, a);
    if r != Ok then (u, r, previous)
    else (Launched(u, tag, into, a.started), if a.started then Ok else Fault, previous)
  }

  /** The whole attempt: with one buffer wait, convert, start; with two convert, wait, start. */
  function Attempt(t: Transfer, s: Source, degrees: nat, tag: nat, a: Answers): (Transfer, Outcome, bool)
    requires Sized(t)
  {
    var (t1, r1, p1) := if t.rear.Some? then (t, if t.fault then Fault else Ok, false) else Finish(t, a.waited);
    if r1 != Ok then (t1, r1, p1)
    else
      var (u, r, p2) := Proceed(t1, s, degrees, tag, a);
      (u, r, p1 || p2)
  }

  function SubmitEx(t: Transfer, s: Source, degrees: nat, tag: nat, a: Answers): (Transfer, Outcome, bool)
    requires Sized(t)
  {
    if t.busy then (t, Busy, false)
    else
      var (u, r, previous) := Attempt(t.(busy := true, started := true), s, degrees, tag, a);
      (u.(busy := false), r, previous)
  }

  function Drain(t: Transfer, waited: bool): (Transfer, Outcome)
  {
    if t.busy then (t, Busy)
    else
      var (t1, r, _) := Finish(t.(busy := true), waited);
      (t1.(busy := false), r)
  }

  // ----- what every step keeps -----

  /** The discipline holds, the flags say what the log says, and the buffer under DMA still holds
      the image it was started with. */
  predicate Sound(t: Transfer)
  {
    && Sized(t) && Disciplined(t.log)
    && t.fault == Failed(t.log)
    && t.pending == Outstanding(t.log).Some?
    && (t.pending ==> Loaded(t, Outstanding(t.log).value))
    && (!t.started ==> t.log == [])
  }

  predicate Loaded(t: Transfer, c: Call)
    requires Sized(t)
  {
    && c.Start? && t.active == Some(c.buffer) && (c.buffer == Rear ==> t.rear.Some?)
    && c.image == Contents(t, c.buffer)[..ImageBytes(t.width, t.height)]
  }

  ghost predicate Receipt(t: Transfer, u: Transfer, previous: bool)
  {
    if previous then t.pending && Outstanding(t.log).Some? && Verified(u.log) == Verified(t.log) + [Outstanding(t.log).value]
    else Verified(u.log) == Verified(t.log)
  }

  predicate SameSetup(t: Transfer, u: Transfer)
  {
    && u.width == t.width && u.height == t.height && u.swap == t.swap && u.transform == t.transform
    && u.rear.Some? == t.rear.Some? && u.busy == t.busy && u.started == t.started
  }

  lemma FinishKeeps(t: Transfer, waited: bool)
    requires Sound(t)
    ensures var (u, r, previous) := Finish(t, waited);
            && Sound(u) && SameSetup(t, u) && t.log <= u.log && (t.fault ==> u == t)
            && u.front == t.front && u.rear == t.rear
            && u.fault == (r == Fault) && (r == Ok ==> !u.pending) && (r == Ok || r == Fault)
            && (r == Ok <==> !t.fault && (t.pending ==> waited))
            && previous == (!t.fault && t.pending && waited) && Receipt(t, u, previous)
  {
    hide Disciplined, Failed, Outstanding, Verified, ImageBytes;
    if !t.fault && t.pending {
      Logged(t.log, Wait(waited));
    }
  }

  lemma ConvertKeeps(t: Transfer, s: Source, degrees: nat, tag: nat, a: Answers)
    requires Sound(t) && !t.fault && t.started && (t.rear.None? ==> !t.pending)
    ensures var into := Target(t);
            var u, c := Converted(t, s, degrees, tag, into, a), Conversion(t, s, degrees, into, a);
            && Sound(u) && SameSetup(t, u) && u.pending == t.pending && t.log <= u.log
            && u.fault == (c == Fault)
            && Outstanding(u.log) == Outstanding(t.log) && Verified(u.log) == Verified(t.log)
            && (into == Rear ==> u.rear.Some?)
            && (c == Ok ==> Holds(u, into, t, s, degrees))
  {
    hide Packed, PackAllowed, ImageBytes, Disciplined, Failed, Outstanding, Verified;
    var into := Target(t);
    Logged(t.log, Convert(tag, into, Conversion(t, s, degrees, into, a)));
    if !t.transform && PackAllowed(s, |Contents(t, into)|, t.width, t.height, degrees) {
      PackedFits(s, |Contents(t, into)|, t.width, t.height, degrees, t.swap);
    }
  }

  /** Without a transform the buffer starts with the packed image of the source. */
  ghost predicate Holds(u: Transfer, b: Buffer, t: Transfer, s: Source, degrees: nat)
    requires Sized(t) && Sized(u)
  {
    !t.transform ==>
      && PackAllowed(s, ImageBytes(t.width, t.height), t.width, t.height, degrees)
      && |Contents(u, b)| >= ImageBytes(t.width, t.height)
      && Contents(u, b)[..ImageBytes(t.width, t.height)] == Packed(s, t.width, t.height, degrees, t.swap)
  }

  lemma PackedFits(s: Source, capacity: nat, width: u32, height: u32, degrees: nat, swap: bool)
    requires PackAllowed(s, capacity, width, height, degrees)
    ensures |Packed(s, width, height, degrees, swap)| == ImageBytes(width, height) <= capacity
    ensures PackAllowed(s, ImageBytes(width, height), width, height, degrees)
  {
  }

  lemma LaunchKeeps(t: Transfer, tag: nat, b: Buffer, started: bool)
    requires Sound(t) && !t.fault && !t.pending && t.started && (b == Rear ==> t.rear.Some?)
    ensures var u := Launched(t, tag, b, started);
            && Sound(u) && SameSetup(t, u) && u.fault == !started && u.pending && t.log <= u.log
            && Outstanding(u.log) == Some(Start(tag, b, Contents(t, b)[..ImageBytes(t.width, t.height)], started))
            && Verified(u.log) == Verified(t.log)
  {
    hide Disciplined, Failed, Outstanding, Verified, ImageBytes;
    Logged(t.log, Start(tag, b, Contents(t, b)[..ImageBytes(t.width, t.height)], started));
  }

  // ----- submission -----

  lemma SoundFacts(t: Transfer)
    requires Sound(t)
    ensures Sized(t) && t.pending == Outstanding(t.log).Some? && t.fault == Failed(t.log)
  {
  }

  lemma ConvertThenWaitKeeps(t: Transfer, s: Source, degrees: nat, tag: nat, a: Answers)
    requires Sound(t) && !t.fault && t.started && (t.rear.None? ==> !t.pending)
    ensures var into := Target(t);
            var (u, r, previous) := ConvertThenWait(t, s, degrees, tag, into, a);
            && Sound(u) && SameSetup(t, u) && t.log <= u.log && u.fault == (r == Fault)
            && Receipt(t, u, previous) && (into == Rear ==> u.rear.Some?)
            && (r == Ok ==> !u.pending && previous == t.pending && Holds(u, into, t, s, degrees))
            && (r == Invalid || r == Busy ==> Outstanding(u.log) == Outstanding(t.log) && !previous)
  {
    hide Sound, Sized, Converted, Conversion, Finish, Target, Contents, Packed, PackAllowed, ImageBytes, Outstanding, Verified, Failed;
    var into := Target(t);
    ConvertKeeps(t, s, degrees, tag, a);
    SoundFacts(t);
    var t1 := Converted(t, s, degrees, tag, into, a);
    SoundFacts(t1);
    FinishKeeps(t1, a.waited);
    FinishKeepsContents(t1, a.waited, into);
    SoundFacts(Finish(t1, a.waited).0);
  }

  lemma FinishKeepsContents(t: Transfer, waited: bool, b: Buffer)
    ensures Contents(Finish(t, waited).0, b) == Contents(t, b)
  {
  }

  /** Everything one submission promises: the invariant; FAULT exactly latches; a receipt exactly
      when the previous transfer was verified in this call; and after OK the new frame's own start
      is outstanding, holding the packed image when no transform is installed. */
  lemma SubmitKeeps(t: Transfer, s: Source, degrees: nat, tag: nat, a: Answers)
    requires Sound(t) && !t.busy
    ensures var (u, r, previous) := SubmitEx(t, s, degrees, tag, a);
            && Sound(u) && SameSetup(t.(started := true), u) && u.fault == (r == Fault)
            && Receipt(t, u, previous) && t.log <= u.log
            && (t.fault ==> u.log == t.log && r == Fault)
            && (r == Ok ==>
                  && u.pending && Outstanding(u.log).Some? && previous == t.pending
                  && OwnStart(u, s, degrees, tag))
            && (r == Invalid || r == Busy ==>
                  if t.rear.Some? then Outstanding(u.log) == Outstanding(t.log) && !previous
                  else !u.pending && previous == t.pending)
  {
    hide Sound, Sized, Proceed, Finish, Packed, PackAllowed, ImageBytes, Outstanding, Verified, Failed;
    SoundFacts(t);
    var t0 := t.(busy := true, started := true);
    EnteredSound(t, true, true);
    EnteredSound(Attempt(t0, s, degrees, tag, a).0, false, true);
    if t.rear.Some? {
      if !t.fault { ProceedKeeps(t0, s, degrees, tag, a); }
    } else {
      FinishKeeps(t0, a.waited);
      var (t1, r1, _) := Finish(t0, a.waited);
      SoundFacts(t1);
      if r1 == Ok { ProceedKeeps(t1, s, degrees, tag, a); }
    }
  }

  /** Entering and leaving a call changes only its flags. */
  lemma EnteredSound(t: Transfer, busy: bool, started: bool)
    requires started || !t.started
    ensures Sound(t) ==> Sound(t.(busy := busy, started := started)) && Sized(t.(busy := busy, started := started))
  {
    hide Disciplined, Failed, Outstanding;
  }

  lemma ProceedKeeps(t: Transfer, s: Source, degrees: nat, tag: nat, a: Answers)
    requires Sound(t) && !t.fault && t.started && (t.rear.None? ==> !t.pending)
    ensures Sized(t)
    ensures var (u, r, previous) := Proceed(t, s, degrees, tag, a);
            && Sound(u) && Sized(u) && SameSetup(t, u) && t.log <= u.log && u.fault == (r == Fault) && Receipt(t, u, previous)
            && (r == Invalid || r == Busy ==> Outstanding(u.log) == Outstanding(t.log) && !previous && u.pending == t.pending)
            && (r == Ok ==> previous == t.pending && u.pending && OwnStart(u, s, degrees, tag))
  {
    hide Sound, Sized, ConvertThenWait, Launched, Finish, Target, Contents, Packed, PackAllowed, ImageBytes, Outstanding,
         Verified, Failed;
    var into := Target(t);
    var (u, r, _) := ConvertThenWait(t, s, degrees, tag, into, a);
    ConvertThenWaitKeeps(t, s, degrees, tag, a);
    SoundFacts(t);
    SoundFacts(u);
    if r == Ok {
      BufferFits(u, into);
      LaunchKeeps(u, tag, into, a.started);
      SoundFacts(Launched(u, tag, into, a.started));
    }
  }

  lemma BufferFits(t: Transfer, b: Buffer)
    requires Sized(t)
    ensures ImageBytes(t.width, t.height) <= |Contents(t, b)|
  {
  }

  /** The outstanding start is this frame's. */
  ghost predicate OwnStart(u: Transfer, s: Source, degrees: nat, tag: nat)
    requires Sized(u)
  {
    && Outstanding(u.log).Some? && Outstanding(u.log).value.tag == tag && Outstanding(u.log).value.accepted
    && (!u.transform ==>
          && PackAllowed(s, ImageBytes(u.width, u.height), u.width, u.height, degrees)
          && Outstanding(u.log).value.image == Packed(s, u.width, u.height, degrees, u.swap))
  }

  lemma ConversionExactly(t: Transfer, s: Source, degrees: nat, into: Buffer, a: Answers)
    requires Sized(t)
    ensures Conversion(t, s, degrees, into, a)
            == if t.transform then a.transformed
               else if PackAllowed(s, ImageBytes(t.width, t.height), t.width, t.height, degrees) then Ok else Invalid
  {
  }

  /** What a submission answers, in the order in which it may be turned down; OK otherwise. A refused
      conversion is INVALID, and anything that fails is FAULT. */
  lemma SubmitAnswersExactly(t: Transfer, s: Source, degrees: nat, tag: nat, a: Answers)
    requires Sound(t)
    ensures SubmitEx(t, s, degrees, tag, a).1
            == if t.busy then Busy
               else if t.fault || (t.pending && !a.waited && t.rear.None?) then Fault
               else if t.transform && a.transformed != Ok then a.transformed
               else if !t.transform && !PackAllowed(s, ImageBytes(t.width, t.height), t.width, t.height, degrees) then Invalid
               else if (t.pending && !a.waited) || !a.started then Fault
               else Ok
  {
    hide PackAllowed, ImageBytes, Packed, Sound, Target, Contents, Picture, Overlaid, Outstanding, Failed, Verified;
    SoundFacts(t);
    if !t.busy {
      var t0 := t.(busy := true, started := true);
      EnteredSound(t, true, true);
      var t1 := if t.rear.Some? then t0 else Finish(t0, a.waited).0;
      ConversionExactly(t1, s, degrees, Target(t1), a);
    }
  }

  /** A transform or a second buffer is taken once, before the first submission, by a session without a
      fault; the buffer has to hold an image. Nothing else changes. */
  lemma InstallsExactly(t: Transfer, pixels: seq<byte>)
    ensures var (u, ok) := SetTransform(t);
            && (ok <==> !t.busy && !t.started && !t.fault && !t.transform) && u == t.(transform := t.transform || ok)
    ensures var (u, ok) := SetBackBuffer(t, pixels);
            && (ok <==> !t.busy && !t.started && !t.fault && t.rear.None? && t.width * t.height * 2 <= |pixels|)
            && u == t.(rear := if ok then Some(pixels) else t.rear)
  {
  }

  // ----- sizes -----

  predicate SameSizes(t: Transfer, u: Transfer)
  {
    u.width == t.width && u.height == t.height && |u.front| == |t.front| && u.rear.Some? == t.rear.Some?
    && (t.rear.Some? ==> |u.rear.value| == |t.rear.value|)
  }

  lemma FinishSizes(t: Transfer, waited: bool)
    ensures SameSizes(t, Finish(t, waited).0)
  {
  }

  lemma ConvertedSizes(t: Transfer, s: Source, degrees: nat, tag: nat, into: Buffer, a: Answers)
    ensures SameSizes(t, Converted(t, s, degrees, tag, into, a))
  {
    hide Conversion, Picture, Overlaid;
    var was := Contents(t, into);
    assert |Overlaid(Picture(t, s, degrees, into, a), was)| == |was|;
  }

  lemma ProceedSizes(t: Transfer, s: Source, degrees: nat, tag: nat, a: Answers)
    requires Sized(t)
    ensures SameSizes(t, Proceed(t, s, degrees, tag, a).0)
  {
    hide Conversion, Converted, Finish;
    var into := Target(t);
    ConvertedSizes(t, s, degrees, tag, into, a);
    FinishSizes(Converted(t, s, degrees, tag, into, a), a.waited);
  }

  lemma StaysSized(t: Transfer, s: Source, degrees: nat, tag: nat, a: Answers)
    requires Sized(t)
    ensures Sized(SubmitEx(t, s, degrees, tag, a).0)
  {
    hide Proceed, Finish;
    var t0 := t.(busy := true, started := true);
    FinishSizes(t0, a.waited);
    ProceedSizes(t0, s, degrees, tag, a);
    if Sized(Finish(t0, a.waited).0) { ProceedSizes(Finish(t0, a.waited).0, s, degrees, tag, a); }
  }

  // ----- what a submission adds to the log -----

  /** From an index on: conversions and starts carry only one tag; a start was taken; a conversion was
      refused as INVALID, or declined as BUSY. */
  predicate OnlyTag(log: seq<Call>, from: nat, tag: nat)
  {
    forall i :: from <= i < |log| && !log[i].Wait? ==> log[i].tag == tag
  }

  predicate Took(log: seq<Call>, from: nat, tag: nat)
  {
    exists i :: from <= i < |log| && log[i].Start? && log[i].tag == tag && log[i].accepted
  }

  predicate Refused(log: seq<Call>, from: nat, tag: nat)
  {
    exists i :: from <= i < |log| && log[i].Convert? && log[i].tag == tag && log[i].outcome == Invalid
  }

  predicate Declined(log: seq<Call>, from: nat)
  {
    exists i :: from <= i < |log| && log[i].Convert? && log[i].outcome == Busy
  }

  /** One more call. */
  lemma OneMoreCall(log: seq<Call>, c: Call, from: nat, tag: nat)
    requires from <= |log|
    ensures OnlyTag(log + [c], from, tag) <==> OnlyTag(log, from, tag) && (!c.Wait? ==> c.tag == tag)
    ensures Took(log + [c], from, tag) <==> Took(log, from, tag) || (c.Start? && c.tag == tag && c.accepted)
    ensures Refused(log + [c], from, tag) <==> Refused(log, from, tag) || (c.Convert? && c.tag == tag && c.outcome == Invalid)
    ensures Declined(log + [c], from) <==> Declined(log, from) || (c.Convert? && c.outcome == Busy)
  {
    var l := log + [c];
    assert forall i :: 0 <= i < |log| ==> l[i] == log[i];
    if Took(log, from, tag) {
      var i :| from <= i < |log| && log[i].Start? && log[i].tag == tag && log[i].accepted;
      assert l[i] == log[i];
    }
    if Refused(log, from, tag) {
      var i :| from <= i < |log| && log[i].Convert? && log[i].tag == tag && log[i].outcome == Invalid;
      assert l[i] == log[i];
    }
    if Declined(log, from) {
      var i :| from <= i < |log| && log[i].Convert? && log[i].outcome == Busy;
      assert l[i] == log[i];
    }
    assert l[|log|] == c;
  }

  predicate Says(log: seq<Call>, from: nat, tag: nat, taken: bool, refused: bool, declined: bool)
  {
    && from <= |log| && OnlyTag(log, from, tag) && Took(log, from, tag) == taken
    && Refused(log, from, tag) == refused && Declined(log, from) == declined
  }

  lemma FinishSays(t: Transfer, waited: bool, from: nat, tag: nat, taken: bool, refused: bool, declined: bool)
    requires Says(t.log, from, tag, taken, refused, declined)
    ensures Says(Finish(t, waited).0.log, from, tag, taken, refused, declined)
  {
    hide OnlyTag, Took, Refused, Declined;
    OneMoreCall(t.log, Wait(waited), from, tag);
  }

  lemma ConvertSays(t: Transfer, s: Source, degrees: nat, tag: nat, into: Buffer, a: Answers, from: nat)
    requires Says(t.log, from, tag, false, false, false)
    ensures var c := Conversion(t, s, degrees, into, a);
            Says(Converted(t, s, degrees, tag, into, a).log, from, tag, false, c == Invalid, c == Busy)
  {
    hide OnlyTag, Took, Refused, Declined, Conversion, Picture, Overlaid;
    OneMoreCall(t.log, Convert(tag, into, Conversion(t, s, degrees, into, a)), from, tag);
  }

  lemma ProceedSays(t: Transfer, s: Source, degrees: nat, tag: nat, a: Answers, from: nat)
    requires Sized(t) && Says(t.log, from, tag, false, false, false) && !t.fault
    ensures var (u, r, _) := Proceed(t, s, degrees, tag, a); Says(u.log, from, tag, r == Ok, r == Invalid, r == Busy)
  {
    hide Says, Converted, Conversion, Contents, ImageBytes, Target;
    var into := Target(t);
    ConvertSays(t, s, degrees, tag, into, a, from);
    var c, t1 := Conversion(t, s, degrees, into, a), Converted(t, s, degrees, tag, into, a);
    FinishSays(t1, a.waited, from, tag, false, c == Invalid, c == Busy);
    var (u, r, _) := ConvertThenWait(t, s, degrees, tag, into, a);
    if r == Ok {
      ConvertedFits(t, s, degrees, tag, into, a);
      LaunchSays(u, tag, into, a.started, from);
    }
  }

  lemma ConvertedFits(t: Transfer, s: Source, degrees: nat, tag: nat, into: Buffer, a: Answers)
    requires Sized(t)
    ensures var u := ConvertThenWait(t, s, degrees, tag, into, a).0; ImageBytes(u.width, u.height) <= |Contents(u, into)|
  {
    hide Conversion, Converted, Finish, ImageBytes;
    ConvertedSizes(t, s, degrees, tag, into, a);
    FinishSizes(Converted(t, s, degrees, tag, into, a), a.waited);
  }

  lemma LaunchSays(t: Transfer, tag: nat, b: Buffer, started: bool, from: nat)
    requires ImageBytes(t.width, t.height) <= |Contents(t, b)| && Says(t.log, from, tag, false, false, false)
    ensures Says(Launched(t, tag, b, started).log, from, tag, started, false, false)
  {
    hide OnlyTag, Took, Refused, Declined, Contents, ImageBytes;
    OneMoreCall(t.log, Start(tag, b, Contents(t, b)[..ImageBytes(t.width, t.height)], started), from, tag);
  }

  /** The calls of one submission carry its tag, and say exactly what it answered: a start was taken
      for OK, a conversion refused for INVALID, declined for BUSY. */
  lemma SubmitSays(t: Transfer, s: Source, degrees: nat, tag: nat, a: Answers)
    requires Sound(t) && !t.busy
    ensures var (u, r, _) := SubmitEx(t, s, degrees, tag, a);
            Says(u.log, |t.log|, tag, r == Ok, r == Invalid, r == Busy)
  {
    hide Says, Proceed, Sound, Disciplined, Failed, Outstanding, ImageBytes;
    SoundFacts(t);
    var t0 := t.(busy := true, started := true);
    SaysNothing(t.log, tag);
    FinishSays(t0, a.waited, |t.log|, tag, false, false, false);
    var t1 := if t.rear.Some? then t0 else Finish(t0, a.waited).0;
    SameSized(t0, a.waited);
    if !t.fault && !t1.fault { ProceedSays(t1, s, degrees, tag, a, |t.log|); }
  }

  lemma SameSized(t: Transfer, waited: bool)
    requires Sized(t)
    ensures Sized(Finish(t, waited).0)
  {
  }

  lemma SaysNothing(log: seq<Call>, tag: nat)
    ensures Says(log, |log|, tag, false, false, false)
  {
  }

  lemma DrainKeeps(t: Transfer, waited: bool)
    requires Sound(t)
    ensures var (u, r) := Drain(t, waited);
            && Sound(u) && SameSetup(t, u) && t.log <= u.log && (t.fault ==> u.log == t.log)
            && (r == Ok <==> !t.busy && !t.fault && (t.pending ==> waited))
            && (r == Ok ==> !u.pending && !u.fault && Receipt(t, u, t.pending))
            && (r != Ok && !t.busy ==> u.fault && r == Fault && Receipt(t, u, false))
  {
    hide Sound, Outstanding, Verified, Failed, ImageBytes;
    SoundFacts(t);
    if !t.busy {
      EnteredSound(t, true, t.started);
      FinishKeeps(t.(busy := true), waited);
      EnteredSound(Finish(t.(busy := true), waited).0, false, t.started);
    }
  }

  // ----- whole runs -----

  datatype Op =
    | Submission(source: Source, degrees: nat, tag: nat, answers: Answers)
    | Draining(waited: bool)
    | UseTransform
    | UseBackBuffer(pixels: seq<byte>)

  function Apply(t: Transfer, op: Op): (u: Transfer)
    requires Sound(t) && !t.busy
    ensures Sound(u) && !u.busy && t.log <= u.log && (t.fault ==> u.fault && u.log == t.log)
  {
    match op
    case Submission(s, degrees, tag, a) => SubmitKeeps(t, s, degrees, tag, a); SubmitEx(t, s, degrees, tag, a).0
    case Draining(waited) => DrainKeeps(t, waited); Drain(t, waited).0
    case UseTransform => SetTransform(t).0
    case UseBackBuffer(pixels) => SetBackBuffer(t, pixels).0
  }

  function After(t: Transfer, ops: seq<Op>): (u: Transfer)
    requires Sound(t) && !t.busy
    ensures Sound(u) && !u.busy && t.log <= u.log && (t.fault ==> u.fault && u.log == t.log)
  {
    if ops == [] then t else Apply(After(t, ops[..|ops| - 1]), ops[|ops| - 1])
  }

  function Starts(log: seq<Call>): seq<Call>
  {
    if log == [] then []
    else
      var before := log[..|log| - 1];
      Starts(before) + if log[|log| - 1].Start? then [log[|log| - 1]] else []
  }

  /** Under the discipline every start is verified, in order, except at most the latest. */
  lemma {:induction false} StartsAreVerified(log: seq<Call>)
    requires Disciplined(log)
    ensures Starts(log) == Verified(log) + if Outstanding(log).Some? then [Outstanding(log).value] else []
  {
    if log != [] {
      var before, c := log[..|log| - 1], log[|log| - 1];
      assert log == before + [c];
      Appended(before, c);
      StartsAreVerified(before);
    }
  }

  lemma CreatedSound(front: seq<byte>, width: u32, height: u32, swap: bool)
    requires CreateAllowed(front, width, height)
    ensures Sound(Created(front, width, height, swap)) && Sized(Created(front, width, height, swap))
  {
  }

  /** A longer run only adds to the log, and adds nothing once a failure is latched. */
  lemma {:induction false} RunsExtend(t: Transfer, ops: seq<Op>, n: nat)
    requires Sound(t) && !t.busy && n <= |ops|
    ensures After(t, ops[..n]).log <= After(t, ops).log
    ensures After(t, ops[..n]).fault ==> After(t, ops).fault && After(t, ops).log == After(t, ops[..n]).log
    decreases |ops|
  {
    hide Apply, Sound;
    if n == |ops| {
      assert ops[..n] == ops;
    } else {
      RunsExtend(t, ops[..|ops| - 1], n);
      assert ops[..|ops| - 1][..n] == ops[..n];
    }
  }

  /** Over every run from creation: the discipline holds at every call, so nothing is called after
      a failure and no conversion touches the buffer under DMA; that buffer still holds the image
      it was started with; and every frame handed to the transport was verified, in order, except
      at most the latest. */
  lemma WholeRun(front: seq<byte>, width: u32, height: u32, swap: bool, ops: seq<Op>)
    requires CreateAllowed(front, width, height)
    ensures Sound(Created(front, width, height, swap))
    ensures RunClean(After(Created(front, width, height, swap), ops))
  {
    hide After, CreateAllowed;
    CreatedSound(front, width, height, swap);
    StartsAreVerified(After(Created(front, width, height, swap), ops).log);
  }

  predicate RunClean(u: Transfer)
  {
    && Sized(u) && Disciplined(u.log) && u.pending == Outstanding(u.log).Some?
    && (u.pending ==> Loaded(u, Outstanding(u.log).value))
    && Starts(u.log) == Verified(u.log) + if u.pending then [Outstanding(u.log).value] else []
  }

  // ----- the session object -----

  class Session {
    const width: u32
    const height: u32
    const swap: bool
    const tx: array<byte>
    var back: array?<byte>
    var active: array?<byte>
    var transform: bool
    var pending: bool
    var busy: bool
    var fault: bool
    var started: bool
    ghost var log: seq<Call>

    ghost predicate Valid()
      reads this
    {
      && 0 < width <= 4096 && 0 < height <= 4096 && ImageBytes(width, height) <= tx.Length
      && back != tx && (back != null ==> ImageBytes(width, height) <= back.Length)
      && (active == null || active == tx || active == back)
    }

    ghost function Which(buffer: array?<byte>): Option<Buffer>
    {
      if buffer == null then None else if buffer == tx then Some(Front) else Some(Rear)
    }

    /** The value this object stands for. */
    ghost function State(): Transfer
      reads this, tx, back
    {
      Transfer(width, height, swap, transform, tx[..], if back == null then None else Some(back[..]), Which(active),
               pending, busy, fault, started, log)
    }

    constructor (tx: array<byte>, width: u32, height: u32, swap: bool)
      requires CreateAllowed(tx[..], width, height)
      ensures Valid() && this.tx == tx && back == null && State() == Created(tx[..], width, height, swap)
    {
      this.width, this.height, this.swap, this.tx := width, height, swap, tx;
      back, active, transform := null, null, false;
      pending, busy, fault, started, log := false, false, false, false, [];
    }

    /** Creation: refused for a bad size, or a buffer smaller than one image. */
    static method Create(tx: array<byte>, width: u32, height: u32, swap: bool) returns (s: Session?)
      ensures s == null <==> !CreateAllowed(tx[..], width, height)
      ensures s != null ==> fresh(s) && s.Valid() && s.tx == tx && s.State() == Created(tx[..], width, height, swap)
    {
      s := null;
      if width == 0 || height == 0 || width > 4096 || height > 4096 { return; }
      if tx.Length < width * height * 2 { return; }
      s := new Session(tx, width, height, swap);
    }

    method InstallTransform() returns (ok: bool)
      requires Valid()
      modifies this
      ensures Valid() && back == old(back) && (State(), ok) == SetTransform(old(State()))
    {
      if busy || started || transform || fault { return false; }
      transform := true;
      ok := true;
    }

    method InstallBackBuffer(pixels: array<byte>) returns (ok: bool)
      requires Valid() && pixels != tx
      modifies this
      ensures Valid() && (State(), ok) == SetBackBuffer(old(State()), pixels[..])
      ensures back == if ok then pixels else old(back)
    {
      if busy || started || fault || back != null || pixels.Length < width * height * 2 { return false; }
      back := pixels;
      ok := true;
    }

    method WaitPending(waited: bool) returns (r: Outcome, previous: bool)
      requires Valid()
      modifies this
      ensures Valid() && back == old(back) && (State(), r, previous) == Finish(old(State()), waited)
    {
      r, previous := Ok, false;
      if fault { return Fault, false; }
      if pending {
        log := log + [Wait(waited)];
        if !waited {
          fault := true;
          return Fault, false;
        }
        pending := false;
        previous := true;
      }
    }

    /** Write a buffer: a transform leaves any picture, the packer the packed image or nothing. */
    method Fill(s: Source, degrees: nat, output: array<byte>, a: Answers) returns (r: Outcome)
      requires Valid() && (output == tx || output == back)
      modifies output
      ensures var was := old(State());
              && r == Conversion(was, s, degrees, Which(output).value, a)
              && Contents(was, Which(output).value) == old(output[..])
              && output[..] == Overlaid(Picture(was, s, degrees, Which(output).value, a), old(output[..]))
    {
      hide Packed, PackAllowed, ImageBytes, Overlaid;
      ghost var before := output[..];
      if transform {
        r := a.transformed;
        Overlay(a.picture, output);
      } else {
        var packed := PackRgb565(s, output, width, height, degrees, swap);
        r := if packed then Ok else Invalid;
        PackedOverlaid(s, before, output[..], width, height, degrees, swap);
      }
    }

    /** Convert into a buffer; the result is the conversion's, a failing transform faults the session. */
    method ConvertInto(s: Source, degrees: nat, tag: nat, output: array<byte>, a: Answers) returns (r: Outcome)
      requires Valid() && (output == tx || output == back)
      modifies this, output
      ensures Valid() && back == old(back)
      ensures r == Conversion(old(State()), s, degrees, Which(output).value, a)
      ensures State() == Converted(old(State()), s, degrees, tag, Which(output).value, a)
    {
      hide ImageBytes, Overlaid, Picture, Conversion, WithContents;
      ghost var was, into := State(), Which(output).value;
      r := Fill(s, degrees, output, a);
      ghost var filled := State();
      assert filled == WithContents(was, into, output[..]) by { FilledIs(was, filled, into, output[..]); }
      NoteConversion(tag, into, r);
    }

    /** A conversion with any answer but OK, INVALID and BUSY faults the session. */
    method NoteConversion(tag: nat, ghost into: Buffer, r: Outcome)
      requires Valid()
      modifies this`fault, this`log
      ensures State() == Called(old(State()), Convert(tag, into, r))
    {
      if r == Fault { fault := true; }
      log := log + [Convert(tag, into, r)];
    }

    method StartTransfer(tag: nat, output: array<byte>, accepted: bool) returns (ok: bool)
      requires Valid() && (output == tx || output == back)
      modifies this
      ensures Valid() && back == old(back) && ok == accepted
      ensures State() == Launched(old(State()), tag, Which(output).value, accepted)
    {
      active := output;
      pending := true;
      log := log + [Start(tag, Which(output).value, output[..ImageBytes(width, height)], accepted)];
      ok := accepted;
      if !ok { fault := true; }
    }

    method Submit(s: Source, degrees: nat, tag: nat, a: Answers) returns (r: Outcome, previous: bool)
      requires Valid()
      modifies this, tx, back
      ensures Valid() && back == old(back) && (State(), r, previous) == SubmitEx(old(State()), s, degrees, tag, a)
    {
      hide ImageBytes, Finish, Proceed, PackAllowed, Packed, Attempt;
      previous := false;
      if busy { return Busy, false; }
      busy, started := true, true;
      ghost var t0 := State();
      assert t0 == old(State()).(busy := true, started := true);
      r, previous := Run(s, degrees, tag, a);
      ghost var t := State();
      busy := false;
      assert State() == t.(busy := false);
    }

    method Run(s: Source, degrees: nat, tag: nat, a: Answers) returns (r: Outcome, previous: bool)
      requires Valid()
      modifies this, tx, back
      ensures Valid() && back == old(back) && (State(), r, previous) == Attempt(old(State()), s, degrees, tag, a)
    {
      hide ImageBytes, Finish, Proceed, PackAllowed, Packed;
      previous := false;
      if back != null {
        r := if fault then Fault else Ok;
      } else {
        r, previous := WaitPending(a.waited);
      }
      if r == Ok {
        var again;
        r, again := Continue(s, degrees, tag, a);
        previous := previous || again;
      }
    }

    method Continue(s: Source, degrees: nat, tag: nat, a: Answers) returns (r: Outcome, previous: bool)
      requires Valid()
      modifies this, tx, back
      ensures Valid() && back == old(back) && (State(), r, previous) == Proceed(old(State()), s, degrees, tag, a)
    {
      hide ImageBytes, Finish, Conversion, Converted, Launched, PackAllowed, Packed;
      var output := if back != null && pending && active == tx then back else tx;
      previous := false;
      r := ConvertInto(s, degrees, tag, output, a);
      if r == Ok && back != null {
        r, previous := WaitPending(a.waited);
      }
      if r == Ok {
        var ok := StartTransfer(tag, output, a.started);
        if !ok { r := Fault; }
      }
    }

    method Settle(waited: bool) returns (r: Outcome)
      requires Valid()
      modifies this
      ensures Valid() && back == old(back) && (State(), r) == Drain(old(State()), waited)
    {
      hide ImageBytes, Finish;
      if busy { return Busy; }
      busy := true;
      assert State() == old(State()).(busy := true);
      var previous;
      r, previous := WaitPending(waited);
      ghost var t := State();
      busy := false;
      assert State() == t.(busy := false);
    }
  }

  /** Packing is laying the image over the buffer; a refusal lays nothing. */
  lemma PackedOverlaid(s: Source, was: seq<byte>, out: seq<byte>, width: u32, height: u32, degrees: nat, swap: bool)
    ensures PackAllowed(s, |was|, width, height, degrees)
            && out == Packed(s, width, height, degrees, swap) + was[ImageBytes(width, height)..]
            ==> out == Overlaid(Packed(s, width, height, degrees, swap), was)
    ensures Overlaid([], was) == was
  {
    hide Packed;
  }

  lemma FilledIs(was: Transfer, filled: Transfer, into: Buffer, bytes: seq<byte>)
    requires into == Rear ==> was.rear.Some?
    requires filled == if into == Front then was.(front := bytes) else was.(rear := Some(bytes))
    ensures filled == WithContents(was, into, bytes)
  {
  }

  method Overlay(picture: seq<byte>, output: array<byte>)
    modifies output
    ensures output[..] == Overlaid(picture, old(output[..]))
  {
    var i := 0;
    while i < |picture| && i < output.Length
      invariant 0 <= i <= |picture| && i <= output.Length
      invariant forall k :: 0 <= k < i ==> output[k] == picture[k]
      invariant forall k :: i <= k < output.Length ==> output[k] == old(output[k])
    {
      output[i] := picture[i];
      i := i + 1;
    }
  }
}
