/** The player's CMA frame allocator: a budgeted table of decoder frames with pins and retirement. */
module PlayerAllocator {
  import opened Prelude

  datatype Format =
    | Yuv420P | Yuv422P | Yuv444P | Nv12 | Nv21 | Yuv400
    | Rgb565 | Bgr565 | Rgb888 | Bgr888 | Argb8888 | Abgr8888 | Rgba8888 | Bgra8888 | OtherFormat

  /** Three planes of numbers. */
  type Planes = s: seq<nat> | |s| == 3 witness [0, 0, 0]

  /** A decoder frame as the SDK passes it around. */
  datatype Frame = Frame(physical: bool, addr: Planes, stride: Planes, width: int, height: int, format: Format)

  datatype Record = Record(addr: Planes, stride: Planes, capacity: Planes, width: int, height: int, format: Format,
                           ticket: nat, live: bool, retired: bool)

  const FRAME_COUNT: nat := 32
  const LINE: nat := 32
  const INT32_MAX: nat := 0x7fff_ffff
  const BLANK: Record := Record([0, 0, 0], [0, 0, 0], [0, 0, 0], 0, 0, OtherFormat, 0, false, false)

  /** Memory handed out and not given back: start of a block to its size. */
  type Heap = map<nat, nat>

  datatype Allocator = Allocator(budget: nat, used: nat, nextTicket: u64, frames: seq<Record>)

  // ----- layout -----

  datatype Shape = Shape(planes: nat, bytes: nat, halfX: bool, halfY: bool)

  function ShapeOf(f: Format): Option<Shape>
  {
    match f
    case Yuv420P => Some(Shape(3, 1, true, true))
    case Yuv422P => Some(Shape(3, 1, true, false))
    case Yuv444P => Some(Shape(3, 1, false, false))
    case Nv12 => Some(Shape(2, 1, true, true))
    case Nv21 => Some(Shape(2, 1, true, true))
    case Yuv400 => Some(Shape(1, 1, false, false))
    case Rgb565 => Some(Shape(1, 2, false, false))
    case Bgr565 => Some(Shape(1, 2, false, false))
    case Rgb888 => Some(Shape(1, 3, false, false))
    case Bgr888 => Some(Shape(1, 3, false, false))
    case OtherFormat => None
    case _ => Some(Shape(1, 4, false, false))
  }

  function Pitch(s: Shape, stride: int, i: nat): int
  {
    if i > 0 && s.planes == 3 && s.halfX then stride / 2 else stride
  }

  function Rows(s: Shape, height: int, i: nat): int
  {
    if i > 0 && s.halfY then height / 2 else height
  }

  /** Bytes rounded up to whole cache lines. */
  function Lines(size: nat): nat
  {
    (size + LINE - 1) / LINE * LINE
  }

  function PlaneSize(s: Shape, stride: int, height: int, i: nat): int
  {
    if i < s.planes then Pitch(s, stride, i) * Rows(s, height, i) else 0
  }

  predicate LayoutAllowed(width: int, stride: int, height: int, f: Format)
  {
    && 1 <= width <= 4096 && 1 <= height <= 4096 && 1 <= stride && width * height <= 8 * 1024 * 1024
    && ShapeOf(f).Some?
    && var s := ShapeOf(f).value;
       && stride >= width * s.bytes && (s.halfX ==> stride % 2 == 0) && (s.halfY ==> height % 2 == 0)
       && forall i :: 0 <= i < s.planes ==> 0 <= PlaneSize(s, stride, height, i) <= U32_MAX - (LINE - 1)
  }

  function Strides(s: Shape, stride: int, i: nat): nat
  {
    if i < s.planes then Max(Pitch(s, stride, i), 0) else 0
  }

  function Capacity(s: Shape, stride: int, height: int, i: nat): nat
  {
    if i < s.planes then Lines(Max(PlaneSize(s, stride, height, i), 0)) else 0
  }

  /** Strides and capacities of the planes, or nothing if the frame is refused. */
  function Layout(width: int, stride: int, height: int, f: Format): Option<(Planes, Planes)>
  {
    if !LayoutAllowed(width, stride, height, f) then None
    else
      var s := ShapeOf(f).value;
      Some(([Strides(s, stride, 0), Strides(s, stride, 1), Strides(s, stride, 2)],
            [Capacity(s, stride, height, 0), Capacity(s, stride, height, 1), Capacity(s, stride, height, 2)]))
  }

  // ----- memory -----

  /** A block that overlaps nothing handed out. */
  predicate Apart(heap: Heap, addr: nat, size: nat)
  {
    forall b :: b in heap ==> addr + size <= b || b + heap[b] <= addr
  }

  /** What malloc may answer for a size: nothing, or a block of its own. */
  predicate Answerable(heap: Heap, answer: Option<nat>, size: nat)
  {
    answer.Some? ==> answer.value > 0 && Apart(heap, answer.value, size)
  }

  /** What the allocator accepts: aligned and wholly below 4 GiB. */
  predicate Usable(answer: Option<nat>, size: nat)
  {
    answer.Some? && answer.value % LINE == 0 && answer.value <= U32_MAX && size <= U32_MAX - answer.value + 1
  }

  function Total(c: Planes): nat
  {
    c[0] + c[1] + c[2]
  }

  function Held(heap: Heap, addr: nat, size: nat): Heap
  {
    if size == 0 then heap else heap[addr := size]
  }

  function Dropped(heap: Heap, addr: nat, size: nat): Heap
  {
    if size == 0 then heap else heap - {addr}
  }

  /** Take the blocks of planes i and up, adding to those in addr; nothing when one cannot be had. */
  function Reserve(heap: Heap, capacity: Planes, answers: seq<Option<nat>>, i: nat, addr: Planes): Option<(Heap, Planes)>
    requires i <= 3 && |answers| == 3
    decreases 3 - i
  {
    if i == 3 then Some((heap, addr))
    else if capacity[i] == 0 then Reserve(heap, capacity, answers, i + 1, addr)
    else if !Usable(answers[i], capacity[i]) then None
    else Reserve(heap[answers[i].value := capacity[i]], capacity, answers, i + 1, addr[i := answers[i].value])
  }

  /** Malloc's own contract over the calls of one allocation. */
  predicate AnswersApart(heap: Heap, capacity: Planes, answers: seq<Option<nat>>, i: nat)
    requires i <= 3 && |answers| == 3
    decreases 3 - i
  {
    i < 3 ==>
      if capacity[i] == 0 then AnswersApart(heap, capacity, answers, i + 1)
      else
        && Answerable(heap, answers[i], capacity[i])
        && (Usable(answers[i], capacity[i]) ==> AnswersApart(heap[answers[i].value := capacity[i]], capacity, answers, i + 1))
  }

  // ----- the operations -----

  function Created(budget: nat): Allocator
  {
    Allocator(budget, 0, 0, seq(FRAME_COUNT, _ => BLANK))
  }

  function Allocate(a: Allocator, heap: Heap, width: int, stride: int, height: int, f: Format, answers: seq<Option<nat>>)
    : (Allocator, Heap, Option<Frame>)
    requires |answers| == 3
  {
    match Layout(width, stride, height, f)
    case None => (a, heap, None)
    case Some((strides, capacity)) =>
      var slot := Find(a.frames, (r: Record) => !r.live, 0);
      if slot == |a.frames| || Total(capacity) > a.budget - a.used then (a, heap, None)
      else
        match Reserve(heap, capacity, answers, 0, [0, 0, 0])
        case None => (a, heap, None)
        case Some((h, addr)) =>
          var r := Record(addr, strides, capacity, width, height, f, 0, true, false);
          (a.(frames := a.frames[slot := r], used := a.used + Total(capacity)), h,
           Some(Frame(true, addr, strides, width, height, f)))
  }

  function Freed(heap: Heap, r: Record): Heap
  {
    Dropped(Dropped(Dropped(heap, r.addr[0], r.capacity[0]), r.addr[1], r.capacity[1]), r.addr[2], r.capacity[2])
  }

  function Dispose(a: Allocator, heap: Heap, i: nat): (Allocator, Heap)
    requires i < |a.frames|
  {
    var r := a.frames[i];
    (a.(frames := a.frames[i := BLANK], used := Max(a.used - Total(r.capacity), 0)), Freed(heap, r))
  }

  predicate Matches(r: Record, f: Frame)
  {
    r.live && f.physical && r.addr == f.addr && r.format == f.format
  }

  /** The SDK frees a frame: a pinned one is only retired. */
  function FreeFrame(a: Allocator, heap: Heap, f: Frame): (Allocator, Heap, bool)
  {
    var i := Find(a.frames, (r: Record) => Matches(r, f), 0);
    if i == |a.frames| then (a, heap, f.addr == [0, 0, 0])
    else
      var r := a.frames[i];
      if r.retired then (a, heap, false)
      else if r.ticket != 0 then (a.(frames := a.frames[i := r.(retired := true)]), heap, true)
      else
        var (b, h) := Dispose(a, heap, i);
        (b, h, true)
  }

  predicate Bounded(view: Planes, capacity: Planes)
  {
    view[0] <= capacity[0] && view[1] <= capacity[1] && view[2] <= capacity[2]
  }

  /** A record that a pin of this frame may take. */
  predicate Pinnable(r: Record, f: Frame)
  {
    && Matches(r, f) && !r.retired && r.ticket == 0
    && f.width <= r.width && f.height <= r.height && f.stride[0] <= INT32_MAX
    && match Layout(f.width, f.stride[0], f.height, f.format)
       case None => false
       case Some((strides, capacity)) => strides == f.stride && Bounded(capacity, r.capacity)
  }

  /** Pin a frame: its ticket and the capacities of its planes. */
  function Acquire(a: Allocator, f: Frame): (Allocator, Option<(nat, Planes)>)
  {
    if a.nextTicket == U64_MAX then (a, None)
    else
      var i := Find(a.frames, (r: Record) => Pinnable(r, f), 0);
      if i == |a.frames| then (a, None)
      else
        var r := a.frames[i].(ticket := a.nextTicket + 1);
        (a.(frames := a.frames[i := r], nextTicket := a.nextTicket + 1), Some((a.nextTicket + 1, r.capacity)))
  }

  function Release(a: Allocator, heap: Heap, ticket: nat): (Allocator, Heap, bool)
  {
    if ticket == 0 then (a, heap, false)
    else
      var i := Find(a.frames, (r: Record) => r.ticket == ticket, 0);
      if i == |a.frames| then (a, heap, false)
      else
        var r := a.frames[i].(ticket := 0);
        var b := a.(frames := a.frames[i := r]);
        if r.retired then
          var (c, h) := Dispose(b, heap, i);
          (c, h, true)
        else (b, heap, true)
  }

  // ----- what every operation keeps -----

  function LiveBytes(r: Record): nat
  {
    if r.live then Total(r.capacity) else 0
  }

  function Sum(frames: seq<Record>): nat
  {
    if frames == [] then 0 else Sum(frames[..|frames| - 1]) + LiveBytes(frames[|frames| - 1])
  }

  /** x is the start of one of the record's planes. */
  predicate IsBlockOf(r: Record, x: nat)
  {
    || (r.capacity[0] > 0 && r.addr[0] == x)
    || (r.capacity[1] > 0 && r.addr[1] == x)
    || (r.capacity[2] > 0 && r.addr[2] == x)
  }

  /** The record's planes are handed out, each in its own block. */
  predicate Owns(r: Record, heap: Heap)
  {
    && (forall j :: 0 <= j < 3 && r.capacity[j] > 0 ==> r.addr[j] in heap && heap[r.addr[j]] == r.capacity[j])
    && (forall j, l :: 0 <= j < l < 3 && r.capacity[j] > 0 && r.capacity[l] > 0 ==> r.addr[j] != r.addr[l])
  }

  predicate RecordFits(r: Record, next: nat)
  {
    && (!r.live ==> r == BLANK)
    && (r.ticket != 0 ==> r.live) && r.ticket <= next
    && (r.retired ==> r.ticket != 0)
    && (r.live ==> r.capacity[0] > 0 && Layout(r.width, r.stride[0], r.height, r.format) == Some((r.stride, r.capacity)))
    && forall j :: 0 <= j < 3 ==> (r.capacity[j] == 0 ==> r.addr[j] == 0)
  }

  /** The memory handed out is exactly the planes of the live records, each in its own block. */
  ghost predicate HeapFits(frames: seq<Record>, heap: Heap)
  {
    && (forall i :: 0 <= i < |frames| ==> Owns(frames[i], heap))
    && (forall i, k, x :: 0 <= i < k < |frames| && IsBlockOf(frames[i], x) ==> !IsBlockOf(frames[k], x))
    && (forall b :: b in heap ==> exists i :: 0 <= i < |frames| && IsBlockOf(frames[i], b))
  }

  predicate Disjoint(heap: Heap)
  {
    && (forall b :: b in heap ==> heap[b] > 0)
    && (forall b, c :: b in heap && c in heap && b != c ==> b + heap[b] <= c || c + heap[c] <= b)
  }

  predicate TicketsDistinct(frames: seq<Record>)
  {
    forall i, k :: 0 <= i < |frames| && 0 <= k < |frames| && frames[i].ticket != 0 && frames[i].ticket == frames[k].ticket ==> i == k
  }

  ghost predicate Inv(a: Allocator, heap: Heap)
  {
    && |a.frames| == FRAME_COUNT && a.used == Sum(a.frames) <= a.budget
    && (forall i :: 0 <= i < |a.frames| ==> RecordFits(a.frames[i], a.nextTicket))
    && TicketsDistinct(a.frames) && HeapFits(a.frames, heap) && Disjoint(heap)
  }

  lemma {:induction false} SumUpdate(frames: seq<Record>, i: nat, r: Record)
    requires i < |frames|
    ensures Sum(frames[i := r]) == Sum(frames) - LiveBytes(frames[i]) + LiveBytes(r)
  {
    var n := |frames| - 1;
    if i == n {
      assert frames[i := r][..n] == frames[..n];
    } else {
      assert frames[i := r][..n] == frames[..n][i := r];
      SumUpdate(frames[..n], i, r);
    }
  }

  lemma {:induction false} SumOfBlanks(n: nat)
    ensures Sum(seq(n, _ => BLANK)) == 0
  {
    if n > 0 {
      assert seq(n, _ => BLANK)[..n - 1] == seq(n - 1, _ => BLANK);
      SumOfBlanks(n - 1);
    }
  }

  lemma CreatedKeeps(budget: nat)
    ensures Inv(Created(budget), map[])
  {
    SumOfBlanks(FRAME_COUNT);
  }

  lemma SameBlocks(r: Record, q: Record, heap: Heap)
    requires r.addr == q.addr && r.capacity == q.capacity
    ensures Owns(r, heap) == Owns(q, heap) && forall x :: IsBlockOf(r, x) == IsBlockOf(q, x)
  {
  }

  /** A change that keeps every record's planes keeps the memory account. */
  lemma SamePlanes(frames: seq<Record>, i: nat, r: Record, heap: Heap)
    requires HeapFits(frames, heap) && i < |frames| && r.addr == frames[i].addr && r.capacity == frames[i].capacity
    ensures HeapFits(frames[i := r], heap)
  {
    hide IsBlockOf, Owns;
    var to := frames[i := r];
    SameBlocks(r, frames[i], heap);
    forall b | b in heap ensures exists k :: 0 <= k < |to| && IsBlockOf(to[k], b) {
      var k :| 0 <= k < |frames| && IsBlockOf(frames[k], b);
      assert IsBlockOf(to[k], b);
    }
  }

  lemma RetitledKeeps(a: Allocator, heap: Heap, i: nat, r: Record, next: u64)
    requires Inv(a, heap) && i < |a.frames| && a.nextTicket <= next
    requires r == a.frames[i].(ticket := r.ticket, retired := r.retired) && RecordFits(r, next)
    requires r.ticket != 0 ==> r.ticket == a.frames[i].ticket || r.ticket > a.nextTicket
    ensures Inv(a.(frames := a.frames[i := r], nextTicket := next), heap)
  {
    hide HeapFits, Sum, Layout, Disjoint;
    SamePlanes(a.frames, i, r, heap);
    SumUpdate(a.frames, i, r);
  }

  lemma {:induction false} SumCovers(frames: seq<Record>, i: nat)
    requires i < |frames|
    ensures LiveBytes(frames[i]) <= Sum(frames)
  {
    if i < |frames| - 1 { SumCovers(frames[..|frames| - 1], i); }
  }

  lemma FreedIs(heap: Heap, r: Record)
    ensures forall x :: x in Freed(heap, r) <==> x in heap && !IsBlockOf(r, x)
    ensures forall x :: x in Freed(heap, r) ==> Freed(heap, r)[x] == heap[x]
  {
  }

  /** Planes that are not the dropped record's stay handed out. */
  lemma OwnsStill(r: Record, gone: Record, heap: Heap, h: Heap)
    requires Owns(r, heap) && forall x :: IsBlockOf(gone, x) ==> !IsBlockOf(r, x)
    requires forall x :: x in h <==> x in heap && !IsBlockOf(gone, x)
    requires forall x :: x in h ==> h[x] == heap[x]
    ensures Owns(r, h)
  {
    forall j | 0 <= j < 3 && r.capacity[j] > 0 ensures r.addr[j] in h && h[r.addr[j]] == r.capacity[j] {
      assert IsBlockOf(r, r.addr[j]);
    }
  }

  lemma DisposeHeap(frames: seq<Record>, heap: Heap, i: nat, h: Heap)
    requires HeapFits(frames, heap) && i < |frames|
    requires forall x :: x in h <==> x in heap && !IsBlockOf(frames[i], x)
    requires forall x :: x in h ==> h[x] == heap[x]
    ensures HeapFits(frames[i := BLANK], h)
  {
    var to := frames[i := BLANK];
    assert forall x :: !IsBlockOf(BLANK, x);
    assert Owns(BLANK, h);
    hide IsBlockOf, Owns;
    forall k | 0 <= k < |to| ensures Owns(to[k], h) {
      if k != i { OwnsStill(frames[k], frames[i], heap, h); }
    }
    forall b | b in h ensures exists k :: 0 <= k < |to| && IsBlockOf(to[k], b) {
      var k :| 0 <= k < |frames| && IsBlockOf(frames[k], b);
      assert IsBlockOf(to[k], b);
    }
  }

  /** Disposing of a live record gives back exactly its own blocks. */
  lemma DisposeKeeps(a: Allocator, heap: Heap, i: nat)
    requires Inv(a, heap) && i < |a.frames| && a.frames[i].live
    ensures var (b, h) := Dispose(a, heap, i);
            Inv(b, h) && b.used == a.used - Total(a.frames[i].capacity)
            && forall x :: x in h <==> x in heap && !IsBlockOf(a.frames[i], x)
  {
    hide HeapFits, IsBlockOf, Freed, Sum, Layout;
    SumUpdate(a.frames, i, BLANK);
    SumCovers(a.frames, i);
    FreedIs(heap, a.frames[i]);
    DisposeHeap(a.frames, heap, i, Freed(heap, a.frames[i]));
  }

  lemma FreeFrameKeeps(a: Allocator, heap: Heap, f: Frame)
    requires Inv(a, heap)
    ensures var (b, h, _) := FreeFrame(a, heap, f); Inv(b, h)
  {
    hide HeapFits, Layout, Disjoint;
    var i := Find(a.frames, (r: Record) => Matches(r, f), 0);
    if i < |a.frames| && !a.frames[i].retired {
      if a.frames[i].ticket != 0 {
        RetitledKeeps(a, heap, i, a.frames[i].(retired := true), a.nextTicket);
      } else {
        DisposeKeeps(a, heap, i);
      }
    }
  }

  lemma AcquireKeeps(a: Allocator, heap: Heap, f: Frame)
    requires Inv(a, heap)
    ensures var (b, pin) := Acquire(a, f);
            Inv(b, heap) && (pin.Some? ==> pin.value.0 == b.nextTicket == a.nextTicket + 1)
  {
    hide HeapFits, Layout, Disjoint;
    var i := Find(a.frames, (r: Record) => Pinnable(r, f), 0);
    if a.nextTicket != U64_MAX && i < |a.frames| {
      RetitledKeeps(a, heap, i, a.frames[i].(ticket := a.nextTicket + 1), a.nextTicket + 1);
    }
  }

  lemma ReleaseKeeps(a: Allocator, heap: Heap, ticket: nat)
    requires Inv(a, heap)
    ensures var (b, h, _) := Release(a, heap, ticket); Inv(b, h)
  {
    hide HeapFits, Layout, Disjoint;
    var i := Find(a.frames, (r: Record) => r.ticket == ticket, 0);
    if ticket != 0 && i < |a.frames| {
      ReleaseOfKeeps(a, heap, i);
    }
  }

  /** Dropping a pin disposes of the frame exactly when the SDK freed it meanwhile. */
  lemma ReleaseOfKeeps(a: Allocator, heap: Heap, i: nat)
    requires Inv(a, heap) && i < |a.frames| && a.frames[i].ticket != 0
    ensures var r := a.frames[i].(ticket := 0);
            var b := a.(frames := a.frames[i := r]);
            if r.retired then var (c, h) := Dispose(b, heap, i); Inv(c, h) else Inv(b, heap)
  {
    hide HeapFits, Layout, Disjoint, Sum;
    var was := a.frames[i];
    if was.retired {
      DisposeKeeps(a, heap, i);
      var b := a.(frames := a.frames[i := was.(ticket := 0)]);
      assert b.frames[i := BLANK] == a.frames[i := BLANK];
      assert Dispose(b, heap, i) == Dispose(a, heap, i);
    } else {
      RetitledKeeps(a, heap, i, was.(ticket := 0), a.nextTicket);
    }
  }

  // ----- allocation -----

  /** The first i planes have blocks: new, their own, and nothing else was taken. */
  ghost predicate Taken(heap: Heap, h: Heap, capacity: Planes, addr: Planes, i: nat)
  {
    && i <= 3
    && (forall j :: 0 <= j < 3 && (j >= i || capacity[j] == 0) ==> addr[j] == 0)
    && (forall j :: 0 <= j < i && capacity[j] > 0 ==> addr[j] !in heap && addr[j] in h && h[addr[j]] == capacity[j])
    && (forall j, k :: 0 <= j < k < i && capacity[j] > 0 && capacity[k] > 0 ==> addr[j] != addr[k])
    && (forall x :: x in heap ==> x in h && h[x] == heap[x])
    && (forall x :: x in h && x !in heap ==> exists j :: 0 <= j < i && capacity[j] > 0 && addr[j] == x)
    && Disjoint(h)
  }

  lemma {:induction false} ReserveTakes(heap: Heap, h: Heap, capacity: Planes, answers: seq<Option<nat>>, i: nat, addr: Planes)
    requires i <= 3 && |answers| == 3 && Taken(heap, h, capacity, addr, i) && AnswersApart(h, capacity, answers, i)
    ensures var r := Reserve(h, capacity, answers, i, addr); r.Some? ==> Taken(heap, r.value.0, capacity, r.value.1, 3)
    decreases 3 - i
  {
    hide Taken;
    if i == 3 {
    } else if capacity[i] == 0 {
      TakenNone(heap, h, capacity, addr, i);
      ReserveTakes(heap, h, capacity, answers, i + 1, addr);
    } else if Usable(answers[i], capacity[i]) {
      TakenOne(heap, h, capacity, addr, i, answers[i].value);
      ReserveTakes(heap, h[answers[i].value := capacity[i]], capacity, answers, i + 1, addr[i := answers[i].value]);
    }
  }

  lemma TakenNone(heap: Heap, h: Heap, capacity: Planes, addr: Planes, i: nat)
    requires i < 3 && capacity[i] == 0 && Taken(heap, h, capacity, addr, i)
    ensures Taken(heap, h, capacity, addr, i + 1)
  {
  }

  lemma ApartKeeps(h: Heap, x: nat, size: nat)
    requires Disjoint(h) && Apart(h, x, size) && size > 0
    ensures x !in h && Disjoint(h[x := size])
  {
  }

  lemma TakenOne(heap: Heap, h: Heap, capacity: Planes, addr: Planes, i: nat, x: nat)
    requires i < 3 && capacity[i] > 0 && Taken(heap, h, capacity, addr, i) && Apart(h, x, capacity[i])
    ensures Taken(heap, h[x := capacity[i]], capacity, addr[i := x], i + 1)
  {
    hide Disjoint, Apart;
    var to := addr[i := x];
    var h1 := h[x := capacity[i]];
    ApartKeeps(h, x, capacity[i]);
    forall y | y in h1 && y !in heap ensures exists j :: 0 <= j < i + 1 && capacity[j] > 0 && to[j] == y {
      if y == x {
        assert to[i] == y;
      } else {
        var j :| 0 <= j < i && capacity[j] > 0 && addr[j] == y;
        assert to[j] == y;
      }
    }
  }

  lemma AllocatedHeap(frames: seq<Record>, heap: Heap, h: Heap, slot: nat, r: Record)
    requires HeapFits(frames, heap) && slot < |frames| && frames[slot] == BLANK
    requires Taken(heap, h, r.capacity, r.addr, 3)
    ensures HeapFits(frames[slot := r], h)
  {
    var to := frames[slot := r];
    assert forall x :: !IsBlockOf(BLANK, x);
    forall k | 0 <= k < |to| ensures Owns(to[k], h) {
      if k != slot { assert Owns(frames[k], heap); }
    }
    forall k, x | 0 <= k < |frames| && k != slot && IsBlockOf(frames[k], x) ensures !IsBlockOf(r, x) {
      assert Owns(frames[k], heap);
      assert x in heap;
    }
    hide IsBlockOf, Owns;
    forall b | b in h ensures exists k :: 0 <= k < |to| && IsBlockOf(to[k], b) {
      if b in heap {
        var k :| 0 <= k < |frames| && IsBlockOf(frames[k], b);
        assert IsBlockOf(to[k], b);
      } else {
        BlockOfTaken(heap, h, r, b);
        assert IsBlockOf(to[slot], b);
      }
    }
  }

  lemma BlockOfTaken(heap: Heap, h: Heap, r: Record, b: nat)
    requires Taken(heap, h, r.capacity, r.addr, 3) && b in h && b !in heap
    ensures IsBlockOf(r, b)
  {
  }

  /** A refused allocation changes nothing; an accepted one takes exactly its planes within the budget. */
  lemma AllocateKeeps(a: Allocator, heap: Heap, width: int, stride: int, height: int, f: Format, answers: seq<Option<nat>>)
    requires Inv(a, heap) && |answers| == 3
    requires Layout(width, stride, height, f).Some? ==> AnswersApart(heap, Layout(width, stride, height, f).value.1, answers, 0)
    ensures var (b, h, frame) := Allocate(a, heap, width, stride, height, f, answers);
            Inv(b, h) && (frame.None? ==> b == a && h == heap) && b.used <= b.budget == a.budget
  {
    hide Inv, Taken, AnswersApart, Layout;
    InvWithin(a, heap);
    if Layout(width, stride, height, f).Some? {
      var (strides, capacity) := Layout(width, stride, height, f).value;
      var slot := Find(a.frames, (r: Record) => !r.live, 0);
      if slot < |a.frames| && Total(capacity) <= a.budget - a.used {
        TakenStart(a, heap, capacity);
        ReserveTakes(heap, heap, capacity, answers, 0, [0, 0, 0]);
        if Reserve(heap, capacity, answers, 0, [0, 0, 0]).Some? {
          var (h, addr) := Reserve(heap, capacity, answers, 0, [0, 0, 0]).value;
          LayoutFits(width, stride, height, f);
          AllocatedKeeps(a, heap, h, slot, Record(addr, strides, capacity, width, height, f, 0, true, false));
        }
      }
    }
  }

  lemma InvWithin(a: Allocator, heap: Heap)
    requires Inv(a, heap)
    ensures a.used <= a.budget && |a.frames| == FRAME_COUNT
  {
  }

  lemma TakenStart(a: Allocator, heap: Heap, capacity: Planes)
    requires Inv(a, heap)
    ensures Taken(heap, heap, capacity, [0, 0, 0], 0)
  {
    hide HeapFits, Sum, RecordFits, TicketsDistinct;
  }

  lemma AllocatedKeeps(a: Allocator, heap: Heap, h: Heap, slot: nat, r: Record)
    requires Inv(a, heap) && slot < |a.frames| && !a.frames[slot].live && Total(r.capacity) <= a.budget - a.used
    requires Taken(heap, h, r.capacity, r.addr, 3) && r.ticket == 0 && !r.retired && r.live && r.capacity[0] > 0
    requires Layout(r.width, r.stride[0], r.height, r.format) == Some((r.stride, r.capacity))
    ensures Inv(a.(frames := a.frames[slot := r], used := a.used + Total(r.capacity)), h)
  {
    hide HeapFits, Disjoint, Sum, Layout;
    AllocatedHeap(a.frames, heap, h, slot, r);
    SumUpdate(a.frames, slot, r);
  }

  /** The first plane is never empty, and its stride is the SDK's. */
  lemma LayoutFits(width: int, stride: int, height: int, f: Format)
    ensures match Layout(width, stride, height, f)
            case None => true
            case Some(l) => l.1[0] > 0 && l.0[0] == stride && Layout(width, l.0[0], height, f) == Some(l)
  {
    if LayoutAllowed(width, stride, height, f) {
      MulMonotone(1, height, stride);
      assert PlaneSize(ShapeOf(f).value, stride, height, 0) == stride * height >= 1;
    }
  }

  // ----- laws -----

  /** The memory pinned under a ticket, wherever its record is. */
  ghost predicate Pinned(a: Allocator, ticket: nat, addr: Planes, capacity: Planes)
  {
    ticket != 0 && exists i :: 0 <= i < |a.frames| && IsPin(a.frames[i], ticket, addr, capacity)
  }

  predicate IsPin(r: Record, ticket: nat, addr: Planes, capacity: Planes)
  {
    r.ticket == ticket && r.live && r.addr == addr && r.capacity == capacity
  }

  /** Memory under a pin is live: its planes are handed out and belong to no one else. */
  lemma PinnedIsLive(a: Allocator, heap: Heap, ticket: nat, addr: Planes, capacity: Planes)
    requires Inv(a, heap) && Pinned(a, ticket, addr, capacity)
    ensures forall j :: 0 <= j < 3 && capacity[j] > 0 ==> addr[j] in heap && heap[addr[j]] == capacity[j]
  {
    hide Disjoint, Sum, RecordFits, TicketsDistinct, IsBlockOf;
    var i :| 0 <= i < |a.frames| && IsPin(a.frames[i], ticket, addr, capacity);
    assert Owns(a.frames[i], heap);
  }

  /** A pin survives every operation but its own release: another frame's allocation, the SDK freeing
      the very frame, another pin, another release. */
  lemma PinSurvivesFree(a: Allocator, heap: Heap, f: Frame, ticket: nat, addr: Planes, capacity: Planes)
    requires Pinned(a, ticket, addr, capacity)
    ensures Pinned(FreeFrame(a, heap, f).0, ticket, addr, capacity)
  {
    var i :| 0 <= i < |a.frames| && IsPin(a.frames[i], ticket, addr, capacity);
    assert IsPin(FreeFrame(a, heap, f).0.frames[i], ticket, addr, capacity);
  }

  lemma PinSurvivesAllocate(a: Allocator, heap: Heap, width: int, stride: int, height: int, f: Format, answers: seq<Option<nat>>,
                            ticket: nat, addr: Planes, capacity: Planes)
    requires |answers| == 3 && Pinned(a, ticket, addr, capacity)
    ensures Pinned(Allocate(a, heap, width, stride, height, f, answers).0, ticket, addr, capacity)
  {
    hide Layout, Reserve;
    var i :| 0 <= i < |a.frames| && IsPin(a.frames[i], ticket, addr, capacity);
    assert IsPin(Allocate(a, heap, width, stride, height, f, answers).0.frames[i], ticket, addr, capacity);
  }

  lemma PinSurvivesAcquire(a: Allocator, f: Frame, ticket: nat, addr: Planes, capacity: Planes)
    requires Pinned(a, ticket, addr, capacity)
    ensures Pinned(Acquire(a, f).0, ticket, addr, capacity)
  {
    hide Layout;
    var i :| 0 <= i < |a.frames| && IsPin(a.frames[i], ticket, addr, capacity);
    assert IsPin(Acquire(a, f).0.frames[i], ticket, addr, capacity);
  }

  lemma PinSurvivesRelease(a: Allocator, heap: Heap, other: nat, ticket: nat, addr: Planes, capacity: Planes)
    requires Pinned(a, ticket, addr, capacity) && other != ticket
    ensures Pinned(Release(a, heap, other).0, ticket, addr, capacity)
  {
    var i :| 0 <= i < |a.frames| && IsPin(a.frames[i], ticket, addr, capacity);
    assert IsPin(Release(a, heap, other).0.frames[i], ticket, addr, capacity);
  }

  /** What an acquired pin names is the frame the SDK lent. */
  lemma AcquiredPins(a: Allocator, heap: Heap, f: Frame)
    requires Inv(a, heap)
    ensures var (b, pin) := Acquire(a, f);
            && (pin.Some? ==> Pinned(b, pin.value.0, f.addr, pin.value.1) && pin.value.0 == a.nextTicket + 1)
            && (forall ticket, addr, capacity :: ticket > a.nextTicket ==> !Pinned(a, ticket, addr, capacity))
  {
    hide HeapFits, Disjoint, Sum, Layout, TicketsDistinct;
    var (b, pin) := Acquire(a, f);
    if pin.Some? {
      var i := Find(a.frames, (r: Record) => Pinnable(r, f), 0);
      assert IsPin(b.frames[i], pin.value.0, f.addr, pin.value.1);
    }
  }

  /** Releasing a pin: it succeeds exactly when the ticket is pinned, the ticket is gone afterwards,
      and memory is given back exactly when the SDK had freed the frame meanwhile. */
  lemma ReleaseExactly(a: Allocator, heap: Heap, ticket: nat)
    requires Inv(a, heap)
    ensures var (b, h, ok) := Release(a, heap, ticket);
            && (ok <==> exists i :: 0 <= i < |a.frames| && a.frames[i].ticket == ticket != 0)
            && (forall addr, capacity :: !Pinned(b, ticket, addr, capacity))
            && (if exists i :: 0 <= i < |a.frames| && a.frames[i].ticket == ticket && a.frames[i].retired
                then b.used < a.used else b.used == a.used && h == heap)
  {
    hide HeapFits, Disjoint, Sum, Layout;
    var i := Find(a.frames, (r: Record) => r.ticket == ticket, 0);
    var (b, h, ok) := Release(a, heap, ticket);
    if ok {
      assert a.frames[i].ticket == ticket;
      forall k | 0 <= k < |a.frames| && k != i ensures b.frames[k].ticket != ticket { assert b.frames[k] == a.frames[k]; }
      if a.frames[i].retired { UsedCovers(a, heap, i); }
    }
  }

  lemma UsedCovers(a: Allocator, heap: Heap, i: nat)
    requires Inv(a, heap) && i < |a.frames| && a.frames[i].live
    ensures 0 < Total(a.frames[i].capacity) <= a.used
  {
    hide HeapFits, Disjoint, Layout;
    SumCovers(a.frames, i);
  }

  /** The SDK freeing a frame gives memory back only when it is not pinned; a pinned one is retired,
      and freeing it again is refused. */
  lemma FreeExactly(a: Allocator, heap: Heap, f: Frame)
    requires Inv(a, heap)
    ensures var i := Find(a.frames, (r: Record) => Matches(r, f), 0);
            var (b, h, ok) := FreeFrame(a, heap, f);
            && (ok ==> !FreeFrame(b, h, f).2 || f.addr == [0, 0, 0])
            && (i < |a.frames| && a.frames[i].ticket != 0 ==>
                  h == heap && b.used == a.used && b.frames[i].retired && ok == !a.frames[i].retired)
            && (i < |a.frames| && a.frames[i].ticket == 0 ==> ok && b.used < a.used && !b.frames[i].live)
  {
    hide Inv, Layout;
    var i := Find(a.frames, (r: Record) => Matches(r, f), 0);
    FreedTwice(a, heap, f);
    if i < |a.frames| && a.frames[i].ticket == 0 {
      UsedCovers(a, heap, i);
      Unretired(a, heap, i);
    }
  }

  lemma Unretired(a: Allocator, heap: Heap, i: nat)
    requires Inv(a, heap) && i < |a.frames| && a.frames[i].ticket == 0
    ensures !a.frames[i].retired
  {
    hide HeapFits, Sum, Disjoint, Layout;
  }

  lemma FreedTwice(a: Allocator, heap: Heap, f: Frame)
    requires Inv(a, heap)
    ensures var (b, h, ok) := FreeFrame(a, heap, f); ok ==> !FreeFrame(b, h, f).2 || f.addr == [0, 0, 0]
  {
    hide Inv, Layout, Freed;
    var i := Find(a.frames, (r: Record) => Matches(r, f), 0);
    var b := FreeFrame(a, heap, f).0;
    if i < |a.frames| {
      forall k | 0 <= k < |a.frames| && k != i ensures !Matches(b.frames[k], f) { OneMatch(a, heap, f, i, k); }
    }
  }

  /** No two records stand for the same frame. */
  lemma OneMatch(a: Allocator, heap: Heap, f: Frame, i: nat, k: nat)
    requires Inv(a, heap) && i < |a.frames| && k < |a.frames| && i != k && Matches(a.frames[i], f)
    ensures !Matches(a.frames[k], f)
  {
    hide Sum, Disjoint, Layout, Owns, TicketsDistinct;
    assert IsBlockOf(a.frames[i], f.addr[0]);
    assert !IsBlockOf(a.frames[k], f.addr[0]);
  }
}
