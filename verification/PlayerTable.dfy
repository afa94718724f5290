/** The allocator's frame table, updated in place under its mutex. */
module PlayerTable {
  import opened Prelude
  import opened PlayerAllocator

  class Table {
    const frames: array<Record>
    const budget: nat
    var used: nat
    var nextTicket: u64
    ghost var heap: Heap

    ghost predicate Valid()
      reads this, frames
    {
      frames.Length == FRAME_COUNT && Inv(State(), heap)
    }

    ghost function State(): Allocator
      reads this, frames
    {
      Allocator(budget, used, nextTicket, frames[..])
    }

    constructor (budget: nat)
      ensures Valid() && fresh(frames) && State() == Created(budget) && heap == map[]
    {
      frames := new Record[FRAME_COUNT](_ => BLANK);
      this.budget, used, nextTicket, heap := budget, 0, 0, map[];
      new;
      assert frames[..] == seq(FRAME_COUNT, _ => BLANK);
      CreatedKeeps(budget);
    }

    /** Take the blocks one plane at a time; on a refusal the earlier ones are given back. */
    method TakeBlocks(capacity: Planes, answers: seq<Option<nat>>) returns (addr: Option<Planes>)
      requires |answers| == 3 && Disjoint(heap) && AnswersApart(heap, capacity, answers, 0)
      modifies this`heap
      ensures match Reserve(old(heap), capacity, answers, 0, [0, 0, 0])
              case None => addr.None? && heap == old(heap)
              case Some((h, a)) => addr == Some(a) && heap == h
    {
      var i, taken: Planes := 0, [0, 0, 0];
      ghost var was := heap;
      assert Taken(was, heap, capacity, taken, 0);
      while i < 3
        invariant i <= 3 && Taken(was, heap, capacity, taken, i) && AnswersApart(heap, capacity, answers, i)
        invariant Reserve(heap, capacity, answers, i, taken) == Reserve(was, capacity, answers, 0, [0, 0, 0])
      {
        hide Taken, Disjoint, Apart;
        if capacity[i] > 0 {
          if !Usable(answers[i], capacity[i]) {
            GiveBack(capacity, taken, i, was);
            return None;
          }
          TakenOne(was, heap, capacity, taken, i, answers[i].value);
          heap := heap[answers[i].value := capacity[i]];
          taken := taken[i := answers[i].value];
        } else {
          TakenNone(was, heap, capacity, taken, i);
        }
        i := i + 1;
      }
      addr := Some(taken);
    }

    /** The rollback loop. */
    method GiveBack(capacity: Planes, taken: Planes, i: nat, ghost was: Heap)
      requires i < 3 && Taken(was, heap, capacity, taken, i)
      modifies this`heap
      ensures heap == was
    {
      var j := 0;
      ghost var h := heap;
      while j < i
        invariant j <= i && Returned(h, heap, capacity, taken, j)
      {
        ReturnedMore(h, heap, capacity, taken, j);
        if capacity[j] > 0 { heap := heap - {taken[j]}; }
        j := j + 1;
      }
      AllReturned(was, h, heap, capacity, taken, i);
    }

    method Allocate(width: int, stride: int, height: int, f: Format, answers: seq<Option<nat>>) returns (r: Option<Frame>)
      requires Valid() && |answers| == 3
      requires Layout(width, stride, height, f).Some? ==> AnswersApart(heap, Layout(width, stride, height, f).value.1, answers, 0)
      modifies this, frames
      ensures Valid() && (State(), heap, r) == PlayerAllocator.Allocate(old(State()), old(heap), width, stride, height, f, answers)
    {
      hide Inv, Layout, Reserve, AnswersApart;
      AllocateKeeps(State(), heap, width, stride, height, f, answers);
      var shape := Layout(width, stride, height, f);
      if shape.None? { return None; }
      var (strides, capacity) := shape.value;
      var slot := 0;
      while slot < FRAME_COUNT && frames[slot].live
        invariant slot <= FRAME_COUNT && forall k :: 0 <= k < slot ==> frames[k].live
      {
        slot := slot + 1;
      }
      FindIs(frames[..], (r: Record) => !r.live, slot, 0);
      if slot == FRAME_COUNT || Total(capacity) > budget - used { return None; }
      InvDisjoint(State(), heap);
      var addr := TakeBlocks(capacity, answers);
      if addr.None? { return None; }
      frames[slot] := Record(addr.value, strides, capacity, width, height, f, 0, true, false);
      used := used + Total(capacity);
      r := Some(Frame(true, addr.value, strides, width, height, f));
    }

    method DisposeAt(i: nat)
      requires frames.Length == FRAME_COUNT && i < FRAME_COUNT && Total(frames[i].capacity) <= used
      modifies this`used, this`heap, frames
      ensures (State(), heap) == Dispose(old(State()), old(heap), i)
    {
      heap := Freed(heap, frames[i]);
      used := used - Total(frames[i].capacity);
      frames[i] := BLANK;
    }

    method FreeFrame(f: Frame) returns (ok: bool)
      requires Valid()
      modifies this, frames
      ensures Valid() && (State(), heap, ok) == PlayerAllocator.FreeFrame(old(State()), old(heap), f)
    {
      hide Inv, Layout, Freed;
      FreeFrameKeeps(State(), heap, f);
      var i := 0;
      while i < FRAME_COUNT
        invariant i <= FRAME_COUNT && forall k :: 0 <= k < i ==> !Matches(frames[k], f)
      {
        if Matches(frames[i], f) {
          FindIs(frames[..], (r: Record) => Matches(r, f), i, 0);
          if frames[i].retired { return false; }
          if frames[i].ticket != 0 {
            frames[i] := frames[i].(retired := true);
          } else {
            UsedCovers(State(), heap, i);
            DisposeAt(i);
          }
          return true;
        }
        i := i + 1;
      }
      FindIs(frames[..], (r: Record) => Matches(r, f), FRAME_COUNT, 0);
      ok := f.addr == [0, 0, 0];
    }

    method Acquire(f: Frame) returns (pin: Option<(nat, Planes)>)
      requires Valid()
      modifies this, frames
      ensures Valid() && heap == old(heap) && (State(), pin) == PlayerAllocator.Acquire(old(State()), f)
    {
      hide Inv, Layout;
      AcquireKeeps(State(), heap, f);
      var i := 0;
      while i < FRAME_COUNT
        invariant i <= FRAME_COUNT && (nextTicket != U64_MAX ==> forall k :: 0 <= k < i ==> !Pinnable(frames[k], f))
      {
        if Pinnable(frames[i], f) && nextTicket != U64_MAX {
          FindIs(frames[..], (r: Record) => Pinnable(r, f), i, 0);
          nextTicket := nextTicket + 1;
          frames[i] := frames[i].(ticket := nextTicket);
          return Some((nextTicket, frames[i].capacity));
        }
        i := i + 1;
      }
      if nextTicket != U64_MAX { FindIs(frames[..], (r: Record) => Pinnable(r, f), FRAME_COUNT, 0); }
      pin := None;
    }

    method Release(ticket: nat) returns (ok: bool)
      requires Valid()
      modifies this, frames
      ensures Valid() && (State(), heap, ok) == PlayerAllocator.Release(old(State()), old(heap), ticket)
    {
      hide Inv, Layout, Freed;
      ReleaseKeeps(State(), heap, ticket);
      if ticket == 0 { return false; }
      var i := 0;
      while i < FRAME_COUNT
        invariant i <= FRAME_COUNT && forall k :: 0 <= k < i ==> frames[k].ticket != ticket
      {
        if frames[i].ticket == ticket {
          FindIs(frames[..], (r: Record) => r.ticket == ticket, i, 0);
          PinnedCovers(State(), heap, i);
          frames[i] := frames[i].(ticket := 0);
          if frames[i].retired { DisposeAt(i); }
          return true;
        }
        i := i + 1;
      }
      FindIs(frames[..], (r: Record) => r.ticket == ticket, FRAME_COUNT, 0);
      ok := false;
    }
  }

  lemma InvDisjoint(a: Allocator, heap: Heap)
    requires Inv(a, heap)
    ensures Disjoint(heap)
  {
  }

  lemma PinnedCovers(a: Allocator, heap: Heap, i: nat)
    requires Inv(a, heap) && i < |a.frames| && a.frames[i].ticket != 0
    ensures Total(a.frames[i].capacity) <= a.used
  {
    hide HeapFits, Disjoint, Layout;
    UsedCovers(a, heap, i);
  }

  /** The first j blocks were given back. */
  ghost predicate Returned(h: Heap, now: Heap, capacity: Planes, taken: Planes, j: nat)
  {
    && j <= 3
    && (forall x :: x in now <==> x in h && !(exists k :: 0 <= k < j && capacity[k] > 0 && taken[k] == x))
    && (forall x :: x in now ==> now[x] == h[x])
  }

  lemma ReturnedMore(h: Heap, now: Heap, capacity: Planes, taken: Planes, j: nat)
    requires Returned(h, now, capacity, taken, j) && j < 3
    ensures Returned(h, if capacity[j] > 0 then now - {taken[j]} else now, capacity, taken, j + 1)
  {
  }

  lemma AllReturned(was: Heap, h: Heap, now: Heap, capacity: Planes, taken: Planes, i: nat)
    requires Taken(was, h, capacity, taken, i) && Returned(h, now, capacity, taken, i)
    ensures now == was
  {
    hide Disjoint;
  }
}
