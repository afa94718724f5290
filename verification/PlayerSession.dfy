/** The playback session's leases on SDK frames. */
module PlayerSession {
  import opened Prelude
  import A = PlayerAllocator

  /** A frame as the SDK hands it out: its id, its buffer and whether it decoded with an error. */
  datatype Decoded = Decoded(id: int, frame: A.Frame, broken: bool)

  const LEASES: nat := 8

  datatype Session = Session(
    held: seq<bool>, tickets: seq<nat>, frames: seq<Decoded>, nextTicket: u64,
    player: bool, started: bool, paused: bool, hasVideo: bool, faulted: bool, quarantined: bool)

  predicate Sized(s: Session)
  {
    |s.held| == |s.tickets| == |s.frames| == LEASES
  }

  predicate Usable(s: Session)
  {
    s.player && !s.faulted && !s.quarantined
  }

  predicate IsLease(s: Session, i: nat, lease: nat)
    requires Sized(s)
  {
    i < LEASES && s.held[i] && s.tickets[i] == lease
  }

  /** The slot of a lease, or the number of slots. */
  function SlotOf(s: Session, lease: nat, i: nat): (r: nat)
    requires Sized(s) && i <= LEASES
    ensures i <= r <= LEASES && (r < LEASES ==> IsLease(s, r, lease)) && forall k :: i <= k < r ==> !IsLease(s, k, lease)
    decreases LEASES - i
  {
    if i == LEASES || IsLease(s, i, lease) then i else SlotOf(s, lease, i + 1)
  }

  predicate Duplicate(s: Session, id: int)
    requires Sized(s)
  {
    exists i :: 0 <= i < LEASES && s.held[i] && s.frames[i].id == id
  }

  /** Lease the next frame; `got` is what the SDK answered. A frame already held quarantines the session. */
  function Acquire(s: Session, got: Option<Decoded>): (Session, Option<nat>)
    requires Sized(s)
  {
    if !Usable(s) || !s.started || s.paused || !s.hasVideo then (s, None)
    else
      var i := Find(s.held, (h: bool) => !h, 0);
      if i == LEASES || s.nextTicket == U64_MAX || got.None? then (s, None)
      else if Duplicate(s, got.value.id) then (s.(quarantined := true, faulted := true), None)
      else
        (s.(frames := s.frames[i := got.value], held := s.held[i := true], nextTicket := s.nextTicket + 1,
            tickets := s.tickets[i := s.nextTicket + 1]), Some(s.nextTicket + 1))
  }

  /** Give a frame back to the SDK; a failed put keeps the lease. */
  function Release(s: Session, lease: nat, put: bool): (Session, bool)
    requires Sized(s)
  {
    if !s.player || s.quarantined || lease == 0 then (s, false)
    else
      var i := SlotOf(s, lease, 0);
      if i == LEASES then (s, false)
      else if !put then (s.(faulted := true), false)
      else (s.(held := s.held[i := false]), true)
  }

  predicate NoneHeld(s: Session)
  {
    forall i :: 0 <= i < |s.held| ==> !s.held[i]
  }

  /** Stop and close refuse while any frame is leased. */
  function Stop(s: Session, stopped: bool): (Session, bool)
  {
    if !NoneHeld(s) || s.quarantined then (s, false)
    else if !s.player then (s, true)
    else if !stopped then (s.(faulted := true), false)
    else (s.(started := false, paused := false), true)
  }

  function Close(s: Session, stopped: bool, destroyed: bool): (Session, bool)
  {
    var (t, ok) := Stop(s, stopped);
    if !ok then (t, false)
    else if t.player && !destroyed then (t.(faulted := true), false)
    else (t.(player := false, started := false, paused := false, hasVideo := false, faulted := false, quarantined := false), true)
  }

  // ----- what every operation keeps -----

  /** A lease that is out. */
  predicate Held(s: Session, lease: nat)
    requires Sized(s)
  {
    exists i :: 0 <= i < LEASES && IsLease(s, i, lease)
  }

  /** Leases are positive, distinct, no newer than the counter and of an open player; no frame is held twice. */
  predicate Inv(s: Session)
  {
    && Sized(s)
    && (forall i :: 0 <= i < LEASES && s.held[i] ==> s.player && 0 < s.tickets[i] <= s.nextTicket)
    && (forall i, k :: 0 <= i < k < LEASES && s.held[i] && s.held[k] ==>
          s.tickets[i] != s.tickets[k] && s.frames[i].id != s.frames[k].id)
  }

  /** Leasing into a free slot adds exactly that lease. */
  lemma LeaseAdded(s: Session, t: Session, i: nat, lease: nat, l: nat)
    requires Sized(s) && Sized(t) && i < LEASES && !s.held[i]
    requires t.held == s.held[i := true] && t.tickets == s.tickets[i := lease]
    ensures Held(t, l) <==> Held(s, l) || l == lease
  {
    if Held(s, l) {
      var k :| 0 <= k < LEASES && IsLease(s, k, l);
      assert IsLease(t, k, l);
    }
    if Held(t, l) {
      var k :| 0 <= k < LEASES && IsLease(t, k, l);
      if k != i { assert IsLease(s, k, l); }
    }
    assert IsLease(t, i, lease);
  }

  /** Ending the lease of one slot ends exactly that lease. */
  lemma LeaseEnded(s: Session, t: Session, i: nat, l: nat)
    requires Inv(s) && Sized(t) && i < LEASES && s.held[i] && t.held == s.held[i := false] && t.tickets == s.tickets
    ensures Held(t, l) <==> Held(s, l) && l != s.tickets[i]
  {
    if Held(s, l) && l != s.tickets[i] {
      var k :| 0 <= k < LEASES && IsLease(s, k, l);
      assert IsLease(t, k, l);
    }
    if Held(t, l) {
      var k :| 0 <= k < LEASES && IsLease(t, k, l);
      assert IsLease(s, k, l) && k != i;
    }
  }

  lemma SameLeases(s: Session, t: Session, l: nat)
    requires Sized(s) && Sized(t) && t.held == s.held && t.tickets == s.tickets
    ensures Held(t, l) <==> Held(s, l)
  {
    assert forall k :: 0 <= k < LEASES ==> IsLease(t, k, l) == IsLease(s, k, l);
  }

  /** A lease is newer than every lease before it; no other lease is touched. */
  lemma AcquireKeeps(s: Session, got: Option<Decoded>)
    requires Inv(s)
    ensures var (t, lease) := Acquire(s, got);
            && Inv(t)
            && (lease.Some? ==> !Held(s, lease.value) && lease.value == s.nextTicket + 1 == t.nextTicket)
            && (lease.None? ==> t.nextTicket == s.nextTicket)
            && (forall l: nat :: Held(t, l) <==> Held(s, l) || lease == Some(l))
  {
    hide Held;
    var (t, lease) := Acquire(s, got);
    NoNewerLease(s, s.nextTicket + 1);
    forall l: nat ensures Held(t, l) <==> Held(s, l) || lease == Some(l) {
      if lease.Some? { LeaseAdded(s, t, Find(s.held, (h: bool) => !h, 0), lease.value, l); }
      else { SameLeases(s, t, l); }
    }
  }

  lemma NoNewerLease(s: Session, l: nat)
    requires Inv(s)
    ensures l > s.nextTicket ==> !Held(s, l)
  {
  }

  /** A put that fails keeps every lease; one that succeeds ends exactly this one. */
  lemma ReleaseKeeps(s: Session, lease: nat, put: bool)
    requires Inv(s)
    ensures var (t, ok) := Release(s, lease, put);
            && Inv(t) && t.nextTicket == s.nextTicket
            && (forall l: nat :: Held(t, l) <==> Held(s, l) && !(ok && l == lease))
            && (ok <==> put && s.player && !s.quarantined && lease != 0 && Held(s, lease))
  {
    hide Held;
    var (t, ok) := Release(s, lease, put);
    SlotFound(s, lease);
    forall l: nat ensures Held(t, l) <==> Held(s, l) && !(ok && l == lease) {
      if ok { LeaseEnded(s, t, SlotOf(s, lease, 0), l); } else { SameLeases(s, t, l); }
    }
  }

  lemma SlotFound(s: Session, lease: nat)
    requires Inv(s)
    ensures Held(s, lease) <==> SlotOf(s, lease, 0) < LEASES
  {
    if Held(s, lease) {
      var k :| 0 <= k < LEASES && IsLease(s, k, lease);
    } else {
      var r := SlotOf(s, lease, 0);
    }
  }

  lemma CloseKeeps(s: Session, stopped: bool, destroyed: bool)
    requires Inv(s)
    ensures var (t, ok) := Close(s, stopped, destroyed);
            Inv(t) && t.nextTicket == s.nextTicket && t.held == s.held && (ok ==> NoneHeld(s) && !t.player)
  {
  }

  /** A frame stands in a place that was free, under a new ticket, and nothing else changed. */
  predicate LeasedAt(s: Session, t: Session, i: nat, frame: Decoded)
    requires Sized(s) && i < LEASES
  {
    && !s.held[i] && s.nextTicket < U64_MAX
    && t == s.(held := s.held[i := true], tickets := s.tickets[i := s.nextTicket + 1], frames := s.frames[i := frame],
               nextTicket := s.nextTicket + 1)
  }

  /** A frame is leased exactly by a started, playing video session without a fault when the SDK has a frame
      that is not out already, and a place and a ticket are free: the frame then stands in a place of its own
      under the new ticket. A frame that is out already is the one refusal that changes the session. */
  lemma AcquireExactly(s: Session, got: Option<Decoded>)
    requires Inv(s)
    ensures var (t, lease) := Acquire(s, got);
            var asked := && s.player && s.started && !s.paused && s.hasVideo && !s.faulted && !s.quarantined && got.Some?
                         && s.nextTicket < U64_MAX && exists i :: 0 <= i < LEASES && !s.held[i];
            var again := got.Some? && exists i :: 0 <= i < LEASES && s.held[i] && s.frames[i].id == got.value.id;
            && (lease == if asked && !again then Some(s.nextTicket + 1) else None)
            && (lease.None? ==> t == if asked && again then s.(quarantined := true, faulted := true) else s)
            && (lease.Some? ==> exists i: nat :: i < LEASES && LeasedAt(s, t, i, got.value))
  {
    hide Held;
    var (t, lease) := Acquire(s, got);
    if lease.Some? { assert LeasedAt(s, t, Find(s.held, (h: bool) => !h, 0), got.value); }
  }

  /** A put ends the lease and nothing else; the SDK refusing it faults the session. */
  lemma ReleaseExactly(s: Session, lease: nat, put: bool)
    requires Inv(s)
    ensures var (t, ok) := Release(s, lease, put);
            if s.quarantined || !(exists i :: 0 <= i < LEASES && s.held[i] && s.tickets[i] == lease) then t == s && !ok
            else if !put then t == s.(faulted := true) && !ok
            else ok && exists i :: 0 <= i < LEASES && s.held[i] && s.tickets[i] == lease && t == s.(held := s.held[i := false])
  {
    hide Held;
    if exists i :: 0 <= i < LEASES && s.held[i] && s.tickets[i] == lease {
      var i :| 0 <= i < LEASES && s.held[i] && s.tickets[i] == lease;
      assert IsLease(s, i, lease);
    }
  }

  /** Closing succeeds exactly when nothing is leased, the session is not quarantined, and the SDK stops and
      destroys the player if there is one; the session is then as before it was opened. */
  lemma CloseExactly(s: Session, stopped: bool, destroyed: bool)
    requires Inv(s)
    ensures var (t, ok) := Close(s, stopped, destroyed);
            && (ok <==> (forall i :: 0 <= i < LEASES ==> !s.held[i]) && !s.quarantined && (s.player ==> stopped && destroyed))
            && (ok ==> !t.player && !t.started && !t.paused && !t.hasVideo && !t.faulted && !t.quarantined)
            && (!ok && ((exists i :: 0 <= i < LEASES && s.held[i]) || s.quarantined) ==> t == s)
            && (!ok && (forall i :: 0 <= i < LEASES ==> !s.held[i]) && !s.quarantined ==>
                  t.player && t.faulted && (stopped ==> !t.started && !t.paused) && (!stopped ==> t.started == s.started))
  {
  }

  lemma InvSized(s: Session)
    requires Inv(s)
    ensures Sized(s)
  {
  }

  // ----- the session object -----

  class Player {
    var held: seq<bool>
    var tickets: seq<nat>
    var frames: seq<Decoded>
    var nextTicket: u64
    var player: bool
    var started: bool
    var paused: bool
    var hasVideo: bool
    var faulted: bool
    var quarantined: bool

    ghost function State(): Session
      reads this
    {
      Session(held, tickets, frames, nextTicket, player, started, paused, hasVideo, faulted, quarantined)
    }

    ghost predicate Valid()
      reads this
    {
      Inv(State())
    }

    /** A session with a started video player and nothing leased. */
    constructor (nextTicket: u64, hasVideo: bool)
      ensures Valid() && NoneHeld(State()) && this.nextTicket == nextTicket && started && !paused && Usable(State())
    {
      held, tickets := seq(LEASES, _ => false), seq(LEASES, _ => 0);
      frames := seq(LEASES, _ => Decoded(0, A.Frame(false, [0, 0, 0], [0, 0, 0], 0, 0, A.OtherFormat), false));
      this.nextTicket, this.hasVideo := nextTicket, hasVideo;
      player, started, paused, faulted, quarantined := true, true, false, false, false;
    }

    /** Whether the SDK lent a frame that is already held. */
    method AlreadyHeld(id: int) returns (found: bool)
      requires Sized(State())
      ensures found == Duplicate(State(), id)
    {
      var i := 0;
      while i < LEASES
        invariant i <= LEASES && forall k :: 0 <= k < i && held[k] ==> frames[k].id != id
      {
        if held[i] && frames[i].id == id { return true; }
        i := i + 1;
      }
      found := false;
    }

    method AcquireFrame(got: Option<Decoded>) returns (lease: Option<nat>)
      requires Valid()
      modifies this
      ensures Valid() && (State(), lease) == Acquire(old(State()), got)
    {
      hide Inv, Duplicate, Held;
      AcquireKeeps(State(), got);
      InvSized(State());
      if !player || faulted || quarantined || !started || paused || !hasVideo { return None; }
      var slot := 0;
      while slot < LEASES && held[slot]
        invariant slot <= LEASES && forall k :: 0 <= k < slot ==> held[k]
      {
        slot := slot + 1;
      }
      FindIs(held, (h: bool) => !h, slot, 0);
      if slot == LEASES || nextTicket == U64_MAX || got.None? { return None; }
      var again := AlreadyHeld(got.value.id);
      if again {
        quarantined, faulted := true, true;
        return None;
      }
      frames, held := frames[slot := got.value], held[slot := true];
      nextTicket := nextTicket + 1;
      tickets := tickets[slot := nextTicket];
      lease := Some(nextTicket);
    }

    method ReleaseFrame(lease: nat, put: bool) returns (ok: bool)
      requires Valid()
      modifies this
      ensures Valid() && (State(), ok) == Release(old(State()), lease, put)
    {
      hide Inv, Held;
      ReleaseKeeps(State(), lease, put);
      InvSized(State());
      if !player || quarantined || lease == 0 { return false; }
      var slot := 0;
      while slot < LEASES && (!held[slot] || tickets[slot] != lease)
        invariant slot <= LEASES && SlotOf(State(), lease, slot) == SlotOf(State(), lease, 0)
      {
        slot := slot + 1;
      }
      if slot == LEASES { return false; }
      if !put {
        faulted := true;
        return false;
      }
      held := held[slot := false];
      ok := true;
    }
  }
}
