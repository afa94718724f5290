/** The publication mailbox between the playback worker and the UI: eight slots under one mutex.

    Each function is one section under the mutex (or the worker's private work on a
    slot it alone owns); the class at the end holds the same sections as methods. */
module PlayerMailbox {
  import opened Prelude
  import A = PlayerAllocator

  datatype Phase = Empty | Building | Deferred | Ready | Publishing | Published | Returning | Releasing

  /** A slot: its SDK lease, its pin (zero for none), and the memory its picture shows. */
  datatype Slot = Slot(phase: Phase, lease: nat, pin: nat, addr: A.Planes, capacity: A.Planes, rgb: bool)

  datatype Mailbox = Mailbox(closing: bool, quarantined: bool, preserve: bool, slots: seq<Slot>)

  const SLOTS: nat := 8

  function Created(): Mailbox
  {
    Mailbox(false, false, false, seq(SLOTS, _ => Slot(Empty, 0, 0, [0, 0, 0], [0, 0, 0], false)))
  }

  predicate Open(m: Mailbox)
  {
    !m.closing && !m.quarantined
  }

  function First(m: Mailbox, p: Slot -> bool): nat
  {
    Find(m.slots, p, 0)
  }

  predicate Any(m: Mailbox, p: Slot -> bool)
  {
    First(m, p) < |m.slots|
  }

  function WithPhase(m: Mailbox, i: nat, phase: Phase): Mailbox
    requires i < |m.slots|
  {
    m.(slots := m.slots[i := m.slots[i].(phase := phase)])
  }

  function MapPhase(slots: seq<Slot>, p: Slot -> bool, phase: Phase): (r: seq<Slot>)
    ensures |r| == |slots|
    ensures forall i :: 0 <= i < |r| ==> r[i] == if p(slots[i]) then slots[i].(phase := phase) else slots[i]
  {
    seq(|slots|, i requires 0 <= i < |slots| => if p(slots[i]) then slots[i].(phase := phase) else slots[i])
  }

  // ----- the UI's sections -----

  /** The image wants to keep the picture. */
  function Retain(m: Mailbox, i: nat): (Mailbox, bool)
    requires i < |m.slots|
  {
    if Open(m) && m.slots[i].phase == Publishing then (WithPhase(m, i, Published), true) else (m, false)
  }

  /** The last reader of a published picture is gone. */
  function HandBack(m: Mailbox, i: nat): Mailbox
    requires i < |m.slots|
  {
    WithPhase(m, i, Returning)
  }

  /** Begin a poll; the older interface leaves RGB pictures alone. */
  function Mark(m: Mailbox, yuvOnly: bool): (Mailbox, Option<nat>)
  {
    var i := First(m, (s: Slot) => s.phase == Ready && !(yuvOnly && s.rgb));
    if !Open(m) || i == |m.slots| then (m, None) else (WithPhase(m, i, Publishing), Some(i))
  }

  /** The image could not be made. */
  function Unmark(m: Mailbox, i: nat): Mailbox
    requires i < |m.slots|
  {
    WithPhase(m, i, if m.preserve && Open(m) then Ready else Returning)
  }

  function Preserve(m: Mailbox, enabled: bool): Mailbox
  {
    m.(preserve := enabled)
  }

  function Close(m: Mailbox): Mailbox
  {
    m.(closing := true, slots := MapPhase(m.slots, (s: Slot) => s.phase == Ready || s.phase == Deferred, Returning))
  }

  function Reopen(m: Mailbox): (Mailbox, bool)
  {
    if m.closing && !m.quarantined && First(m, (s: Slot) => s.phase != Empty) == |m.slots|
    then (m.(closing := false), true) else (m, false)
  }

  predicate Pending(s: Slot)
  {
    s.phase == Ready || s.phase == Publishing || s.phase == Deferred
  }

  // ----- the worker's sections -----

  datatype Admission = Already | Refused | MustWait | Into(slot: nat)

  /** Whether a leased frame may enter. `broken` stands for a faulted session or a frame flagged as erroneous. */
  function Admit(m: Mailbox, lease: nat, broken: bool): (Mailbox, Admission)
  {
    if Any(m, (s: Slot) => s.phase != Empty && s.lease == lease) then (m, Already)
    else if broken then (m, Refused)
    else if m.preserve && Any(m, Pending) then (m, MustWait)
    else
      var i := First(m, (s: Slot) => s.phase == Empty);
      if !Open(m) || i == |m.slots| then (m, Refused)
      else (m.(slots := m.slots[i := m.slots[i].(phase := Building, lease := lease)]), Into(i))
  }

  /** The frame could not be shown; a pin that cannot be released quarantines the mailbox. */
  function Abort(m: Mailbox, i: nat, lease: nat, pin: nat, released: bool): Mailbox
    requires i < |m.slots|
  {
    if released then WithPhase(m, i, Empty)
    else m.(quarantined := true, slots := m.slots[i := m.slots[i].(pin := pin, lease := lease)])
  }

  /** The slot's own contents, written before it is published. */
  function Fill(m: Mailbox, i: nat, lease: nat, pin: nat, addr: A.Planes, capacity: A.Planes, rgb: bool): Mailbox
    requires i < |m.slots|
  {
    m.(slots := m.slots[i := m.slots[i].(lease := lease, pin := pin, addr := addr, capacity := capacity, rgb := rgb)])
  }

  /** Publish a filled slot: behind an unconsumed picture under the preserve policy, else in its place. */
  function Publish(m: Mailbox, i: nat): Mailbox
    requires i < |m.slots|
  {
    if m.preserve && Open(m) && Any(m, (s: Slot) => s.phase == Ready || s.phase == Publishing) then WithPhase(m, i, Deferred)
    else
      var n := m.(slots := MapPhase(m.slots, (s: Slot) => s.phase == Ready || s.phase == Deferred, Returning));
      WithPhase(n, i, if Open(m) then Ready else Returning)
  }

  /** Let a deferred picture become the next one when nothing is queued. */
  function Promote(m: Mailbox): Mailbox
  {
    var i := First(m, (s: Slot) => s.phase == Deferred);
    if Any(m, (s: Slot) => s.phase == Ready || s.phase == Publishing) || i == |m.slots| then m
    else WithPhase(m, i, if m.closing then Returning else Ready)
  }

  function TakeBack(m: Mailbox, i: nat): (Mailbox, bool)
    requires i < |m.slots|
  {
    if m.slots[i].phase == Returning then (WithPhase(m, i, Releasing), true) else (m, false)
  }

  function Quarantine(m: Mailbox): Mailbox
  {
    m.(quarantined := true)
  }

  function Unpin(m: Mailbox, i: nat): Mailbox
    requires i < |m.slots|
  {
    m.(slots := m.slots[i := m.slots[i].(pin := 0)])
  }

  /** After the SDK put: done, or to be tried again. */
  function Settle(m: Mailbox, i: nat, returned: bool): Mailbox
    requires i < |m.slots|
  {
    WithPhase(m, i, if returned then Empty else Returning)
  }

  // ----- the mailbox object -----

  class Frames {
    const slots: array<Slot>
    var closing: bool
    var quarantined: bool
    var preserve: bool

    ghost predicate Valid()
      reads this
    {
      slots.Length == SLOTS
    }

    ghost function State(): Mailbox
      reads this, slots
    {
      Mailbox(closing, quarantined, preserve, slots[..])
    }

    constructor ()
      ensures Valid() && fresh(slots) && State() == Created()
    {
      slots := new Slot[SLOTS](_ => Slot(Empty, 0, 0, [0, 0, 0], [0, 0, 0], false));
      closing, quarantined, preserve := false, false, false;
      new;
      assert slots[..] == Created().slots;
    }

    /** The loops over the slots: the first with a property, and a change of state of all with one. */
    method FirstSlot(p: Slot -> bool) returns (i: nat)
      requires Valid()
      ensures i == First(State(), p) && i <= SLOTS
    {
      i := 0;
      while i < SLOTS && !p(slots[i])
        invariant i <= SLOTS && forall k :: 0 <= k < i ==> !p(slots[k])
      {
        i := i + 1;
      }
      FindIs(slots[..], p, i, 0);
    }

    method MoveAll(p: Slot -> bool, phase: Phase)
      requires Valid()
      modifies slots
      ensures slots[..] == MapPhase(old(slots[..]), p, phase)
    {
      var i := 0;
      while i < SLOTS
        invariant i <= SLOTS
        invariant forall k :: 0 <= k < i ==>
                    slots[k] == if old(p(slots[k])) then old(slots[k]).(phase := phase) else old(slots[k])
        invariant forall k :: i <= k < SLOTS ==> slots[k] == old(slots[k])
      {
        if p(slots[i]) { slots[i] := slots[i].(phase := phase); }
        i := i + 1;
      }
    }

    method RetainImage(i: nat) returns (accepted: bool)
      requires Valid() && i < SLOTS
      modifies slots
      ensures (State(), accepted) == Retain(old(State()), i)
    {
      accepted := !closing && !quarantined && slots[i].phase == Publishing;
      if accepted { slots[i] := slots[i].(phase := Published); }
    }

    method ReleaseImage(i: nat)
      requires Valid() && i < SLOTS
      modifies slots
      ensures State() == HandBack(old(State()), i)
    {
      slots[i] := slots[i].(phase := Returning);
    }

    method MarkReady(yuvOnly: bool) returns (r: Option<nat>)
      requires Valid()
      modifies slots
      ensures (State(), r) == Mark(old(State()), yuvOnly)
    {
      var i := FirstSlot((s: Slot) => s.phase == Ready && !(yuvOnly && s.rgb));
      if closing || quarantined || i == SLOTS { return None; }
      slots[i] := slots[i].(phase := Publishing);
      r := Some(i);
    }

    method UnmarkReady(i: nat)
      requires Valid() && i < SLOTS
      modifies slots
      ensures State() == Unmark(old(State()), i)
    {
      slots[i] := slots[i].(phase := if preserve && !closing && !quarantined then Ready else Returning);
    }

    method CloseMailbox()
      requires Valid()
      modifies this, slots
      ensures State() == Close(old(State()))
    {
      closing := true;
      MoveAll((s: Slot) => s.phase == Ready || s.phase == Deferred, Returning);
    }

    method ReopenMailbox() returns (ok: bool)
      requires Valid()
      modifies this
      ensures (State(), ok) == Reopen(old(State()))
    {
      var i := FirstSlot((s: Slot) => s.phase != Empty);
      ok := closing && !quarantined && i == SLOTS;
      if ok { closing := false; }
    }

    method AdmitLease(lease: nat, broken: bool) returns (r: Admission)
      requires Valid()
      modifies slots
      ensures (State(), r) == Admit(old(State()), lease, broken)
    {
      var same := FirstSlot((s: Slot) => s.phase != Empty && s.lease == lease);
      if same < SLOTS { return Already; }
      if broken { return Refused; }
      if preserve {
        var busy := FirstSlot(Pending);
        if busy < SLOTS { return MustWait; }
      }
      var i := FirstSlot((s: Slot) => s.phase == Empty);
      if closing || quarantined || i == SLOTS { return Refused; }
      slots[i] := slots[i].(phase := Building, lease := lease);
      r := Into(i);
    }

    method AbortSlot(i: nat, lease: nat, pin: nat, released: bool)
      requires Valid() && i < SLOTS
      modifies this, slots
      ensures State() == Abort(old(State()), i, lease, pin, released)
    {
      if released {
        slots[i] := slots[i].(phase := Empty);
      } else {
        quarantined := true;
        slots[i] := slots[i].(pin := pin, lease := lease);
      }
    }

    method PublishSlot(i: nat)
      requires Valid() && i < SLOTS
      modifies slots
      ensures State() == Publish(old(State()), i)
    {
      if preserve && !closing && !quarantined {
        var busy := FirstSlot((s: Slot) => s.phase == Ready || s.phase == Publishing);
        if busy < SLOTS {
          slots[i] := slots[i].(phase := Deferred);
          return;
        }
      }
      MoveAll((s: Slot) => s.phase == Ready || s.phase == Deferred, Returning);
      slots[i] := slots[i].(phase := if closing || quarantined then Returning else Ready);
    }

    method PromoteDeferred()
      requires Valid()
      modifies slots
      ensures State() == Promote(old(State()))
    {
      var busy := FirstSlot((s: Slot) => s.phase == Ready || s.phase == Publishing);
      if busy < SLOTS { return; }
      var i := FirstSlot((s: Slot) => s.phase == Deferred);
      if i < SLOTS { slots[i] := slots[i].(phase := if closing then Returning else Ready); }
    }

    method TakeReturning(i: nat) returns (giveBack: bool)
      requires Valid() && i < SLOTS
      modifies slots
      ensures (State(), giveBack) == TakeBack(old(State()), i)
    {
      giveBack := slots[i].phase == Returning;
      if giveBack { slots[i] := slots[i].(phase := Releasing); }
    }

    method SettleSlot(i: nat, returned: bool)
      requires Valid() && i < SLOTS
      modifies slots
      ensures State() == Settle(old(State()), i, returned)
    {
      slots[i] := slots[i].(phase := if returned then Empty else Returning);
    }
  }
}
