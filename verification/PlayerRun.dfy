/** Playback frame ownership as a whole: mailbox, session and allocator under the worker, the UI,
    the readers and the SDK, one section or one private operation per step. */
module PlayerRun {
  import opened Prelude
  import opened PlayerMailbox
  import A = PlayerAllocator
  import S = PlayerSession

  /** What happened to pins and leases. */
  datatype Note = PinTaken(lease: nat, pin: nat) | PinReleased(pin: nat) | PutTried(lease: nat, ok: bool)

  datatype Worker =
    | Resting
    // Submitting the pending lease; `saw` says that admission saw the preserve policy.
    | Pinning(slot: nat, saw: bool)
    | Filled(slot: nat, saw: bool)
    | Unpinning(slot: nat, pin: nat, saw: bool)
    | Aborting(slot: nat, pin: nat, released: bool, saw: bool)
    // Draining.
    | Checking
    | Promoting
    | Taking(next: nat)
    | Dropping(slot: nat)
    | Quarantining(slot: nat)
    | Putting(slot: nat)
    | Settling(slot: nat, returned: bool)

  datatype Ui = Idle | Marked(slot: nat) | Unmarking(slot: nat)

  datatype World = World(
    m: Mailbox, s: S.Session, a: A.Allocator, heap: A.Heap,
    worker: Worker, pending: nat, ui: Ui, log: seq<Note>)

  datatype Action =
    // the worker begins
    | LeaseFrame(got: Option<S.Decoded>)
    | SubmitPending
    | Drain
    | GiveBackPending(put: bool)
    | WorkerCloses
    | ReopenMailbox
    | CloseSession(stopped: bool, destroyed: bool)
    | OpenSession(hasVideo: bool)
    // the worker goes on; the answers of the conversion and of the SDK put
    | Work(shown: bool, rgb: bool, put: bool)
    // the UI
    | Poll(yuvOnly: bool)
    | UiStep(made: bool)
    | SetPreserve(enabled: bool)
    | UiCloses
    // a reader, and the SDK's decoder
    | ReaderDone(slot: nat)
    | SdkAllocates(width: int, stride: int, height: int, format: A.Format, answers: seq<Option<nat>>)
    | SdkFrees(frame: A.Frame)

  function NewWorld(budget: nat): World
  {
    var blank := S.Decoded(0, A.Frame(false, [0, 0, 0], [0, 0, 0], 0, 0, A.OtherFormat), false);
    var session := S.Session(seq(S.LEASES, _ => false), seq(S.LEASES, _ => 0), seq(S.LEASES, _ => blank), 0,
                             false, false, false, false, false, false);
    World(PlayerMailbox.Created(), session, A.Created(budget), map[], Resting, 0, Idle, [])
  }

  /** The worker is busy with one slot. */
  predicate OnSlot(w: Worker)
  {
    || w.Pinning? || w.Filled? || w.Unpinning? || w.Aborting? || w.Dropping? || w.Quarantining? || w.Putting? || w.Settling?
  }

  predicate Shaped(w: World)
  {
    && |w.m.slots| == SLOTS && S.Sized(w.s)
    && (OnSlot(w.worker) ==> w.worker.slot < SLOTS) && (!w.ui.Idle? ==> w.ui.slot < SLOTS)
  }

  // ----- the worker -----

  function Submitted(w: World): World
    requires Shaped(w)
  {
    var k := S.SlotOf(w.s, w.pending, 0);
    if w.pending == 0 || k == S.LEASES then w
    else
      var (m, r) := Admit(w.m, w.pending, w.s.faulted || w.s.frames[k].broken);
      match r
      case Already => w.(pending := 0)
      case Into(i) => w.(m := m, worker := Pinning(i, w.m.preserve))
      case _ => w
  }

  function PinFrame(w: World, shown: bool, rgb: bool): World
    requires Shaped(w) && w.worker.Pinning?
  {
    var i, saw, k := w.worker.slot, w.worker.saw, S.SlotOf(w.s, w.pending, 0);
    if k == S.LEASES then w.(worker := Unpinning(i, 0, saw))
    else
      var f := w.s.frames[k].frame;
      var (a, pin) := A.Acquire(w.a, f);
      if pin.None? then w.(a := a, worker := Unpinning(i, 0, saw))
      else if !shown then
        w.(a := a, worker := Unpinning(i, pin.value.0, saw), log := w.log + [PinTaken(w.pending, pin.value.0)])
      else
        w.(a := a, m := Fill(w.m, i, w.pending, pin.value.0, f.addr, pin.value.1, rgb), worker := Filled(i, saw),
           log := w.log + [PinTaken(w.pending, pin.value.0)])
  }

  function UnpinFrame(w: World): World
    requires Shaped(w) && w.worker.Unpinning?
  {
    var i, pin, saw := w.worker.slot, w.worker.pin, w.worker.saw;
    if pin == 0 then w.(worker := Aborting(i, 0, true, saw))
    else
      var (a, h, ok) := A.Release(w.a, w.heap, pin);
      w.(a := a, heap := h, worker := Aborting(i, pin, ok, saw), log := if ok then w.log + [PinReleased(pin)] else w.log)
  }

  function AbortFrame(w: World): World
    requires Shaped(w) && w.worker.Aborting?
  {
    var u := w.(m := Abort(w.m, w.worker.slot, w.pending, w.worker.pin, w.worker.released), worker := Resting);
    if w.worker.released then u else u.(pending := 0)
  }

  function PublishFrame(w: World): World
    requires Shaped(w) && w.worker.Filled?
  {
    w.(m := Publish(w.m, w.worker.slot), worker := Resting, pending := 0)
  }

  function TakeSlot(w: World): World
    requires Shaped(w) && w.worker.Taking?
  {
    var i := w.worker.next;
    if i >= SLOTS then w.(worker := Resting)
    else
      var (m, give) := TakeBack(w.m, i);
      w.(m := m, worker := if give then Dropping(i) else Taking(i + 1))
  }

  function DropPin(w: World): World
    requires Shaped(w) && w.worker.Dropping?
  {
    var i := w.worker.slot;
    var pin := w.m.slots[i].pin;
    if pin == 0 then w.(worker := Putting(i))
    else
      var (a, h, ok) := A.Release(w.a, w.heap, pin);
      if !ok then w.(a := a, heap := h, worker := Quarantining(i))
      else w.(a := a, heap := h, m := Unpin(w.m, i), worker := Putting(i), log := w.log + [PinReleased(pin)])
  }

  function PutFrame(w: World, put: bool): World
    requires Shaped(w) && w.worker.Putting?
  {
    var i := w.worker.slot;
    var lease := w.m.slots[i].lease;
    var (s, ok) := S.Release(w.s, lease, put);
    w.(s := s, worker := Settling(i, ok), log := w.log + [PutTried(lease, ok)])
  }

  function SettleFrame(w: World): World
    requires Shaped(w) && w.worker.Settling?
  {
    w.(m := Settle(w.m, w.worker.slot, w.worker.returned), worker := Taking(w.worker.slot + 1))
  }

  function Toil(w: World, shown: bool, rgb: bool, put: bool): World
    requires Shaped(w)
  {
    match w.worker
    case Resting => w
    case Pinning(_, _) => PinFrame(w, shown, rgb)
    case Filled(_, _) => PublishFrame(w)
    case Unpinning(_, _, _) => UnpinFrame(w)
    case Aborting(_, _, _, _) => AbortFrame(w)
    case Checking => w.(worker := if w.m.quarantined then Resting else Promoting)
    case Promoting => w.(m := Promote(w.m), worker := Taking(0))
    case Taking(_) => TakeSlot(w)
    case Dropping(_) => DropPin(w)
    case Quarantining(_) => w.(m := Quarantine(w.m), worker := Resting)
    case Putting(_) => PutFrame(w, put)
    case Settling(_, _) => SettleFrame(w)
  }

  /** Return the pending lease without showing it. */
  function ReturnPending(w: World, put: bool): World
    requires Shaped(w)
  {
    if w.pending == 0 then w
    else
      var (s, ok) := S.Release(w.s, w.pending, put);
      w.(s := s, pending := if ok then 0 else w.pending, log := w.log + [PutTried(w.pending, ok)])
  }

  function LeaseNext(w: World, got: Option<S.Decoded>): World
    requires Shaped(w)
  {
    if w.pending != 0 then w
    else
      var (s, lease) := S.Acquire(w.s, got);
      w.(s := s, pending := if lease.Some? then lease.value else 0)
  }

  // ----- the UI -----

  function UiGoesOn(w: World, made: bool): World
    requires Shaped(w)
  {
    match w.ui
    case Idle => w
    case Marked(i) =>
      if !made then w.(ui := Unmarking(i))
      else
        var (m, ok) := Retain(w.m, i);
        w.(m := m, ui := if ok then Idle else Unmarking(i))
    case Unmarking(i) => w.(m := Unmark(w.m, i), ui := Idle)
  }

  // ----- every step -----

  /** What malloc must keep for an allocation the SDK asks for. */
  predicate AnswersFair(w: World, a: Action)
  {
    a.SdkAllocates? ==>
      && |a.answers| == 3
      && (A.Layout(a.width, a.stride, a.height, a.format).Some? ==>
            A.AnswersApart(w.heap, A.Layout(a.width, a.stride, a.height, a.format).value.1, a.answers, 0))
  }

  function Next(w: World, a: Action): World
    requires Shaped(w)
  {
    match a
    case Work(shown, rgb, put) => Toil(w, shown, rgb, put)
    case UiStep(made) => UiGoesOn(w, made)
    case Poll(yuvOnly) =>
      if !w.ui.Idle? then w
      else
        var (m, i) := Mark(w.m, yuvOnly);
        w.(m := m, ui := if i.Some? then Marked(i.value) else Idle)
    case SetPreserve(enabled) => if w.ui.Idle? then w.(m := Preserve(w.m, enabled)) else w
    case UiCloses => if w.ui.Idle? then w.(m := Close(w.m)) else w
    case ReaderDone(i) => if i < SLOTS && w.m.slots[i].phase == Published then w.(m := HandBack(w.m, i)) else w
    case SdkAllocates(width, stride, height, format, answers) =>
      if !AnswersFair(w, a) then w
      else
        var (al, h, _) := A.Allocate(w.a, w.heap, width, stride, height, format, answers);
        w.(a := al, heap := h)
    case SdkFrees(f) =>
      var (al, h, _) := A.FreeFrame(w.a, w.heap, f);
      w.(a := al, heap := h)
    case _ => if w.worker.Resting? then Begin(w, a) else w
  }

  function Begin(w: World, a: Action): World
    requires Shaped(w)
  {
    match a
    case LeaseFrame(got) => LeaseNext(w, got)
    case SubmitPending => Submitted(w)
    case Drain => w.(worker := Checking)
    case GiveBackPending(put) => ReturnPending(w, put)
    case WorkerCloses => w.(m := Close(w.m))
    case ReopenMailbox => w.(m := Reopen(w.m).0)
    case CloseSession(stopped, destroyed) => w.(s := S.Close(w.s, stopped, destroyed).0)
    case OpenSession(hasVideo) =>
      if w.s.player || !S.NoneHeld(w.s) || w.s.quarantined then w
      else w.(s := w.s.(player := true, started := true, paused := false, hasVideo := hasVideo, faulted := false))
    case _ => w
  }
}
