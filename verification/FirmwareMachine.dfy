// One firmware download as a state machine. The CCFSM poller re-cuts packets
// into chunks and queues them in a ring of slots; a worker thread hands them to
// the user's data callback. Each constructor of Step is one atomic piece of one
// of the two threads, and a run may interleave them in any order.
module FirmwareMachine {
  import opened Bytes
  import opened FirmwareChunks

  // One entry of the chunk pool. `data` is empty while no buffer is allocated.
  datatype Slot = Slot(inUse: bool, offset: nat, data: seq<Byte>, size: nat, last: bool)

  datatype Packet = Packet(offset: nat, bytes: seq<Byte>)

  // One call of the user's data callback and its verdict.
  datatype Callback = Callback(chunk: Chunk, invalid: bool)

  datatype AbortStatus =
    | Reason(reason: int)
      // A status outside the five cancel reasons; whether the source's assertion
      // on its numeric value holds depends on an enumeration it does not show.
    | Unexpected(assertionHolds: bool)

  // Where the poller is inside a call.
  datatype Poller =
    | Idle
      // past the rejections of a data call, before the look at the head slot
    | Checked(packet: Packet)
    | Filled(packet: Packet, copied: nat)
    | Released(packet: Packet, copied: nat)
    | ScanningComplete(scanned: nat)
    | ScanningAbort(scanned: nat, status: AbortStatus)

  // Where the worker is inside its loop. `slot` is the one it took from the tail;
  // it is `Called` from the moment the user's callback is given that slot's chunk.
  datatype Worker = Waiting | Acquired | Called(slot: nat, invalid: bool) | Judged(slot: nat) | Cleared

  datatype Status = Continue | Busy | Error
  datatype Code = Unset | Success | InvalidData | InvalidOffset | NotComplete
  datatype Answer = Answer(status: Status, code: Code)

  // `Stopped` is a download ended by the start of another, which is refused.
  datatype Outcome = Downloading | Completed(answer: Answer) | Aborted | Stopped

  datatype State = State(
    // fixed for the download
    image: seq<Byte>,
    chunkSize: nat,
    plan: seq<Chunk>,        // the canonical cutting of the image
    target: nat,
    hasCancel: bool,
    // the fields of `processing`
    started: bool,
    slots: seq<Slot>,
    head: nat,
    tail: nat,
    headOffset: nat,
    tailOffset: nat,
    processed: nat,
    dataError: bool,
    // the worker's semaphore and both program counters
    semaphore: nat,
    poller: Poller,
    worker: Worker,
    // history
    pending: seq<Packet>,    // the packet last answered busy, if any
    log: seq<Callback>,
    cancels: seq<AbortStatus>,
    answer: Answer,
    outcome: Outcome)

  datatype Step =
    | Data(target: nat, packet: Packet)
    | Copy
    | Release
    | Advance
    | Complete(target: nat)
    | Abort(target: nat, status: AbortStatus)
    | Scan
    | Acquire
    | Call(verdict: bool)
    | Judge
    | Clear
    | AdvanceTail

  function Wrap(i: nat, n: nat): nat {
    if i == n then 0 else i
  }

  // How many slots after `from` slot `i` comes, going round the ring.
  function Distance(from: nat, i: nat, n: nat): int {
    if from <= i then i - from else i - from + n
  }

  function Blit(buffer: seq<Byte>, at: nat, bytes: seq<Byte>): (r: seq<Byte>)
    requires at + |bytes| <= |buffer|
    ensures |r| == |buffer|
    ensures forall i :: 0 <= i < |buffer| ==> r[i] == if at <= i < at + |bytes| then bytes[i - at] else buffer[i]
  {
    buffer[..at] + bytes + buffer[at + |bytes|..]
  }

  // ---------------------------------------------------------------- steps

  // The loops over the pool count in eight bits.
  const MAX_SLOTS := 255

  predicate Shape(s: State) {
    && 0 < s.chunkSize
    && |s.slots| <= MAX_SLOTS
    && s.head < |s.slots|
    && s.tail < |s.slots|
    && (s.worker.Called? || s.worker.Judged? ==> s.worker.slot < |s.slots|)
    && (s.started ==> forall i :: 0 <= i < |s.slots| ==> |s.slots[i].data| == s.chunkSize)
  }

  // The bytes the next copy takes from a packet: what is left of it, up to the
  // room left in the chunk.
  function CopySize(s: State, packet: Packet): nat
    requires 0 < s.chunkSize && s.processed <= |packet.bytes|
  {
    Min(|packet.bytes| - s.processed, s.chunkSize - s.tailOffset % s.chunkSize)
  }

  // A data call returns. CCFSM offers a packet again exactly if that was answered
  // busy.
  function Return(s: State, packet: Packet, answer: Answer): State {
    s.(poller := Idle, answer := answer, pending := if answer.status == Busy then [packet] else [])
  }

  // The tail of a data call: account for the copied bytes and answer.
  function Settle(s: State, packet: Packet, copied: nat): State {
    var processed := s.processed + copied;
    var t := s.(tailOffset := s.tailOffset + copied, processed := if processed == |packet.bytes| then 0 else processed);
    Return(t, packet, Answer(if processed == |packet.bytes| then Continue else Busy, Success))
  }

  // Whether a data call gets past the source's rejections.
  predicate Accepted(s: State, target: nat, packet: Packet) {
    && target == s.target && s.started
    && !s.dataError
    && packet.offset == s.tailOffset - s.processed
  }

  // The rejections of a data call.
  function DataCall(s: State, target: nat, packet: Packet): State
    requires s.poller.Idle?
  {
    if target != s.target || !s.started then
      Return(s, packet, Answer(Error, Unset))
    else if s.dataError then
      Return(s, packet, Answer(Continue, InvalidData))
    else if packet.offset != s.tailOffset - s.processed then
      Return(s, packet, Answer(Continue, InvalidOffset))
    else
      s.(poller := Checked(packet), pending := [])
  }

  // The rest of the call, up to the release of the semaphore.
  function CopyStep(s: State): State
    requires Shape(s) && s.poller.Checked? && s.started && s.processed <= |s.poller.packet.bytes|
  {
    var packet := s.poller.packet;
    if s.slots[s.head].inUse then
      Return(s, packet, Answer(Busy, Success))
    else
      var copied := CopySize(s, packet);
      var next := s.tailOffset + copied;
      if s.tailOffset < s.headOffset then
        Return(s.(tailOffset := next), packet, Answer(Continue, Success))
      else
        CopyIntoHead(s, packet, copied, next)
  }

  function CopyIntoHead(s: State, packet: Packet, copied: nat, next: nat): State
    requires Shape(s) && s.started
    requires s.processed + copied <= |packet.bytes|
    requires s.tailOffset % s.chunkSize + copied <= s.chunkSize
    requires s.headOffset <= next
  {
    var filled := CopyBytes(s, packet.bytes[s.processed..s.processed + copied]);
    var last := next == |s.image|;
    if last || next % s.chunkSize == 0 then QueueHead(filled, packet, copied, next, last)
    else Settle(filled, packet, copied)
  }

  function CopyBytes(s: State, bytes: seq<Byte>): State
    requires Shape(s) && s.started
    requires s.tailOffset % s.chunkSize + |bytes| <= s.chunkSize
  {
    var slot := s.slots[s.head];
    s.(slots := s.slots[s.head := slot.(data := Blit(slot.data, s.tailOffset % s.chunkSize, bytes))])
  }

  // Hands the head slot over to the worker.
  function QueueHead(s: State, packet: Packet, copied: nat, next: nat, last: bool): State
    requires s.head < |s.slots| && s.headOffset <= next
  {
    var full := Slot(true, s.headOffset, s.slots[s.head].data, next - s.headOffset, last);
    s.(slots := s.slots[s.head := full], headOffset := next, poller := Filled(packet, copied), pending := [])
  }

  function ReleaseStep(s: State): State
    requires s.poller.Filled?
  {
    s.(semaphore := s.semaphore + 1, poller := Released(s.poller.packet, s.poller.copied))
  }

  function AdvanceStep(s: State): State
    requires s.poller.Released?
  {
    Settle(s.(head := Wrap(s.head + 1, |s.slots|)), s.poller.packet, s.poller.copied)
  }

  function CompleteCall(s: State, target: nat): State {
    if target != s.target || !s.started then s.(answer := Answer(Error, Unset))
    else s.(poller := ScanningComplete(0))
  }

  function AbortCall(s: State, target: nat, status: AbortStatus): State {
    if target != s.target || !s.started then s.(answer := Answer(Error, Unset))
    else s.(poller := ScanningAbort(0, status))
  }

  // Frees the chunk buffers and ends the download.
  function FreeAndStop(s: State): State {
    s.(slots := seq(|s.slots|, i requires 0 <= i < |s.slots| => s.slots[i].(data := [])), started := false)
  }

  // A start that comes while a download is in progress: it is refused, but first
  // the buffers are freed, whatever is in use.
  function RejectStep(s: State): State {
    FreeAndStop(s).(outcome := Stopped)
  }

  // One iteration of the loop over the pool, or what follows the loop.
  function ScanStep(s: State): State
    requires s.poller.ScanningComplete? || s.poller.ScanningAbort?
    requires s.poller.scanned <= |s.slots|
  {
    var i := s.poller.scanned;
    if i < |s.slots| then
      if s.slots[i].inUse then
        s.(poller := Idle, answer := Answer(Busy, if s.poller.ScanningComplete? then Success else Unset))
      else
        s.(poller := s.poller.(scanned := i + 1))
    else if s.poller.ScanningComplete? then FinishComplete(s)
    else FinishAbort(s, s.poller.status)
  }

  function FinishComplete(s: State): State {
    var answer := Answer(if s.dataError then Error else Continue,
                         if s.headOffset != |s.image| then NotComplete else Success);
    FreeAndStop(s).(poller := Idle, answer := answer, outcome := Completed(answer))
  }

  function FinishAbort(s: State, status: AbortStatus): State {
    if s.hasCancel && status.Unexpected? && !status.assertionHolds then
      s.(poller := Idle, answer := Answer(Error, Unset))
    else
      var cancels := if s.hasCancel then s.cancels + [status] else s.cancels;
      var result := if s.hasCancel && status.Unexpected? then Error else Continue;
      FreeAndStop(s).(poller := Idle, answer := Answer(result, Unset), cancels := cancels, outcome := Aborted)
  }

  function AcquireStep(s: State): State
    requires 0 < s.semaphore
  {
    s.(semaphore := s.semaphore - 1, worker := Acquired)
  }

  // The chunk the worker hands to the user's callback.
  function ChunkIn(slot: Slot): Chunk
    requires slot.size <= |slot.data|
  {
    Chunk(slot.offset, slot.data[..slot.size], slot.last)
  }

  function CallStep(s: State, verdict: bool): State
    requires Shape(s) && s.slots[s.tail].size <= |s.slots[s.tail].data|
  {
    s.(log := s.log + [Callback(ChunkIn(s.slots[s.tail]), verdict)], worker := Called(s.tail, verdict))
  }

  function JudgeStep(s: State): State
    requires s.worker.Called?
  {
    s.(dataError := s.dataError || s.worker.invalid, worker := Judged(s.worker.slot))
  }

  function ClearStep(s: State): State
    requires Shape(s) && s.worker.Judged?
  {
    var i := s.worker.slot;
    s.(slots := s.slots[i := s.slots[i].(inUse := false)], worker := Cleared)
  }

  function AdvanceTailStep(s: State): State {
    s.(tail := Wrap(s.tail + 1, |s.slots|), worker := Waiting)
  }

  // ---------------------------------------------------------------- runs

  ghost predicate FromImage(s: State, packet: Packet) {
    && packet.bytes != []
    && packet.offset + |packet.bytes| <= |s.image|
    && packet.bytes == s.image[packet.offset..packet.offset + |packet.bytes|]
  }

  // Which steps the two threads and CCFSM may take. CCFSM makes one call at a
  // time, its packets carry the image's bytes, and a packet answered busy is
  // offered again unchanged before any other packet.
  ghost predicate Enabled(s: State, step: Step) {
    match step
    case Data(target, packet) =>
      && s.poller.Idle?
      && FromImage(s, packet)
      && (s.pending != [] ==> packet == s.pending[0] && target == s.target)
    case Complete(_) => s.poller.Idle?
    case Abort(_, _) => s.poller.Idle?
    case Copy => s.poller.Checked?
    case Release => s.poller.Filled?
    case Advance => s.poller.Released?
    case Scan => s.poller.ScanningComplete? || s.poller.ScanningAbort?
    case Acquire => s.worker.Waiting? && 0 < s.semaphore
    case Call(_) => s.worker.Acquired?
    case Judge => s.worker.Called?
    case Clear => s.worker.Judged?
    case AdvanceTail => s.worker.Cleared?
  }

  // What a step's definition needs; every reachable state provides it.
  ghost predicate Defined(s: State, step: Step) {
    && Shape(s)
    && Enabled(s, step)
    && (step.Copy? ==> s.started && s.processed <= |s.poller.packet.bytes|)
    && (step.Scan? ==> s.poller.scanned <= |s.slots|)
    && (step.Call? ==> s.slots[s.tail].size <= |s.slots[s.tail].data|)
  }

  ghost function Apply(s: State, step: Step): State
    requires Defined(s, step)
  {
    match step
    case Data(target, packet) => DataCall(s, target, packet)
    case Copy => CopyStep(s)
    case Release => ReleaseStep(s)
    case Advance => AdvanceStep(s)
    case Complete(target) => CompleteCall(s, target)
    case Abort(target, status) => AbortCall(s, target, status)
    case Scan => ScanStep(s)
    case Acquire => AcquireStep(s)
    case Call(verdict) => CallStep(s, verdict)
    case Judge => JudgeStep(s)
    case Clear => ClearStep(s)
    case AdvanceTail => AdvanceTailStep(s)
  }

  datatype Download = Download(image: seq<Byte>, chunkSize: nat, target: nat, hasCancel: bool)

  // An accepted start of a download. `contents` is what the allocated buffers
  // happen to hold; the semaphore and the worker are left as they are.
  ghost function StartStep(s: State, d: Download, contents: seq<seq<Byte>>): State
    requires 0 < d.chunkSize && |contents| == |s.slots|
  {
    s.(image := d.image, chunkSize := d.chunkSize, plan := Canonical(d.image, d.chunkSize),
    target := d.target, hasCancel := d.hasCancel, started := true,
    slots := seq(|contents|, i requires 0 <= i < |contents| => Slot(false, 0, contents[i], 0, false)),
      head := 0, tail := 0, headOffset := 0, tailOffset := 0, processed := 0, dataError := false,
      pending := [], log := [], cancels := [], outcome := Downloading)
  }

  // The state in which a start should leave the service. A worker that has
  // cleared the last slot and not yet advanced the tail does no harm only where
  // there is but one slot to advance to.
  ghost predicate Started(s: State) {
    && 0 < s.chunkSize && 0 < |s.slots| <= MAX_SLOTS
    && s.plan == Canonical(s.image, s.chunkSize)
    && s.started
    && s.head == s.tail == s.headOffset == s.tailOffset == s.processed == s.semaphore == 0
    && !s.dataError
    && s.poller.Idle? && (s.worker.Waiting? || (s.worker.Cleared? && |s.slots| == 1))
    && s.pending == [] && s.log == [] && s.cancels == []
    && s.outcome.Downloading?
    && forall i :: 0 <= i < |s.slots| ==> !s.slots[i].inUse && |s.slots[i].data| == s.chunkSize
  }

  // ---------------------------------------------------------------- invariant

  function Holding(s: State): nat {
    if s.worker.Acquired? || s.worker.Called? || s.worker.Judged? then 1 else 0
  }

  function Posting(s: State): nat {
    if s.poller.Filled? then 1 else 0
  }

  // Chunks queued and not yet given back: those the semaphore counts, the one
  // the poller is about to count, and the one the worker holds.
  function Live(s: State): nat {
    s.semaphore + Posting(s) + Holding(s)
  }

  // Callbacks whose slot has been given back, or is about to be.
  function Retired(s: State): int {
    |s.log| - (if s.worker.Called? || s.worker.Judged? then 1 else 0)
  }

  function Pushed(s: State): int {
    Retired(s) + Live(s)
  }

  function Front(s: State): nat {
    if s.worker.Cleared? then Wrap(s.tail + 1, |s.slots|) else s.tail
  }

  function Back(s: State): nat {
    if s.poller.Filled? || s.poller.Released? then Wrap(s.head + 1, |s.slots|) else s.head
  }

  // All the steps need to know about the plan.
  ghost predicate Planned(s: State)
    requires 0 < s.chunkSize
  {
    && OffsetAt(s.image, s.plan, 0) == 0
    && forall k :: 0 <= k < |s.plan| ==> WellCut(s.image, s.chunkSize, s.plan, k)
  }

  // The in-use slots are exactly the cyclic interval of Live(s) slots that
  // starts at Front(s) and ends before Back(s).
  ghost predicate Ring(s: State) {
    var n := |s.slots|;
    && Live(s) <= n
    && Back(s) == (if Front(s) + Live(s) < n then Front(s) + Live(s) else Front(s) + Live(s) - n)
    && forall i :: 0 <= i < n ==> (s.slots[i].inUse <==> Distance(Front(s), i, n) < Live(s))
  }

  ghost predicate Holds(slot: Slot, chunk: Chunk) {
    slot.size <= |slot.data| && ChunkIn(slot) == chunk
  }

  ghost predicate Contents(s: State) {
    && 0 <= Retired(s)
    && Pushed(s) <= |s.plan|
    && forall i :: 0 <= i < |s.slots| && s.slots[i].inUse ==>
                     && 0 <= Retired(s) + Distance(Front(s), i, |s.slots|) < |s.plan|
                     && Holds(s.slots[i], s.plan[Retired(s) + Distance(Front(s), i, |s.slots|)])
  }

  predicate AnyInvalid(log: seq<Callback>) {
    exists k :: 0 <= k < |log| && log[k].invalid
  }

  ghost predicate Delivered(s: State) {
    && |s.log| <= |s.plan|
    && (forall k :: 0 <= k < |s.log| ==> s.log[k].chunk == s.plan[k])
    && (s.worker.Called? ==> s.log != [] && s.log[|s.log| - 1].invalid == s.worker.invalid)
    && (s.worker.Judged? ==> s.log != [])
    && (s.worker.Called? || s.worker.Judged? ==> s.worker.slot == s.tail)
    && (s.dataError <==> AnyInvalid(if s.worker.Called? then s.log[..|s.log| - 1] else s.log))
  }

  // The offsets the poller keeps, and the bytes of the chunk being filled.
  ghost predicate Filling(s: State)
    requires Shape(s)
  {
    var n := Pushed(s);
    && 0 <= n
    && s.headOffset == OffsetAt(s.image, s.plan, n)
    && match s.poller
       case Filled(packet, copied) => CopyDone(s, packet, copied)
       case Released(packet, copied) => CopyDone(s, packet, copied)
       case _ =>
         && s.headOffset <= s.tailOffset
         && (if n < |s.plan| then s.tailOffset < OffsetAt(s.image, s.plan, n + 1) else s.tailOffset == |s.image|)
         && (s.headOffset < s.tailOffset && s.started ==>
               && Live(s) < |s.slots|
               && s.tailOffset - s.headOffset <= s.chunkSize
               && s.tailOffset <= |s.image|
               && s.slots[s.head].data[..s.tailOffset - s.headOffset] == s.image[s.headOffset..s.tailOffset])
  }

  ghost predicate CopyDone(s: State, packet: Packet, copied: nat) {
    && s.started
    && s.pending == []
    && 0 < copied
    && s.tailOffset + copied == s.headOffset
    && FromImage(s, packet)
    && s.processed + copied <= |packet.bytes|
    && packet.offset + s.processed == s.tailOffset
  }

  ghost predicate CheckDone(s: State, packet: Packet) {
    && s.started
    && s.pending == []
    && FromImage(s, packet)
    && s.processed < |packet.bytes|
    && packet.offset + s.processed == s.tailOffset
  }

  // The poller is not in the middle of a data call.
  predicate OutsideData(s: State) {
    !s.poller.Checked? && !s.poller.Filled? && !s.poller.Released?
  }

  ghost predicate Offered(s: State) {
    && |s.pending| <= 1
    && (s.pending != [] ==>
          && FromImage(s, s.pending[0])
          && s.processed < |s.pending[0].bytes|
          && s.pending[0].offset + s.processed == s.tailOffset)
    && (s.poller.Checked? ==> CheckDone(s, s.poller.packet))
    && (s.pending == [] && 0 < s.processed && s.started && OutsideData(s) ==> s.dataError)
  }

  ghost predicate Scanned(s: State) {
    (s.poller.ScanningComplete? || s.poller.ScanningAbort?) ==>
      && s.started
      && s.poller.scanned <= |s.slots|
      && forall i :: 0 <= i < s.poller.scanned ==> !s.slots[i].inUse
  }

  ghost predicate Ended(s: State) {
    && (s.started <==> s.outcome.Downloading?)
    && (!s.started ==> s.poller.Idle? && Live(s) == 0)
    && (s.outcome.Aborted? || s.cancels == [])
    && (s.outcome.Completed? ==>
          s.outcome.answer == Answer(if AnyInvalid(s.log) then Error else Continue,
                                     if |s.log| == |s.plan| then Success else NotComplete))
  }

  ghost predicate Inv(s: State) {
    && Shape(s)
    && Planned(s)
    && Ring(s)
    && Contents(s)
    && Delivered(s)
    && Filling(s)
    && Offered(s)
    && Scanned(s)
    && Ended(s)
  }
}
