// EncryptionThreadPool.c as a transition system: any number of calling threads submit work to a
// ring of 128 slots, up to 64 workers execute it.  One step is one access to shared memory, one
// mutex operation or one event operation; the memory model is sequentially consistent.
//
// Fields and parameters marked "history" have no counterpart in the program.  No step that
// the program takes depends on them; they record what has happened so that invariants can say it.
module ThreadPool {
  import opened Words
  import opened FragmentPlan

  const MAX_THREAD_COUNT: nat := 64
  const QUEUE_SIZE: nat := 128

  type Key = seq<bv8>

  /** One call: DoWork on a caller's own buffer, or BeginKeyDerivation.  `crypt` is what
      Encrypt/DecryptDataUnitsCurrentThread does to one unit, given its number. */
  datatype Job =
    | Crypt(crypt: (bv64, Unit) -> Unit, start: bv64, data: seq<Unit>)
    | Derive(key: Key)

  datatype SlotState = Free | Ready | Busy

  datatype Work =
    | NoWork
    | DataUnits(job: nat, offset: nat, startUnitNo: bv64, unitCount: nat)
    | DeriveKey(job: nat)

  /** EncryptionThreadPoolWorkItem; `completed` is the auto-reset ItemCompletedEvent. */
  datatype Slot = Slot(state: SlotState, work: Work, first: nat, outstanding: int, completed: bool)

  /** What a call can change outside the pool: its buffer, or its derived key and completion flag. */
  datatype Memory = Memory(buffer: seq<Unit>, key: Key, keyReady: bool)

  datatype WorkerAt =
    | Idle | Take | Poll | Wait | Claim | Unlock
    | Start | Run | SetFlag | Branch | FreeSlot | SignalFree
    | LoadFirst | Decrement | ReloadFirst | SetCompleted

  /** A worker thread; `ticket` is history: how many positions were handed out before its own. */
  datatype Worker = Worker(at: WorkerAt, slot: nat, work: Work, saved: seq<Unit>, first: nat, ticket: nat)

  datatype CallerAt =
    | Out | Lock | PickFirst | PollFirst | WaitFirst | SetCount
    | Loop | PollSlot | WaitSlot | Fill | Publish | Signal | Release
    | WaitDone | FreeFirst | SignalDone

  /** A calling thread with the local variables of EncryptionThreadPoolDoWork. */
  datatype Caller = Caller(
    at: CallerAt, job: nat, first: nat, slot: nat,
    left: nat, offset: nat, unitNo: bv64, per: nat, remainder: nat)

  /** History: who is responsible for a queue position that has been handed out. */
  datatype Owner = Unclaimed | Held(worker: nat) | Done

  /** History of a job's completion, kept at its first ticket. */
  datatype Phase = Running | Zeroed(worker: nat) | Signalled | Consumed

  /** History of one published queue position: fragment `index` of `job`, how often it was
      executed, whether its slot was freed again and its completion counted. */
  datatype Ticket = Ticket(
    job: nat, index: nat, owner: Owner, runs: nat, freed: bool, counted: bool, phase: Phase)

  /** History of a call: its caller, its first ticket once it has one, and whether it returned. */
  datatype Call = Call(job: Job, caller: nat, begun: bool, first: nat, returned: bool)

  datatype State = State(
    slots: seq<Slot>,
    enqueuePosition: nat, dequeuePosition: nat,
    enqueueOwner: int, dequeueOwner: int,        // -1 when the mutex is free
    readyEvent: bool, freeEvent: bool,           // WorkItemReadyEvent, WorkItemCompletedEvent
    workers: seq<Worker>, callers: seq<Caller>,
    mem: seq<Memory>,
    calls: seq<Call>, log: seq<Ticket>, claimed: nat)  // history

  // ----- What the program does -----

  function UnitWise(crypt: (bv64, Unit) -> Unit, start: bv64, data: seq<Unit>): seq<Unit> {
    seq(|data|, i requires 0 <= i < |data| => crypt(Advance(start, i), data[i]))
  }

  function Splice(buffer: seq<Unit>, offset: nat, piece: seq<Unit>): seq<Unit>
    requires offset + |piece| <= |buffer|
  {
    buffer[..offset] + piece + buffer[offset + |piece|..]
  }

  function Bump(position: nat): nat {
    if position + 1 >= QUEUE_SIZE then 0 else position + 1
  }

  predicate Pooled(job: Job) { job.Derive? || |job.data| >= 2 }

  function Frags(job: Job, threads: nat): nat {
    if job.Crypt? then Count(|job.data|, threads) else 1
  }

  /** What callers owe the pool: sizes are 32-bit and one fragment is below 2^32 bytes. */
  predicate CanCall(job: Job, threads: nat)
    requires threads > 0
  {
    job.Crypt? ==> |job.data| < 0x1_0000_0000 && Len(|job.data|, threads, 0) < POINTER_STEP_UNITS
  }

  predicate Shape(s: State) {
    && |s.slots| == QUEUE_SIZE
    && 1 <= |s.workers| <= MAX_THREAD_COUNT
    && s.enqueuePosition < QUEUE_SIZE && s.dequeuePosition < QUEUE_SIZE
    && |s.mem| == |s.calls|
  }

  /** Every index a thread is about to use is in range. */
  predicate InBounds(s: State) {
    && Shape(s)
    && (forall w :: 0 <= w < |s.workers| ==> WorkerInBounds(s.mem, s.calls, s.workers[w]))
    && (forall c :: 0 <= c < |s.callers| ==> CallerInBounds(s.calls, s.callers[c]))
    && (forall i :: 0 <= i < QUEUE_SIZE ==> s.slots[i].first < QUEUE_SIZE && WorkInBounds(s.mem, s.calls, s.slots[i].work))
  }

  predicate WorkInBounds(mem: seq<Memory>, calls: seq<Call>, work: Work)
    requires |mem| == |calls|
  {
    match work
    case NoWork => true
    case DataUnits(job, offset, _, count) =>
      job < |calls| && calls[job].job.Crypt? && offset + count <= |mem[job].buffer|
    case DeriveKey(job) => job < |calls| && calls[job].job.Derive?
  }

  predicate WorkerInBounds(mem: seq<Memory>, calls: seq<Call>, p: Worker)
    requires |mem| == |calls|
  {
    && p.slot < QUEUE_SIZE && p.first < QUEUE_SIZE
    && WorkInBounds(mem, calls, p.work)
    && (p.at == Run ==> !p.work.NoWork? && (p.work.DataUnits? ==> |p.saved| == p.work.unitCount))
    && (p.at == SetFlag ==> p.work.DeriveKey?)
  }

  predicate CallerInBounds(calls: seq<Call>, p: Caller) {
    && p.first < QUEUE_SIZE && p.slot < QUEUE_SIZE
    && (p.at != Out ==> p.job < |calls|)
  }

  predicate Init(s: State) {
    && InBounds(s)
    && (forall i :: 0 <= i < QUEUE_SIZE ==> s.slots[i] == Slot(Free, NoWork, 0, 0, false))
    && s.enqueuePosition == s.dequeuePosition == 0
    && s.enqueueOwner == s.dequeueOwner == -1
    && !s.readyEvent && !s.freeEvent
    && (forall w :: 0 <= w < |s.workers| ==> s.workers[w].at == Idle)
    && (forall c :: 0 <= c < |s.callers| ==> s.callers[c].at == Out)
    && s.calls == [] && s.log == [] && s.claimed == 0
  }

  function PutW(s: State, w: nat, p: Worker): State
    requires w < |s.workers|
  {
    s.(workers := s.workers[w := p])
  }

  function PutC(s: State, c: nat, p: Caller): State
    requires c < |s.callers|
  {
    s.(callers := s.callers[c := p])
  }

  function PutSlot(s: State, i: nat, x: Slot): State
    requires i < |s.slots|
  {
    s.(slots := s.slots[i := x])
  }

  function PutMem(s: State, j: nat, x: Memory): State
    requires j < |s.mem|
  {
    s.(mem := s.mem[j := x])
  }

  /** History: change ticket `t`. */
  function PutTicket(s: State, t: int, x: Ticket): State {
    if 0 <= t < |s.log| then s.(log := s.log[t := x]) else s
  }

  function TicketAt(s: State, t: int): Ticket {
    if 0 <= t < |s.log| then s.log[t] else Ticket(0, 0, Unclaimed, 0, false, false, Running)
  }

  // ----- Worker steps: EncryptionThreadProc -----

  /** A thread can move unless it waits for a mutex that is held or an event that is not set. */
  predicate WorkerCanStep(s: State, w: nat)
    requires w < |s.workers|
  {
    match s.workers[w].at
    case Idle => s.dequeueOwner == -1
    case Wait => s.readyEvent
    case _ => true
  }

  function WorkerStep(s: State, w: nat): State
    requires InBounds(s) && w < |s.workers| && WorkerCanStep(s, w)
  {
    match s.workers[w].at
    case Idle => WorkerIdle(s, w)
    case Take => WorkerTake(s, w)
    case Poll => WorkerPoll(s, w)
    case Wait => WorkerWait(s, w)
    case Claim => WorkerClaim(s, w)
    case Unlock => WorkerUnlock(s, w)
    case Start => WorkerStart(s, w)
    case Run => WorkerRun(s, w)
    case SetFlag => WorkerSetFlag(s, w)
    case Branch => WorkerBranch(s, w)
    case FreeSlot => WorkerFreeSlot(s, w)
    case SignalFree => WorkerSignalFree(s, w)
    case LoadFirst => WorkerLoadFirst(s, w)
    case Decrement => WorkerDecrement(s, w)
    case ReloadFirst => WorkerReloadFirst(s, w)
    case SetCompleted => WorkerSetCompleted(s, w)
  }

  /** TC_ACQUIRE_MUTEX (&DequeueMutex) */
  function WorkerIdle(s: State, w: nat): State
    requires w < |s.workers|
  {
    PutW(s, w, s.workers[w].(at := Take)).(dequeueOwner := w)
  }

  /** workItem = &WorkItemQueue[DequeuePosition++] */
  function WorkerTake(s: State, w: nat): State
    requires w < |s.workers|
  {
    PutW(s, w, s.workers[w].(at := Poll, slot := s.dequeuePosition, ticket := s.claimed))
      .(dequeuePosition := Bump(s.dequeuePosition))
  }

  /** GetWorkItemState (workItem) != WorkItemReady */
  function WorkerPoll(s: State, w: nat): State
    requires InBounds(s) && w < |s.workers|
  {
    var p := s.workers[w];
    PutW(s, w, p.(at := if s.slots[p.slot].state == Ready then Claim else Wait))
  }

  /** TC_WAIT_EVENT (WorkItemReadyEvent): auto-reset, so passing it clears it. */
  function WorkerWait(s: State, w: nat): State
    requires w < |s.workers|
  {
    PutW(s, w, s.workers[w].(at := Poll)).(readyEvent := false)
  }

  /** SetWorkItemState (workItem, WorkItemBusy) */
  function WorkerClaim(s: State, w: nat): State
    requires InBounds(s) && w < |s.workers|
  {
    var p := s.workers[w];
    PutTicket(PutSlot(PutW(s, w, p.(at := Unlock)), p.slot, s.slots[p.slot].(state := Busy)),
      p.ticket, TicketAt(s, p.ticket).(owner := Held(w)))
      .(claimed := s.claimed + 1)
  }

  function WorkerUnlock(s: State, w: nat): State
    requires w < |s.workers|
  {
    PutW(s, w, s.workers[w].(at := Start)).(dequeueOwner := -1)
  }

  /** Read the work item; `saved` is the fragment's data when the routine starts on it. */
  function WorkerStart(s: State, w: nat): State
    requires InBounds(s) && w < |s.workers|
  {
    var p := s.workers[w];
    var work := s.slots[p.slot].work;
    match work
    case NoWork => s
    case DeriveKey(_) => PutW(s, w, p.(at := Run, work := work))
    case DataUnits(job, offset, _, count) =>
      PutW(s, w, p.(at := Run, work := work, saved := s.mem[job].buffer[offset..offset + count]))
  }

  /** The data-unit or key-derivation routine ends. */
  function WorkerRun(s: State, w: nat): State
    requires InBounds(s) && w < |s.workers| && s.workers[w].at == Run
  {
    var p := s.workers[w];
    var counted := PutTicket(s, p.ticket, TicketAt(s, p.ticket).(runs := TicketAt(s, p.ticket).runs + 1));
    match p.work
    case DataUnits(job, offset, unitNo, count) =>
      var result := UnitWise(s.calls[job].job.crypt, unitNo, p.saved);
      PutMem(PutW(counted, w, p.(at := Branch)), job,
        s.mem[job].(buffer := Splice(s.mem[job].buffer, offset, result)))
    case DeriveKey(job) =>
      PutMem(PutW(counted, w, p.(at := SetFlag)), job, s.mem[job].(key := s.calls[job].job.key))
  }

  /** While the routine runs, its own range of the buffer can hold anything. */
  function WorkerScribble(s: State, w: nat, junk: seq<Unit>): State
    requires InBounds(s) && w < |s.workers| && s.workers[w].at == Run && s.workers[w].work.DataUnits?
    requires |junk| == s.workers[w].work.unitCount
  {
    var p := s.workers[w];
    var m := s.mem[p.work.job];
    PutMem(s, p.work.job, m.(buffer := Splice(m.buffer, p.work.offset, junk)))
  }

  /** InterlockedExchange (CompletionFlag, TRUE) */
  function WorkerSetFlag(s: State, w: nat): State
    requires InBounds(s) && w < |s.workers| && s.workers[w].at == SetFlag
  {
    var p := s.workers[w];
    PutMem(PutW(s, w, p.(at := FreeSlot)), p.work.job, s.mem[p.work.job].(keyReady := true))
  }

  /** workItem != workItem->FirstFragment */
  function WorkerBranch(s: State, w: nat): State
    requires InBounds(s) && w < |s.workers|
  {
    var p := s.workers[w];
    PutW(s, w, p.(at := if p.slot != s.slots[p.slot].first then FreeSlot else LoadFirst))
  }

  /** SetWorkItemState (workItem, WorkItemFree) */
  function WorkerFreeSlot(s: State, w: nat): State
    requires InBounds(s) && w < |s.workers|
  {
    var p := s.workers[w];
    PutTicket(PutSlot(PutW(s, w, p.(at := SignalFree)), p.slot, s.slots[p.slot].(state := Free)),
      p.ticket, TicketAt(s, p.ticket).(freed := true))
  }

  /** TC_SET_EVENT (WorkItemCompletedEvent); a key derivation is finished here. */
  function WorkerSignalFree(s: State, w: nat): State
    requires w < |s.workers|
  {
    var p := s.workers[w];
    if p.work.DeriveKey? then
      PutTicket(PutW(s, w, p.(at := Idle)), p.ticket, TicketAt(s, p.ticket).(owner := Done)).(freeEvent := true)
    else
      PutW(s, w, p.(at := LoadFirst)).(freeEvent := true)
  }

  /** The slot may be free already: this read of FirstFragment is the delicate one. */
  function WorkerLoadFirst(s: State, w: nat): State
    requires InBounds(s) && w < |s.workers|
  {
    var p := s.workers[w];
    PutW(s, w, p.(at := Decrement, first := s.slots[p.slot].first))
  }

  /** InterlockedDecrement (&workItem->FirstFragment->OutstandingFragmentCount) */
  function WorkerDecrement(s: State, w: nat): State
    requires InBounds(s) && w < |s.workers|
  {
    var p := s.workers[w];
    var slot := s.slots[p.first];
    var tk := TicketAt(s, p.ticket);
    var s1 := PutSlot(s, p.first, slot.(outstanding := slot.outstanding - 1));
    if slot.outstanding - 1 == 0 then
      var s2 := PutTicket(PutW(s1, w, p.(at := ReloadFirst)), p.ticket, tk.(counted := true));
      PutTicket(s2, p.ticket - tk.index, TicketAt(s2, p.ticket - tk.index).(phase := Zeroed(w)))
    else
      PutTicket(PutW(s1, w, p.(at := Idle)), p.ticket, tk.(counted := true, owner := Done))
  }

  /** The second read of workItem->FirstFragment. */
  function WorkerReloadFirst(s: State, w: nat): State
    requires InBounds(s) && w < |s.workers|
  {
    var p := s.workers[w];
    PutW(s, w, p.(at := SetCompleted, first := s.slots[p.slot].first))
  }

  /** TC_SET_EVENT (workItem->FirstFragment->ItemCompletedEvent) */
  function WorkerSetCompleted(s: State, w: nat): State
    requires InBounds(s) && w < |s.workers|
  {
    var p := s.workers[w];
    var tk := TicketAt(s, p.ticket);
    var s1 := PutSlot(PutW(s, w, p.(at := Idle)), p.first, s.slots[p.first].(completed := true));
    var s2 := PutTicket(s1, p.ticket, tk.(owner := Done));
    PutTicket(s2, p.ticket - tk.index, TicketAt(s2, p.ticket - tk.index).(phase := Signalled))
  }

  // ----- Caller steps: EncryptionThreadPoolDoWork, EncryptionThreadPoolBeginKeyDerivation -----

  predicate CallerCanStep(s: State, c: nat)
    requires InBounds(s) && c < |s.callers|
  {
    match s.callers[c].at
    case Out => false
    case Lock => s.enqueueOwner == -1
    case WaitFirst => s.freeEvent
    case WaitSlot => s.freeEvent
    case WaitDone => s.slots[s.callers[c].first].completed
    case _ => true
  }

  function CallerStep(s: State, c: nat): State
    requires InBounds(s) && c < |s.callers| && CallerCanStep(s, c)
  {
    match s.callers[c].at
    case Lock => CallerLock(s, c)
    case PickFirst => CallerPickFirst(s, c)
    case PollFirst => CallerPollFirst(s, c)
    case WaitFirst => CallerWaitFirst(s, c)
    case SetCount => CallerSetCount(s, c)
    case Loop => CallerLoop(s, c)
    case PollSlot => CallerPollSlot(s, c)
    case WaitSlot => CallerWaitSlot(s, c)
    case Fill => CallerFill(s, c)
    case Publish => CallerPublish(s, c)
    case Signal => CallerSignal(s, c)
    case Release => CallerRelease(s, c)
    case WaitDone => CallerWaitDone(s, c)
    case FreeFirst => CallerFreeFirst(s, c)
    case SignalDone => CallerSignalDone(s, c)
  }

  /** A call: fewer than two units are processed at once on the calling thread. */
  function CallerCall(s: State, c: nat, job: Job): State
    requires Shape(s) && c < |s.callers| && s.callers[c].at == Out
  {
    var j := |s.calls|;
    if !Pooled(job) then
      s.(calls := s.calls + [Call(job, c, false, 0, true)],
        mem := s.mem + [Memory(UnitWise(job.crypt, job.start, job.data), [], false)])
    else
      var threads := |s.workers|;
      var p := s.callers[c].(at := Lock, job := j, left := Frags(job, threads), offset := 0);
      var units := if job.Crypt? then |job.data| else 0;
      var per := if units <= threads then 1 else units / threads;
      var remainder := if units <= threads then 0 else units % threads;
      PutC(s, c, p.(unitNo := if job.Crypt? then job.start else 0,
          per := if remainder > 0 then per + 1 else per, remainder := remainder))
        .(calls := s.calls + [Call(job, c, false, 0, false)],
          mem := s.mem + [Memory(if job.Crypt? then job.data else [], [], false)])
  }

  /** TC_ACQUIRE_MUTEX (&EnqueueMutex) */
  function CallerLock(s: State, c: nat): State
    requires InBounds(s) && c < |s.callers| && s.callers[c].at == Lock
  {
    var p := s.callers[c];
    if s.calls[p.job].job.Crypt? then
      PutC(s, c, p.(at := PickFirst)).(enqueueOwner := c)
    else
      PutC(s, c, p.(at := Loop))
        .(enqueueOwner := c, calls := s.calls[p.job := s.calls[p.job].(begun := true, first := |s.log|)])
  }

  /** firstFragmentWorkItem = &WorkItemQueue[EnqueuePosition] */
  function CallerPickFirst(s: State, c: nat): State
    requires c < |s.callers|
  {
    PutC(s, c, s.callers[c].(at := PollFirst, first := s.enqueuePosition))
  }

  function CallerPollFirst(s: State, c: nat): State
    requires InBounds(s) && c < |s.callers|
  {
    var p := s.callers[c];
    PutC(s, c, p.(at := if s.slots[p.first].state == Free then SetCount else WaitFirst))
  }

  /** TC_WAIT_EVENT (WorkItemCompletedEvent) */
  function CallerWaitFirst(s: State, c: nat): State
    requires c < |s.callers|
  {
    PutC(s, c, s.callers[c].(at := PollFirst)).(freeEvent := false)
  }

  /** firstFragmentWorkItem->OutstandingFragmentCount = fragmentCount */
  function CallerSetCount(s: State, c: nat): State
    requires InBounds(s) && c < |s.callers| && s.callers[c].at == SetCount
  {
    var p := s.callers[c];
    PutSlot(PutC(s, c, p.(at := Loop)), p.first, s.slots[p.first].(outstanding := p.left))
      .(calls := s.calls[p.job := s.calls[p.job].(begun := true, first := |s.log|)])
  }

  /** fragmentCount-- > 0, and workItem = &WorkItemQueue[EnqueuePosition++] */
  function CallerLoop(s: State, c: nat): State
    requires c < |s.callers|
  {
    var p := s.callers[c];
    if p.left > 0 then
      PutC(s, c, p.(at := PollSlot, slot := s.enqueuePosition, left := p.left - 1))
        .(enqueuePosition := Bump(s.enqueuePosition))
    else
      PutC(s, c, p.(at := Release))
  }

  function CallerPollSlot(s: State, c: nat): State
    requires InBounds(s) && c < |s.callers|
  {
    var p := s.callers[c];
    PutC(s, c, p.(at := if s.slots[p.slot].state == Free then Fill else WaitSlot))
  }

  function CallerWaitSlot(s: State, c: nat): State
    requires c < |s.callers|
  {
    PutC(s, c, s.callers[c].(at := PollSlot)).(freeEvent := false)
  }

  /** Write the work item and advance; the byte step of the data pointer is a 32-bit product. */
  function CallerFill(s: State, c: nat): State
    requires InBounds(s) && c < |s.callers| && s.callers[c].at == Fill
  {
    var p := s.callers[c];
    if s.calls[p.job].job.Crypt? then
      var last := p.remainder == 1;
      PutSlot(
        PutC(s, c, p.(at := Publish,
          offset := p.offset + p.per % POINTER_STEP_UNITS, unitNo := Advance(p.unitNo, p.per),
          per := if last && p.per > 0 then p.per - 1 else p.per,
          remainder := if p.remainder > 0 then p.remainder - 1 else 0)),
        p.slot, s.slots[p.slot].(work := DataUnits(p.job, p.offset, p.unitNo, p.per), first := p.first))
    else
      PutSlot(PutC(s, c, p.(at := Publish)), p.slot, s.slots[p.slot].(work := DeriveKey(p.job)))
  }

  /** SetWorkItemState (workItem, WorkItemReady) */
  function CallerPublish(s: State, c: nat): State
    requires InBounds(s) && c < |s.callers| && s.callers[c].at == Publish
  {
    var p := s.callers[c];
    var first := s.calls[p.job].first;
    PutSlot(PutC(s, c, p.(at := Signal)), p.slot, s.slots[p.slot].(state := Ready))
      .(log := s.log + [Ticket(p.job, if first <= |s.log| then |s.log| - first else 0, Unclaimed, 0, false, false, Running)])
  }

  /** TC_SET_EVENT (WorkItemReadyEvent) */
  function CallerSignal(s: State, c: nat): State
    requires c < |s.callers|
  {
    PutC(s, c, s.callers[c].(at := Loop)).(readyEvent := true)
  }

  /** TC_RELEASE_MUTEX (&EnqueueMutex); BeginKeyDerivation returns here. */
  function CallerRelease(s: State, c: nat): State
    requires InBounds(s) && c < |s.callers| && s.callers[c].at == Release
  {
    var p := s.callers[c];
    if s.calls[p.job].job.Crypt? then
      PutC(s, c, p.(at := WaitDone)).(enqueueOwner := -1)
    else
      PutC(s, c, p.(at := Out))
        .(enqueueOwner := -1, calls := s.calls[p.job := s.calls[p.job].(returned := true)])
  }

  /** TC_WAIT_EVENT (firstFragmentWorkItem->ItemCompletedEvent) */
  function CallerWaitDone(s: State, c: nat): State
    requires InBounds(s) && c < |s.callers| && s.callers[c].at == WaitDone
  {
    var p := s.callers[c];
    var t := s.calls[p.job].first;
    PutTicket(PutSlot(PutC(s, c, p.(at := FreeFirst)), p.first, s.slots[p.first].(completed := false)),
      t, TicketAt(s, t).(phase := Consumed))
  }

  /** SetWorkItemState (firstFragmentWorkItem, WorkItemFree) */
  function CallerFreeFirst(s: State, c: nat): State
    requires InBounds(s) && c < |s.callers| && s.callers[c].at == FreeFirst
  {
    var p := s.callers[c];
    var t := s.calls[p.job].first;
    PutTicket(PutSlot(PutC(s, c, p.(at := SignalDone)), p.first, s.slots[p.first].(state := Free)),
      t, TicketAt(s, t).(freed := true))
  }

  /** TC_SET_EVENT (WorkItemCompletedEvent), and DoWork returns. */
  function CallerSignalDone(s: State, c: nat): State
    requires InBounds(s) && c < |s.callers| && s.callers[c].at == SignalDone
  {
    var p := s.callers[c];
    PutC(s, c, p.(at := Out)).(freeEvent := true, calls := s.calls[p.job := s.calls[p.job].(returned := true)])
  }

  // ----- Runs -----

  datatype Action =
    | ByWorker(worker: nat)
    | ByCaller(caller: nat)
    | NewCall(caller: nat, job: Job)
    | Scribble(worker: nat, junk: seq<Unit>)

  predicate Enabled(s: State, a: Action)
    requires InBounds(s)
  {
    match a
    case ByWorker(w) => w < |s.workers| && WorkerCanStep(s, w)
    case ByCaller(c) => c < |s.callers| && CallerCanStep(s, c)
    case NewCall(c, job) => c < |s.callers| && s.callers[c].at == Out && CanCall(job, |s.workers|)
    case Scribble(w, junk) =>
      && w < |s.workers| && s.workers[w].at == Run && s.workers[w].work.DataUnits?
      && |junk| == s.workers[w].work.unitCount
  }

  function Step(s: State, a: Action): State
    requires InBounds(s) && Enabled(s, a)
  {
    match a
    case ByWorker(w) => WorkerStep(s, w)
    case ByCaller(c) => CallerStep(s, c)
    case NewCall(c, job) => CallerCall(s, c, job)
    case Scribble(w, junk) => WorkerScribble(s, w, junk)
  }

  /** A state with an index out of range may be followed by anything: that no run has one is proved,
      not assumed. */
  ghost predicate StepsTo(s: State, a: Action, s': State) {
    InBounds(s) ==> Enabled(s, a) && s' == Step(s, a)
  }

  /** `run` takes the actions `acts` from an initial state, in any interleaving. */
  ghost predicate IsRun(run: seq<State>, acts: seq<Action>) {
    && |run| == |acts| + 1
    && Init(run[0])
    && forall i :: 0 <= i < |acts| ==> StepsTo(run[i], acts[i], run[i + 1])
  }
}
