// What every reachable state of the thread pool satisfies.
module ThreadPoolInvariant {
  import opened Words
  import opened FragmentPlan
  import opened ThreadPool

  /** The slot of the t-th position handed out: t modulo the queue size. */
  function SlotOf(t: nat): (i: nat)
    ensures i < QUEUE_SIZE
  {
    if t < QUEUE_SIZE then t else SlotOf(t - QUEUE_SIZE)
  }

  ghost predicate HasLock(at: CallerAt) {
    at.PickFirst? || at.PollFirst? || at.WaitFirst? || at.SetCount? || Enqueuing(at) || at.Release?
  }

  ghost predicate Enqueuing(at: CallerAt) {
    at.Loop? || Taken(at) || at.Signal?
  }

  /** A queue position has been taken but its slot is not Ready yet. */
  ghost predicate Taken(at: CallerAt) {
    at.PollSlot? || at.WaitSlot? || at.Fill? || at.Publish?
  }

  ghost predicate Looking(at: WorkerAt) {
    at.Poll? || at.Wait? || at.Claim?
  }

  ghost predicate HasDequeue(at: WorkerAt) {
    at.Take? || Looking(at) || at.Unlock?
  }

  ghost predicate Holding(at: WorkerAt) {
    !at.Idle? && !at.Take? && !Looking(at)
  }

  ghost predicate Locks(callers: seq<Caller>, enqueueOwner: int, workers: seq<Worker>, dequeueOwner: int) {
    && -1 <= enqueueOwner < |callers| && -1 <= dequeueOwner < |workers|
    && (forall c :: 0 <= c < |callers| ==> (HasLock(callers[c].at) <==> enqueueOwner == c))
    && (forall w :: 0 <= w < |workers| ==> (HasDequeue(workers[w].at) <==> dequeueOwner == w))
  }

  ghost predicate TakenNow(callers: seq<Caller>, enqueueOwner: int) {
    0 <= enqueueOwner < |callers| && Taken(callers[enqueueOwner].at)
  }

  ghost predicate LookingNow(workers: seq<Worker>, dequeueOwner: int) {
    0 <= dequeueOwner < |workers| && Looking(workers[dequeueOwner].at)
  }

  /** The slot of the next ticket has been filled over an old one, but is not Ready yet. */
  ghost predicate PendingNow(callers: seq<Caller>, enqueueOwner: int) {
    0 <= enqueueOwner < |callers| && callers[enqueueOwner].at.Publish?
  }

  ghost predicate Positions(s: State) {
    && s.claimed <= |s.log|
    && s.enqueuePosition == SlotOf(|s.log| + if TakenNow(s.callers, s.enqueueOwner) then 1 else 0)
    && s.dequeuePosition == SlotOf(s.claimed + if LookingNow(s.workers, s.dequeueOwner) then 1 else 0)
  }

  function NFrags(calls: seq<Call>, j: nat, threads: nat): nat
    requires j < |calls|
  {
    Frags(calls[j].job, threads)
  }

  /** The work item of fragment `k` of call `j`. */
  function WorkOf(calls: seq<Call>, j: nat, k: nat, threads: nat): Work
    requires threads > 0 && j < |calls|
  {
    match calls[j].job
    case Crypt(_, start, data) =>
      var o := Off(|data|, threads, k);
      DataUnits(j, o, Advance(start, o), Len(|data|, threads, k))
    case Derive(_) => DeriveKey(j)
  }

  ghost predicate FlagsAt(at: WorkerAt, tk: Ticket, key: bool) {
    var ran := !at.Unlock? && !at.Start? && !at.Run?;
    && tk.runs == (if ran then 1 else 0)
    && tk.counted == (at.ReloadFirst? || at.SetCompleted?)
    && (at.SetFlag? ==> key)
    && (at.Branch? || at.LoadFirst? || at.Decrement? || at.ReloadFirst? || at.SetCompleted? ==> !key)
    && (at.FreeSlot? || at.SignalFree? ==> key || tk.index > 0)
    && tk.freed ==
        (at.SignalFree? || ((at.LoadFirst? || at.Decrement? || at.ReloadFirst? || at.SetCompleted?) && tk.index > 0))
  }

  ghost predicate WorkerOk(log: seq<Ticket>, calls: seq<Call>, claimed: nat, p: Worker, w: nat, threads: nat)
    requires threads > 0
  {
    && p.slot < QUEUE_SIZE && p.first < QUEUE_SIZE
    && (Looking(p.at) ==> p.ticket == claimed && p.slot == SlotOf(p.ticket) && (p.at.Claim? ==> claimed < |log|))
    && (Holding(p.at) ==>
          && p.ticket < claimed <= |log|
          && p.slot == SlotOf(p.ticket)
          && var tk := log[p.ticket];
          && tk.owner == Held(w)
          && tk.job < |calls|
          && tk.index <= p.ticket
          && FlagsAt(p.at, tk, calls[tk.job].job.Derive?)
          && (!p.at.Unlock? && !p.at.Start? ==> p.work == WorkOf(calls, tk.job, tk.index, threads))
          && (p.at.Run? && p.work.DataUnits? ==>
                p.work.offset + p.work.unitCount <= |calls[tk.job].job.data|
                && p.saved == calls[tk.job].job.data[p.work.offset..p.work.offset + p.work.unitCount])
          && (p.at.Decrement? || p.at.SetCompleted? ==> p.first == SlotOf(p.ticket - tk.index))
          && (p.at.ReloadFirst? || p.at.SetCompleted? ==> log[p.ticket - tk.index].phase == Zeroed(w)))
  }

  ghost predicate WorkersOk(log: seq<Ticket>, calls: seq<Call>, claimed: nat, workers: seq<Worker>) {
    forall w :: 0 <= w < |workers| ==> WorkerOk(log, calls, claimed, workers[w], w, |workers|)
  }

  /** Worker `w` has counted a job down to zero and is about to set the event of the job first at `t`. */
  ghost predicate SignalsFor(log: seq<Ticket>, workers: seq<Worker>, w: nat, t: nat) {
    && w < |workers|
    && (workers[w].at.ReloadFirst? || workers[w].at.SetCompleted?)
    && workers[w].ticket < |log| && workers[w].ticket - log[workers[w].ticket].index == t
  }

  ghost predicate TicketOk(log: seq<Ticket>, calls: seq<Call>, claimed: nat, workers: seq<Worker>, t: nat)
    requires t < |log|
  {
    var tk := log[t];
    && tk.job < |calls|
    && var call := calls[tk.job];
    && call.begun && call.first + tk.index == t && tk.index < Frags(call.job, |workers|)
    && (tk.owner.Unclaimed? <==> claimed <= t)
    && (tk.owner.Unclaimed? ==> tk.runs == 0 && !tk.freed && !tk.counted)
    && (tk.owner.Held? ==>
          && tk.owner.worker < |workers|
          && Holding(workers[tk.owner.worker].at) && workers[tk.owner.worker].ticket == t)
    && (tk.owner.Done? ==>
          && tk.runs == 1
          && (call.job.Derive? ==> tk.freed) && (call.job.Crypt? ==> tk.counted && (tk.index > 0 ==> tk.freed)))
    && tk.runs <= 1
    && (tk.counted ==> tk.runs == 1)
    && (t + QUEUE_SIZE < |log| ==> tk.freed)
    && (!tk.phase.Running? ==> tk.index == 0 && call.job.Crypt?)
    && (tk.phase.Zeroed? ==> SignalsFor(log, workers, tk.phase.worker, t))
    && (tk.freed && tk.index == 0 && call.job.Crypt? ==> tk.phase.Consumed?)
  }

  ghost predicate TicketsOk(log: seq<Ticket>, calls: seq<Call>, claimed: nat, workers: seq<Worker>) {
    forall t :: 0 <= t < |log| ==> TicketOk(log, calls, claimed, workers, t)
  }

  ghost predicate Owns(calls: seq<Call>, j: nat, t: int, threads: nat)
    requires j < |calls|
  {
    calls[j].begun && calls[j].first <= t < calls[j].first + NFrags(calls, j, threads)
  }

  /** The tickets of a call are consecutive. */
  ghost predicate CallTickets(log: seq<Ticket>, calls: seq<Call>, threads: nat) {
    forall j, t {:trigger Owns(calls, j, t, threads)} | 0 <= j < |calls| && Owns(calls, j, t, threads) && t < |log| ::
      log[t].job == j && log[t].index == t - calls[j].first
  }

  ghost predicate CallOk(log: seq<Ticket>, calls: seq<Call>, callers: seq<Caller>, threads: nat, j: nat)
    requires j < |calls| && threads > 0
  {
    var call := calls[j];
    && call.caller < |callers|
    && CanCall(call.job, threads)
    && (!call.returned ==> Pooled(call.job) && !callers[call.caller].at.Out? && callers[call.caller].job == j)
    && (call.returned && Pooled(call.job) ==>
          && call.begun && call.first + Frags(call.job, threads) <= |log|
          && call.first < |log|
          && (call.job.Crypt? ==> log[call.first].freed))
    && (!Pooled(call.job) ==> !call.begun)
    && (call.begun ==> call.first <= |log|)
    && (call.begun && call.first + Frags(call.job, threads) > |log| ==>
          !call.returned && Enqueuing(callers[call.caller].at))
  }

  ghost predicate CallsOk(log: seq<Ticket>, calls: seq<Call>, callers: seq<Caller>, threads: nat)
    requires threads > 0
  {
    forall j :: 0 <= j < |calls| ==> CallOk(log, calls, callers, threads, j)
  }

  /** The local variables of DoWork when fragment `k` is the next one to write. */
  ghost predicate LoopVars(p: Caller, job: Job, threads: nat, k: nat)
    requires threads > 0
  {
    job.Crypt? ==>
      var units := |job.data|;
      && p.offset == Off(units, threads, k)
      && p.unitNo == Advance(job.start, p.offset)
      && (k < Count(units, threads) ==>
            && p.per == Len(units, threads, k)
            && p.remainder == (if units > threads && k < units % threads then units % threads - k else 0))
  }

  ghost predicate NextSlotFree(log: seq<Ticket>) {
    |log| >= QUEUE_SIZE ==> log[|log| - QUEUE_SIZE].freed
  }

  ghost predicate CallerOk(log: seq<Ticket>, calls: seq<Call>, p: Caller, c: nat, threads: nat)
    requires threads > 0
  {
    && p.first < QUEUE_SIZE && p.slot < QUEUE_SIZE
    && (!p.at.Out? ==>
          && p.job < |calls|
          && var call := calls[p.job];
          && var n := Frags(call.job, threads);
          && call.caller == c && !call.returned
          && (p.at.Lock? || p.at.PickFirst? || p.at.PollFirst? || p.at.WaitFirst? || p.at.SetCount? ==>
                !call.begun && p.left == n && LoopVars(p, call.job, threads, 0))
          && (p.at.PickFirst? || p.at.PollFirst? || p.at.WaitFirst? || p.at.SetCount? ==> call.job.Crypt?)
          && (p.at.PollFirst? || p.at.WaitFirst? || p.at.SetCount? ==> p.first == SlotOf(|log|))
          && (p.at.SetCount? ==> NextSlotFree(log))
          && (Enqueuing(p.at) || p.at.Release? || p.at.WaitDone? || p.at.FreeFirst? || p.at.SignalDone? ==>
                call.begun && call.first <= |log| && (call.job.Crypt? ==> p.first == SlotOf(call.first)))
          && (Enqueuing(p.at) ==>
                var k := |log| - call.first;
                && p.left + k + (if Taken(p.at) then 1 else 0) == n
                && LoopVars(p, call.job, threads, if p.at.Publish? then k + 1 else k))
          && (Enqueuing(p.at) && call.job.Crypt? && call.first == |log| ==> NextSlotFree(log))
          && (Taken(p.at) ==> p.slot == SlotOf(|log|))
          && (p.at.Fill? || p.at.Publish? ==> NextSlotFree(log))
          && (p.at.Release? || p.at.WaitDone? || p.at.FreeFirst? || p.at.SignalDone? ==> call.first + n <= |log|)
          && (p.at.WaitDone? || p.at.FreeFirst? || p.at.SignalDone? ==>
                call.job.Crypt? && n > 0
                && log[call.first].freed == p.at.SignalDone?
                && log[call.first].phase.Consumed? == !p.at.WaitDone?)
          && (call.begun && call.first < |log| && (Enqueuing(p.at) || p.at.Release?) && call.job.Crypt? ==>
                !log[call.first].phase.Consumed?))
  }

  ghost predicate CallersOk(log: seq<Ticket>, calls: seq<Call>, callers: seq<Caller>, threads: nat)
    requires threads > 0
  {
    forall c :: 0 <= c < |callers| ==> CallerOk(log, calls, callers[c], c, threads)
  }

  ghost predicate InWindow(log: seq<Ticket>, t: int) {
    0 <= t < |log| <= t + QUEUE_SIZE
  }

  ghost function StateOf(tk: Ticket): SlotState {
    if tk.freed then Free else if tk.owner.Unclaimed? then Ready else Busy
  }

  /** The real slot states are exactly what the history says; a completion event is set exactly
      while its job's completion was signalled and not consumed. */
  ghost predicate SlotStateOk(slots: seq<Slot>, log: seq<Ticket>, t: int)
    requires |slots| == QUEUE_SIZE
  {
    InWindow(log, t) ==>
      && slots[SlotOf(t)].state == StateOf(log[t])
      && slots[SlotOf(t)].completed == log[t].phase.Signalled?
  }

  ghost predicate SlotStates(slots: seq<Slot>, log: seq<Ticket>)
    requires |slots| == QUEUE_SIZE
  {
    && (forall t :: SlotStateOk(slots, log, t))
    && (forall i :: |log| <= i < QUEUE_SIZE ==> slots[i].state == Free && !slots[i].completed)
  }

  ghost predicate SlotHolds(slot: Slot, calls: seq<Call>, j: nat, k: nat, first: nat, threads: nat)
    requires threads > 0 && j < |calls|
  {
    && slot.work == WorkOf(calls, j, k, threads)
    && (calls[j].job.Crypt? ==> slot.first == SlotOf(first))
  }

  ghost predicate SlotContentOk(slots: seq<Slot>, log: seq<Ticket>, calls: seq<Call>, threads: nat, pending: bool, t: int)
    requires |slots| == QUEUE_SIZE && threads > 0
  {
    InWindow(log, t) && !(pending && t + QUEUE_SIZE == |log|) ==>
      && log[t].job < |calls| && log[t].index <= t
      && SlotHolds(slots[SlotOf(t)], calls, log[t].job, log[t].index, t - log[t].index, threads)
  }

  ghost predicate SlotContents(slots: seq<Slot>, log: seq<Ticket>, calls: seq<Call>, threads: nat, pending: bool)
    requires |slots| == QUEUE_SIZE && threads > 0
  {
    forall t :: SlotContentOk(slots, log, calls, threads, pending, t)
  }

  ghost predicate PendingOk(s: State)
    requires Shape(s)
  {
    PendingNow(s.callers, s.enqueueOwner) ==>
      var p := s.callers[s.enqueueOwner];
      p.job < |s.calls| && s.calls[p.job].first <= |s.log|
      && SlotHolds(s.slots[SlotOf(|s.log|)], s.calls, p.job, |s.log| - s.calls[p.job].first, s.calls[p.job].first, |s.workers|)
  }

  /** How many of the tickets first .. first + n - 1 have been counted down. */
  ghost function CountDone(log: seq<Ticket>, first: nat, n: nat): nat {
    if n == 0 then 0
    else CountDone(log, first, n - 1) + if first + n - 1 < |log| && log[first + n - 1].counted then 1 else 0
  }

  /** OutstandingFragmentCount is the number of fragments not yet accounted for, and a job's
      phase leaves Running exactly when that number reaches zero. */
  ghost predicate CountOk(slots: seq<Slot>, log: seq<Ticket>, calls: seq<Call>, threads: nat, j: nat)
    requires |slots| == QUEUE_SIZE && j < |calls|
  {
    calls[j].begun && calls[j].job.Crypt? ==>
      var f := calls[j].first;
      var n := NFrags(calls, j, threads);
      && ((f < |log| ==> !log[f].freed) ==> slots[SlotOf(f)].outstanding == n - CountDone(log, f, n))
      && (f < |log| ==> (log[f].phase.Running? <==> CountDone(log, f, n) < n))
  }

  ghost predicate Counts(slots: seq<Slot>, log: seq<Ticket>, calls: seq<Call>, threads: nat)
    requires |slots| == QUEUE_SIZE
  {
    forall j :: 0 <= j < |calls| ==> CountOk(slots, log, calls, threads, j)
  }

  /** What one unit of a call's buffer must become. */
  function Result(job: Job, u: nat): Unit
    requires job.Crypt? && u < |job.data|
  {
    job.crypt(Advance(job.start, u), job.data[u])
  }

  ghost predicate InRange(work: Work, u: nat) {
    work.DataUnits? && work.offset <= u < work.offset + work.unitCount
  }

  ghost predicate RunningNow(tk: Ticket, workers: seq<Worker>) {
    tk.owner.Held? && tk.owner.worker < |workers| && workers[tk.owner.worker].at.Run?
  }

  /** The worker of a key derivation has set its completion flag. */
  ghost predicate FlagSet(tk: Ticket, workers: seq<Worker>) {
    || tk.owner.Done?
    || tk.freed
    || (tk.owner.Held? && tk.owner.worker < |workers| && workers[tk.owner.worker].at.FreeSlot?)
  }

  ghost predicate MemShape(mem: seq<Memory>, calls: seq<Call>) {
    && |mem| == |calls|
    && (forall j :: 0 <= j < |calls| && calls[j].job.Crypt? ==>
          && |mem[j].buffer| == |calls[j].job.data|
          && (!Pooled(calls[j].job) ==> mem[j].buffer == UnitWise(calls[j].job.crypt, calls[j].job.start, calls[j].job.data)))
    && (forall j :: 0 <= j < |calls| && calls[j].job.Derive? && mem[j].keyReady ==> mem[j].key == calls[j].job.key)
  }

  /** One ticket's part of the buffer: untouched, being worked on, or finished. */
  ghost predicate MemTicket(mem: seq<Memory>, calls: seq<Call>, log: seq<Ticket>, workers: seq<Worker>, t: nat)
    requires MemShape(mem, calls) && t < |log|
  {
    var tk := log[t];
    && tk.job < |calls| && |workers| > 0
    && var job := calls[tk.job].job;
    && (job.Crypt? ==>
          forall u :: 0 <= u < |job.data| && InRange(WorkOf(calls, tk.job, tk.index, |workers|), u) ==>
            && (tk.runs == 1 ==> mem[tk.job].buffer[u] == Result(job, u))
            && (tk.runs == 0 && !RunningNow(tk, workers) ==> mem[tk.job].buffer[u] == job.data[u]))
    && (job.Derive? ==>
          && (tk.runs == 1 ==> mem[tk.job].key == job.key)
          && (FlagSet(tk, workers) ==> mem[tk.job].keyReady))
  }

  ghost predicate MemTickets(mem: seq<Memory>, calls: seq<Call>, log: seq<Ticket>, workers: seq<Worker>)
    requires MemShape(mem, calls)
  {
    forall t :: 0 <= t < |log| ==> MemTicket(mem, calls, log, workers, t)
  }

  /** Fragments published so far. */
  ghost function Published(log: seq<Ticket>, call: Call): nat {
    if call.begun && call.first <= |log| then |log| - call.first else 0
  }

  /** What has not been published yet is untouched. */
  ghost predicate MemUnpublished(mem: seq<Memory>, calls: seq<Call>, log: seq<Ticket>, threads: nat, j: nat)
    requires MemShape(mem, calls) && threads > 0 && j < |calls|
  {
    var call := calls[j];
    var k := Published(log, call);
    call.job.Crypt? && Pooled(call.job) && k < NFrags(calls, j, threads) ==>
      forall u :: Off(|call.job.data|, threads, k) <= u < |call.job.data| ==> mem[j].buffer[u] == call.job.data[u]
  }

  ghost predicate MemRest(mem: seq<Memory>, calls: seq<Call>, log: seq<Ticket>, threads: nat)
    requires MemShape(mem, calls) && threads > 0
  {
    forall j :: 0 <= j < |calls| ==> MemUnpublished(mem, calls, log, threads, j)
  }

  ghost predicate BoundsOk(s: State)
    requires Shape(s)
  {
    && (forall i :: 0 <= i < QUEUE_SIZE ==> s.slots[i].first < QUEUE_SIZE && WorkInBounds(s.mem, s.calls, s.slots[i].work))
    && (forall w :: 0 <= w < |s.workers| ==> WorkInBounds(s.mem, s.calls, s.workers[w].work))
  }

  ghost predicate Inv(s: State) {
    && Shape(s)
    && BoundsOk(s)
    && Locks(s.callers, s.enqueueOwner, s.workers, s.dequeueOwner)
    && Positions(s)
    && WorkersOk(s.log, s.calls, s.claimed, s.workers)
    && TicketsOk(s.log, s.calls, s.claimed, s.workers)
    && CallTickets(s.log, s.calls, |s.workers|)
    && CallsOk(s.log, s.calls, s.callers, |s.workers|)
    && CallersOk(s.log, s.calls, s.callers, |s.workers|)
    && SlotStates(s.slots, s.log)
    && SlotContents(s.slots, s.log, s.calls, |s.workers|, PendingNow(s.callers, s.enqueueOwner))
    && PendingOk(s)
    && Counts(s.slots, s.log, s.calls, |s.workers|)
    && MemShape(s.mem, s.calls)
    && MemTickets(s.mem, s.calls, s.log, s.workers)
    && MemRest(s.mem, s.calls, s.log, |s.workers|)
  }

  lemma InvInBounds(s: State)
    requires Inv(s)
    ensures InBounds(s)
  {
    forall w | 0 <= w < |s.workers|
      ensures WorkerInBounds(s.mem, s.calls, s.workers[w])
    {
      assert WorkerOk(s.log, s.calls, s.claimed, s.workers[w], w, |s.workers|);
    }
    forall c | 0 <= c < |s.callers|
      ensures CallerInBounds(s.calls, s.callers[c])
    {
      assert CallerOk(s.log, s.calls, s.callers[c], c, |s.workers|);
    }
  }

  lemma InitInv(s: State)
    requires Init(s)
    ensures Inv(s)
  {
  }
}
