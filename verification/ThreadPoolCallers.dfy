// Every step of a calling thread keeps the invariant.
module ThreadPoolCallers {
  import opened Words
  import opened FragmentPlan
  import opened ThreadPool
  import opened ThreadPoolInvariant
  import opened ThreadPoolWorkers
  import opened ThreadPoolCountdown

  lemma CallFact(s: State, j: nat)
    requires Inv(s) && j < |s.calls|
    ensures CallOk(s.log, s.calls, s.callers, |s.workers|, j)
  {
  }

  lemma CallerFact(s: State, c: nat)
    requires Inv(s) && c < |s.callers|
    ensures Shape(s) && CallerOk(s.log, s.calls, s.callers[c], c, |s.workers|)
    ensures HasLock(s.callers[c].at) <==> s.enqueueOwner == c
    ensures var p := s.callers[c];
      !p.at.Out? ==> Pooled(s.calls[p.job].job) && CanCall(s.calls[p.job].job, |s.workers|)
  {
    var p := s.callers[c];
    assert CallerOk(s.log, s.calls, p, c, |s.workers|);
    if !p.at.Out? {
      assert CallOk(s.log, s.calls, s.callers, |s.workers|, p.job);
    }
  }

  ghost predicate EnqueueSideOk(callers: seq<Caller>, enqueueOwner: int, enqueuePosition: nat, length: nat) {
    && -1 <= enqueueOwner < |callers|
    && (forall c :: 0 <= c < |callers| ==> (HasLock(callers[c].at) <==> enqueueOwner == c))
    && enqueuePosition == SlotOf(length + if TakenNow(callers, enqueueOwner) then 1 else 0)
  }

  lemma OthersFollow(s: State, c: nat, p: Caller)
    requires Inv(s) && c < |s.callers| && !s.callers[c].at.Out? && !p.at.Out? && p.job == s.callers[c].job
    requires CallerOk(s.log, s.calls, p, c, |s.workers|)
    requires Enqueuing(s.callers[c].at) && p.job < |s.calls| && !Enqueuing(p.at) ==>
      s.calls[p.job].first + NFrags(s.calls, p.job, |s.workers|) <= |s.log|
    ensures CallsOk(s.log, s.calls, s.callers[c := p], |s.workers|)
    ensures CallersOk(s.log, s.calls, s.callers[c := p], |s.workers|)
  {
    var callers := s.callers[c := p];
    forall j | 0 <= j < |s.calls|
      ensures CallOk(s.log, s.calls, callers, |s.workers|, j)
    {
      assert CallOk(s.log, s.calls, s.callers, |s.workers|, j);
    }
    forall i | 0 <= i < |callers|
      ensures CallerOk(s.log, s.calls, callers[i], i, |s.workers|)
    {
      assert CallerOk(s.log, s.calls, s.callers[i], i, |s.workers|);
    }
  }

  /** A step that changes only the caller, the enqueue mutex and position, and events. */
  lemma LocalCallerStep(s: State, s': State, c: nat, p: Caller)
    requires Inv(s) && c < |s.callers| && !s.callers[c].at.Out? && !p.at.Out? && p.job == s.callers[c].job
    requires CallerOk(s.log, s.calls, p, c, |s.workers|)
    requires Enqueuing(s.callers[c].at) && p.job < |s.calls| && !Enqueuing(p.at) ==>
      s.calls[p.job].first + NFrags(s.calls, p.job, |s.workers|) <= |s.log|
    requires !PendingNow(s.callers, s.enqueueOwner) && !PendingNow(s'.callers, s'.enqueueOwner)
    requires EnqueueSideOk(s'.callers, s'.enqueueOwner, s'.enqueuePosition, |s.log|)
    requires s' == s.(callers := s.callers[c := p], enqueueOwner := s'.enqueueOwner,
      enqueuePosition := s'.enqueuePosition, readyEvent := s'.readyEvent, freeEvent := s'.freeEvent)
    ensures Inv(s')
  {
    OthersFollow(s, c, p);
  }

  /** The same when the mutex stays with this caller. */
  lemma LockedStep(s: State, c: nat, p: Caller)
    requires Inv(s) && c < |s.callers| && p.job == s.callers[c].job
    requires CallerOk(s.log, s.calls, p, c, |s.workers|)
    requires HasLock(s.callers[c].at) && !s.callers[c].at.Publish? && HasLock(p.at) && !p.at.Publish?
    requires Taken(p.at) == Taken(s.callers[c].at)
    requires Enqueuing(s.callers[c].at) && p.job < |s.calls| && !Enqueuing(p.at) ==>
      s.calls[p.job].first + NFrags(s.calls, p.job, |s.workers|) <= |s.log|
    ensures Inv(PutC(s, c, p))
  {
    assert EnqueueSideOk(s.callers, s.enqueueOwner, s.enqueuePosition, |s.log|);
    LocalCallerStep(s, PutC(s, c, p), c, p);
  }

  lemma KeepLockData(s: State, c: nat)
    requires Inv(s) && InBounds(s) && c < |s.callers| && s.callers[c].at == Lock && CallerCanStep(s, c)
    requires s.calls[s.callers[c].job].job.Crypt?
    ensures Inv(CallerLock(s, c))
  {
    CallerFact(s, c);
    LocalCallerStep(s, CallerLock(s, c), c, s.callers[c].(at := PickFirst));
  }

  lemma KeepPickFirst(s: State, c: nat)
    requires Inv(s) && c < |s.callers| && s.callers[c].at == PickFirst
    ensures Inv(CallerPickFirst(s, c))
  {
    CallerFact(s, c);
    assert s.enqueuePosition == SlotOf(|s.log|);
    LockedStep(s, c, s.callers[c].(at := PollFirst, first := s.enqueuePosition));
  }

  /** The next slot is seen Free only when its previous ticket was freed. */
  lemma FreeIsFreed(s: State)
    requires Inv(s) && s.slots[SlotOf(|s.log|)].state == Free
    ensures NextSlotFree(s.log)
  {
    if |s.log| >= QUEUE_SIZE {
      var t := |s.log| - QUEUE_SIZE;
      assert SlotStateOk(s.slots, s.log, t);
    }
  }

  lemma KeepPollFirst(s: State, c: nat)
    requires Inv(s) && InBounds(s) && c < |s.callers| && s.callers[c].at == PollFirst
    ensures Inv(CallerPollFirst(s, c))
  {
    hide Inv;
    var p := s.callers[c];
    CallerFact(s, c);
    if s.slots[p.first].state == Free {
      FreeIsFreed(s);
    }
    LockedStep(s, c, p.(at := if s.slots[p.first].state == Free then SetCount else WaitFirst));
  }

  lemma KeepWaitFirst(s: State, c: nat)
    requires Inv(s) && c < |s.callers| && s.callers[c].at == WaitFirst
    ensures Inv(CallerWaitFirst(s, c))
  {
    hide Inv;
    CallerFact(s, c);
    LockedStep(s, c, s.callers[c].(at := PollFirst));
    SetEvents(PutC(s, c, s.callers[c].(at := PollFirst)), s.readyEvent, false);
  }

  lemma LoopTakeOk(s: State, c: nat)
    requires Inv(s) && c < |s.callers| && s.callers[c].at == Loop && s.callers[c].left > 0
    ensures var s' := CallerLoop(s, c);
      EnqueueSideOk(s'.callers, s'.enqueueOwner, s'.enqueuePosition, |s.log|) && s.enqueuePosition == SlotOf(|s.log|)
  {
    BumpIsNext(|s.log|);
  }

  lemma KeepLoopTake(s: State, c: nat)
    requires Inv(s) && c < |s.callers| && s.callers[c].at == Loop && s.callers[c].left > 0
    ensures Inv(CallerLoop(s, c))
  {
    hide Inv, EnqueueSideOk;
    var p := s.callers[c];
    CallerFact(s, c);
    LoopTakeOk(s, c);
    LocalCallerStep(s, CallerLoop(s, c), c, p.(at := PollSlot, slot := s.enqueuePosition, left := p.left - 1));
  }

  lemma KeepLoopEnd(s: State, c: nat)
    requires Inv(s) && c < |s.callers| && s.callers[c].at == Loop && s.callers[c].left == 0
    ensures Inv(CallerLoop(s, c))
  {
    hide Inv;
    CallerFact(s, c);
    LockedStep(s, c, s.callers[c].(at := Release));
  }

  lemma KeepPollSlot(s: State, c: nat)
    requires Inv(s) && InBounds(s) && c < |s.callers| && s.callers[c].at == PollSlot
    ensures Inv(CallerPollSlot(s, c))
  {
    hide Inv;
    var p := s.callers[c];
    CallerFact(s, c);
    if s.slots[p.slot].state == Free {
      FreeIsFreed(s);
    }
    LockedStep(s, c, p.(at := if s.slots[p.slot].state == Free then Fill else WaitSlot));
  }

  lemma KeepWaitSlot(s: State, c: nat)
    requires Inv(s) && c < |s.callers| && s.callers[c].at == WaitSlot
    ensures Inv(CallerWaitSlot(s, c))
  {
    hide Inv;
    CallerFact(s, c);
    LockedStep(s, c, s.callers[c].(at := PollSlot));
    SetEvents(PutC(s, c, s.callers[c].(at := PollSlot)), s.readyEvent, false);
  }

  lemma KeepSignal(s: State, c: nat)
    requires Inv(s) && c < |s.callers| && s.callers[c].at == Signal
    ensures Inv(CallerSignal(s, c))
  {
    hide Inv;
    CallerFact(s, c);
    LockedStep(s, c, s.callers[c].(at := Loop));
    SetEvents(PutC(s, c, s.callers[c].(at := Loop)), true, s.freeEvent);
  }

  /** A whole batch is published while its first slot is still the caller's. */
  lemma BatchInWindow(s: State, c: nat)
    requires Inv(s) && c < |s.callers| && s.callers[c].at == Release && s.callers[c].job < |s.calls|
    requires s.calls[s.callers[c].job].job.Crypt?
    ensures var f := s.calls[s.callers[c].job].first; f < |s.log| && !s.log[f].freed
  {
    var p := s.callers[c];
    CallerFact(s, c);
    FirstTicket(s, p.job);
    TicketFact(s, s.calls[p.job].first);
  }

  lemma KeepReleaseData(s: State, c: nat)
    requires Inv(s) && InBounds(s) && c < |s.callers| && s.callers[c].at == Release
    requires s.calls[s.callers[c].job].job.Crypt?
    ensures Inv(CallerRelease(s, c))
  {
    CallerFact(s, c);
    BatchInWindow(s, c);
    LocalCallerStep(s, CallerRelease(s, c), c, s.callers[c].(at := WaitDone));
  }

  // ----- A call gets its first queue position -----

  ghost predicate SameJobs(calls: seq<Call>, calls': seq<Call>) {
    && |calls'| == |calls|
    && forall j :: 0 <= j < |calls| ==> calls'[j].job == calls[j].job
  }

  lemma JobsWorkers(s: State, calls': seq<Call>)
    requires Inv(s) && SameJobs(s.calls, calls')
    ensures WorkersOk(s.log, calls', s.claimed, s.workers)
  {
    forall w | 0 <= w < |s.workers|
      ensures WorkerOk(s.log, calls', s.claimed, s.workers[w], w, |s.workers|)
    {
      assert WorkerOk(s.log, s.calls, s.claimed, s.workers[w], w, |s.workers|);
    }
  }

  lemma JobsMemory(s: State, calls': seq<Call>)
    requires Inv(s) && SameJobs(s.calls, calls')
    ensures MemShape(s.mem, calls') && MemTickets(s.mem, calls', s.log, s.workers)
  {
    forall t | 0 <= t < |s.log|
      ensures MemTicket(s.mem, calls', s.log, s.workers, t)
    {
      assert MemTicket(s.mem, s.calls, s.log, s.workers, t);
    }
  }

  lemma JobsContents(s: State, calls': seq<Call>, slots': seq<Slot>)
    requires Inv(s) && SameJobs(s.calls, calls')
    requires |slots'| == QUEUE_SIZE
    requires forall i :: 0 <= i < QUEUE_SIZE ==> slots'[i].work == s.slots[i].work && slots'[i].first == s.slots[i].first
    ensures SlotContents(slots', s.log, calls', |s.workers|, PendingNow(s.callers, s.enqueueOwner))
  {
    forall t
      ensures SlotContentOk(slots', s.log, calls', |s.workers|, PendingNow(s.callers, s.enqueueOwner), t)
    {
      assert SlotContentOk(s.slots, s.log, s.calls, |s.workers|, PendingNow(s.callers, s.enqueueOwner), t);
    }
  }

  lemma JobsBounds(s: State, calls': seq<Call>, slots': seq<Slot>)
    requires Inv(s) && SameJobs(s.calls, calls')
    requires |slots'| == QUEUE_SIZE
    requires forall i :: 0 <= i < QUEUE_SIZE ==> slots'[i].work == s.slots[i].work && slots'[i].first == s.slots[i].first
    ensures Shape(s.(calls := calls', slots := slots')) && BoundsOk(s.(calls := calls', slots := slots'))
  {
    forall i | 0 <= i < QUEUE_SIZE
      ensures slots'[i].first < QUEUE_SIZE && WorkInBounds(s.mem, calls', slots'[i].work)
    {
      assert WorkInBounds(s.mem, s.calls, s.slots[i].work);
    }
    forall w | 0 <= w < |s.workers|
      ensures WorkInBounds(s.mem, calls', s.workers[w].work)
    {
      assert WorkInBounds(s.mem, s.calls, s.workers[w].work);
    }
  }

  function BegunCalls(s: State, j: nat): seq<Call>
    requires j < |s.calls|
  {
    s.calls[j := s.calls[j].(begun := true, first := |s.log|)]
  }

  lemma BegunTickets(s: State, j: nat)
    requires Inv(s) && j < |s.calls| && !s.calls[j].begun
    ensures TicketsOk(s.log, BegunCalls(s, j), s.claimed, s.workers)
    ensures CallTickets(s.log, BegunCalls(s, j), |s.workers|)
  {
    var calls' := BegunCalls(s, j);
    forall t | 0 <= t < |s.log|
      ensures TicketOk(s.log, calls', s.claimed, s.workers, t)
    {
      assert TicketOk(s.log, s.calls, s.claimed, s.workers, t);
    }
    forall i, t | 0 <= i < |calls'| && Owns(calls', i, t, |s.workers|) && t < |s.log|
      ensures s.log[t].job == i && s.log[t].index == t - calls'[i].first
    {
      assert Owns(s.calls, i, t, |s.workers|);
    }
  }

  lemma BegunRest(s: State, j: nat)
    requires Inv(s) && j < |s.calls| && !s.calls[j].begun
    ensures MemShape(s.mem, BegunCalls(s, j)) && MemRest(s.mem, BegunCalls(s, j), s.log, |s.workers|)
  {
    var calls' := BegunCalls(s, j);
    assert MemShape(s.mem, calls');
    forall i | 0 <= i < |calls'|
      ensures MemUnpublished(s.mem, calls', s.log, |s.workers|, i)
    {
      assert MemUnpublished(s.mem, s.calls, s.log, |s.workers|, i);
    }
  }

  /** The caller is fine once its call has begun. */
  ghost predicate BeginsOk(s: State, c: nat, p: Caller) {
    && Shape(s) && c < |s.callers| && p.job < |s.calls| && !s.calls[p.job].begun
    && p.at.Loop? && !s.callers[c].at.Out? && !Enqueuing(s.callers[c].at)
    && p.job == s.callers[c].job && s.calls[p.job].caller == c
    && CallerOk(s.log, BegunCalls(s, p.job), p, c, |s.workers|)
  }

  lemma BegunCallsOk(s: State, c: nat, p: Caller)
    requires Inv(s) && BeginsOk(s, c, p)
    ensures CallsOk(s.log, BegunCalls(s, p.job), s.callers[c := p], |s.workers|)
  {
    var calls', callers' := BegunCalls(s, p.job), s.callers[c := p];
    CallerFact(s, c);
    forall i | 0 <= i < |calls'|
      ensures CallOk(s.log, calls', callers', |s.workers|, i)
    {
      CallFact(s, i);
    }
  }

  lemma BegunCallersOk(s: State, c: nat, p: Caller)
    requires Inv(s) && BeginsOk(s, c, p)
    ensures CallersOk(s.log, BegunCalls(s, p.job), s.callers[c := p], |s.workers|)
  {
    var calls', callers' := BegunCalls(s, p.job), s.callers[c := p];
    forall i | 0 <= i < |callers'|
      ensures CallerOk(s.log, calls', callers'[i], i, |s.workers|)
    {
      assert CallerOk(s.log, s.calls, s.callers[i], i, |s.workers|);
    }
  }

  lemma {:induction false} CountNone(log: seq<Ticket>, first: nat, n: nat)
    requires first >= |log|
    ensures CountDone(log, first, n) == 0
  {
    if n > 0 {
      CountNone(log, first, n - 1);
    }
  }

  function WithBegun(s: State, c: nat, p: Caller, slots': seq<Slot>): State
    requires c < |s.callers| && p.job < |s.calls|
  {
    s.(callers := s.callers[c := p], calls := BegunCalls(s, p.job), slots := slots', enqueueOwner := c)
  }

  /** Only counters differ. */
  ghost predicate CountersOnly(slots: seq<Slot>, slots': seq<Slot>) {
    && |slots'| == |slots|
    && forall i :: 0 <= i < |slots| ==> slots'[i] == slots[i].(outstanding := slots'[i].outstanding)
  }

  ghost predicate TakesLock(s: State, c: nat)
    requires c < |s.callers|
  {
    s.enqueueOwner == c || (s.enqueueOwner == -1 && s.callers[c].at.Lock?)
  }

  lemma BeginSurroundings(s: State, c: nat, p: Caller, slots': seq<Slot>)
    requires Inv(s) && BeginsOk(s, c, p) && TakesLock(s, c) && CountersOnly(s.slots, slots')
    ensures Surroundings(WithBegun(s, c, p, slots'))
  {
    JobsBounds(s, BegunCalls(s, p.job), slots');
  }

  lemma BeginSlots(s: State, c: nat, p: Caller, slots': seq<Slot>)
    requires Inv(s) && BeginsOk(s, c, p) && TakesLock(s, c) && CountersOnly(s.slots, slots')
    ensures SlotStates(slots', s.log)
    ensures SlotContents(slots', s.log, BegunCalls(s, p.job), |s.workers|, PendingNow(s.callers[c := p], c))
  {
    JobsContents(s, BegunCalls(s, p.job), slots');
    forall t
      ensures SlotStateOk(slots', s.log, t)
    {
      assert SlotStateOk(s.slots, s.log, t);
    }
  }

  lemma BeginStep(s: State, c: nat, p: Caller, slots': seq<Slot>)
    requires Inv(s) && BeginsOk(s, c, p) && TakesLock(s, c) && CountersOnly(s.slots, slots')
    requires Counts(slots', s.log, BegunCalls(s, p.job), |s.workers|)
    ensures Inv(WithBegun(s, c, p, slots'))
  {
    hide Inv, Surroundings, CallerOk, Counts;
    var calls' := BegunCalls(s, p.job);
    BeginSurroundings(s, c, p, slots');
    JobsWorkers(s, calls');
    JobsMemory(s, calls');
    BeginSlots(s, c, p, slots');
    BegunTickets(s, p.job);
    BegunRest(s, p.job);
    BegunCallsOk(s, c, p);
    BegunCallersOk(s, c, p);
    Assembled(WithBegun(s, c, p, slots'));
  }

  /** A key derivation has no counter. */
  lemma KeyCounts(s: State, j: nat)
    requires Inv(s) && j < |s.calls| && s.calls[j].job.Derive?
    ensures Counts(s.slots, s.log, BegunCalls(s, j), |s.workers|)
  {
    var calls' := BegunCalls(s, j);
    forall i | 0 <= i < |calls'|
      ensures CountOk(s.slots, s.log, calls', |s.workers|, i)
    {
      CountFact(s, i);
    }
  }

  lemma KeepLockKey(s: State, c: nat)
    requires Inv(s) && InBounds(s) && c < |s.callers| && s.callers[c].at == Lock && CallerCanStep(s, c)
    requires s.calls[s.callers[c].job].job.Derive?
    ensures Inv(CallerLock(s, c))
  {
    hide Inv, Counts;
    var p := s.callers[c];
    CallerFact(s, c);
    KeyCounts(s, p.job);
    BeginStep(s, c, p.(at := Loop), s.slots);
  }

  /** The slot for a new job's counter is not another unfinished job's first slot. */
  lemma FreshFirstSlot(s: State, i: nat)
    requires Inv(s) && NextSlotFree(s.log) && 0 <= s.enqueueOwner < |s.callers| && !Enqueuing(s.callers[s.enqueueOwner].at)
    requires i < |s.calls| && s.calls[i].begun && s.calls[i].job.Crypt?
    requires s.calls[i].first < |s.log| ==> !s.log[s.calls[i].first].freed
    ensures SlotOf(s.calls[i].first) != SlotOf(|s.log|)
  {
    var f := s.calls[i].first;
    CallFact(s, i);
    CallerFact(s, s.calls[i].caller);
    if f < |s.log| {
      UnfreedInWindow(s, f);
      SlotsDiffer(f, |s.log|);
    }
  }

  lemma NewCounts(s: State, c: nat, j: nat, slots': seq<Slot>)
    requires Inv(s) && c < |s.callers| && s.callers[c].at.SetCount? && s.callers[c].job == j && j < |s.calls|
    requires |slots'| == QUEUE_SIZE
    requires slots'[SlotOf(|s.log|)].outstanding == NFrags(s.calls, j, |s.workers|)
    requires forall i :: 0 <= i < QUEUE_SIZE && i != SlotOf(|s.log|) ==> slots'[i] == s.slots[i]
    ensures Counts(slots', s.log, BegunCalls(s, j), |s.workers|)
  {
    hide Inv;
    var calls' := BegunCalls(s, j);
    CallerFact(s, c);
    forall i | 0 <= i < |calls'|
      ensures CountOk(slots', s.log, calls', |s.workers|, i)
    {
      CountFact(s, i);
      if i == j {
        CountNone(s.log, |s.log|, NFrags(s.calls, j, |s.workers|));
      } else if s.calls[i].begun && s.calls[i].job.Crypt? {
        if s.calls[i].first < |s.log| ==> !s.log[s.calls[i].first].freed { FreshFirstSlot(s, i); }
      }
    }
  }

  lemma KeepSetCount(s: State, c: nat)
    requires Inv(s) && InBounds(s) && c < |s.callers| && s.callers[c].at == SetCount
    ensures Inv(CallerSetCount(s, c))
  {
    hide Inv, Counts;
    var p := s.callers[c];
    CallerFact(s, c);
    var slots' := s.slots[p.first := s.slots[p.first].(outstanding := p.left)];
    NewCounts(s, c, p.job, slots');
    BeginStep(s, c, p.(at := Loop), slots');
  }

  // ----- Writing a work item -----

  /** The local variables move on to the next fragment; the 32-bit byte step does not wrap. */
  lemma NextVars(p: Caller, p': Caller, job: Job, threads: nat, k: nat)
    requires threads > 0 && job.Crypt? && CanCall(job, threads) && k < Frags(job, threads) && LoopVars(p, job, threads, k)
    requires p'.offset == p.offset + p.per % POINTER_STEP_UNITS && p'.unitNo == Advance(p.unitNo, p.per)
    requires p'.per == (if p.remainder == 1 && p.per > 0 then p.per - 1 else p.per)
    requires p'.remainder == (if p.remainder > 0 then p.remainder - 1 else 0)
    ensures LoopVars(p', job, threads, k + 1)
  {
    AdvanceAdd(job.start, p.offset, p.per);
  }

  lemma FilledOk(log: seq<Ticket>, calls: seq<Call>, p: Caller, p': Caller, c: nat, threads: nat)
    requires threads > 0 && p.at.Fill? && CallerOk(log, calls, p, c, threads)
    requires p' == p.(at := Publish, offset := p'.offset, unitNo := p'.unitNo, per := p'.per, remainder := p'.remainder)
    requires LoopVars(p', calls[p.job].job, threads, |log| - calls[p.job].first + 1)
    ensures CallerOk(log, calls, p', c, threads)
  {
  }

  lemma FilledCaller(s: State, c: nat)
    requires Inv(s) && InBounds(s) && c < |s.callers| && s.callers[c].at == Fill
    ensures var p' := CallerFill(s, c).callers[c]; p'.at.Publish? && CallerOk(s.log, s.calls, p', c, |s.workers|)
  {
    hide Inv;
    var p := s.callers[c];
    CallerFact(s, c);
    var p' := CallerFill(s, c).callers[c];
    var job := s.calls[p.job].job;
    if job.Crypt? {
      NextVars(p, p', job, |s.workers|, |s.log| - s.calls[p.job].first);
    }
    FilledOk(s.log, s.calls, p, p', c, |s.workers|);
  }

  /** The slot written is that of the next ticket and holds the next fragment. */
  lemma FilledSlot(s: State, c: nat)
    requires Inv(s) && InBounds(s) && c < |s.callers| && s.callers[c].at == Fill
    ensures var p := s.callers[c];
      var slot := CallerFill(s, c).slots[p.slot];
      && NextSlotFree(s.log) && p.slot == SlotOf(|s.log|) && s.calls[p.job].first <= |s.log|
      && CallerFill(s, c).slots == s.slots[p.slot := slot]
      && slot == s.slots[p.slot].(work := slot.work, first := slot.first)
      && SlotHolds(slot, s.calls, p.job, |s.log| - s.calls[p.job].first, s.calls[p.job].first, |s.workers|)
      && slot.first < QUEUE_SIZE
  {
    hide Inv;
    CallerFact(s, c);
  }

  lemma FilledBounds(s: State, c: nat)
    requires Inv(s) && InBounds(s) && c < |s.callers| && s.callers[c].at == Fill
    ensures var p := s.callers[c]; WorkInBounds(s.mem, s.calls, CallerFill(s, c).slots[p.slot].work)
  {
    var p := s.callers[c];
    CallerFact(s, c);
    var job := s.calls[p.job].job;
    if job.Crypt? {
      FragmentFits(|job.data|, |s.workers|, |s.log| - s.calls[p.job].first);
    }
  }

  /** The slot of the next ticket is written; it is nobody's any more. */
  ghost predicate WritesNext(s: State, slots': seq<Slot>, slot: Slot)
    requires Shape(s)
  {
    && NextSlotFree(s.log)
    && slot == s.slots[SlotOf(|s.log|)].(work := slot.work, first := slot.first)
    && slots' == s.slots[SlotOf(|s.log|) := slot]
  }

  lemma FilledSlots(s: State, slots': seq<Slot>, slot: Slot)
    requires Inv(s) && WritesNext(s, slots', slot) && !PendingNow(s.callers, s.enqueueOwner)
    ensures SlotStates(slots', s.log)
    ensures SlotContents(slots', s.log, s.calls, |s.workers|, true)
  {
    forall t
      ensures SlotStateOk(slots', s.log, t)
      ensures SlotContentOk(slots', s.log, s.calls, |s.workers|, true, t)
    {
      assert SlotStateOk(s.slots, s.log, t);
      assert SlotContentOk(s.slots, s.log, s.calls, |s.workers|, false, t);
      if InWindow(s.log, t) && t + QUEUE_SIZE != |s.log| {
        SlotsDiffer(t, |s.log|);
      }
    }
  }

  lemma FilledCounts(s: State, slots': seq<Slot>, slot: Slot)
    requires Inv(s) && WritesNext(s, slots', slot)
    ensures Counts(slots', s.log, s.calls, |s.workers|)
  {
    forall j | 0 <= j < |s.calls|
      ensures CountOk(slots', s.log, s.calls, |s.workers|, j)
    {
      CountFact(s, j);
    }
  }

  lemma FilledSurroundings(s: State, c: nat, p: Caller, slots': seq<Slot>, slot: Slot)
    requires Inv(s) && WritesNext(s, slots', slot) && c < |s.callers|
    requires s.callers[c].at.Fill? && p.at.Publish? && p.job == s.callers[c].job && p.job < |s.calls|
    requires s.calls[p.job].first <= |s.log|
    requires SlotHolds(slot, s.calls, p.job, |s.log| - s.calls[p.job].first, s.calls[p.job].first, |s.workers|)
    requires slot.first < QUEUE_SIZE && WorkInBounds(s.mem, s.calls, slot.work)
    ensures Surroundings(s.(callers := s.callers[c := p], slots := slots'))
    ensures PendingNow(s.callers[c := p], s.enqueueOwner) && !PendingNow(s.callers, s.enqueueOwner)
  {
    assert EnqueueSideOk(s.callers, s.enqueueOwner, s.enqueuePosition, |s.log|);
  }

  lemma WorldFacts(s: State)
    requires Inv(s)
    ensures Shape(s) && MemShape(s.mem, s.calls)
    ensures WorkersOk(s.log, s.calls, s.claimed, s.workers)
    ensures TicketsOk(s.log, s.calls, s.claimed, s.workers)
    ensures CallTickets(s.log, s.calls, |s.workers|)
    ensures MemTickets(s.mem, s.calls, s.log, s.workers)
    ensures MemRest(s.mem, s.calls, s.log, |s.workers|)
  {
  }

  lemma KeepFill(s: State, c: nat)
    requires Inv(s) && InBounds(s) && c < |s.callers| && s.callers[c].at == Fill
    ensures Inv(CallerFill(s, c))
  {
    hide Inv, CallerOk, Surroundings, TicketsOk, WorkersOk, MemTickets, MemRest, CallTickets, Counts, SlotStates, SlotContents;
    var p' := CallerFill(s, c).callers[c];
    FilledCaller(s, c);
    FilledSlot(s, c);
    FilledBounds(s, c);
    var slot := CallerFill(s, c).slots[p'.slot];
    var slots' := CallerFill(s, c).slots;
    FilledSurroundings(s, c, p', slots', slot);
    FilledSlots(s, slots', slot);
    FilledCounts(s, slots', slot);
    OthersFollow(s, c, p');
    WorldFacts(s);
    Assembled(CallerFill(s, c));
  }

  // ----- Publishing a work item: its slot becomes Ready -----

  ghost predicate Publishes(s: State, c: nat, tk: Ticket) {
    && Shape(s) && c < |s.callers| && s.callers[c].at.Publish? && s.enqueueOwner == c
    && s.callers[c].job < |s.calls|
    && var call := s.calls[s.callers[c].job];
    && call.begun && call.first <= |s.log| && !call.returned && call.caller == c
    && tk == Ticket(s.callers[c].job, |s.log| - call.first, Unclaimed, 0, false, false, Running)
    && tk.index < Frags(call.job, |s.workers|)
    && s.callers[c].slot == SlotOf(|s.log|)
    && NextSlotFree(s.log)
  }

  lemma PublishFacts(s: State, c: nat)
    requires Inv(s) && InBounds(s) && c < |s.callers| && s.callers[c].at == Publish
    ensures var s' := CallerPublish(s, c);
      && |s'.log| == |s.log| + 1 && s'.log == s.log + [s'.log[|s.log|]]
      && Publishes(s, c, s'.log[|s.log|])
  {
    hide Inv;
    CallerFact(s, c);
  }

  lemma PublishedWorkers(s: State, c: nat, tk: Ticket)
    requires Inv(s) && Publishes(s, c, tk)
    ensures WorkersOk(s.log + [tk], s.calls, s.claimed, s.workers)
  {
    var log' := s.log + [tk];
    forall w | 0 <= w < |s.workers|
      ensures WorkerOk(log', s.calls, s.claimed, s.workers[w], w, |s.workers|)
    {
      assert WorkerOk(s.log, s.calls, s.claimed, s.workers[w], w, |s.workers|);
    }
  }

  lemma PublishedTickets(s: State, c: nat, tk: Ticket)
    requires Inv(s) && Publishes(s, c, tk)
    ensures TicketsOk(s.log + [tk], s.calls, s.claimed, s.workers)
  {
    var log' := s.log + [tk];
    forall t | 0 <= t < |log'|
      ensures TicketOk(log', s.calls, s.claimed, s.workers, t)
    {
      if t < |s.log| { TicketFact(s, t); }
    }
  }

  /** Only the call that holds the enqueue mutex can get the next ticket. */
  lemma NextIsMine(s: State, c: nat, tk: Ticket, i: nat)
    requires Inv(s) && Publishes(s, c, tk) && i < |s.calls| && Owns(s.calls, i, |s.log|, |s.workers|)
    ensures i == tk.job
  {
    CallFact(s, i);
  }

  lemma PublishedCalls(s: State, c: nat, tk: Ticket)
    requires Inv(s) && Publishes(s, c, tk)
    ensures CallTickets(s.log + [tk], s.calls, |s.workers|)
    ensures CallsOk(s.log + [tk], s.calls, s.callers[c := s.callers[c].(at := Signal)], |s.workers|)
  {
    var log', callers' := s.log + [tk], s.callers[c := s.callers[c].(at := Signal)];
    forall i, t | 0 <= i < |s.calls| && Owns(s.calls, i, t, |s.workers|) && t < |log'|
      ensures log'[t].job == i && log'[t].index == t - s.calls[i].first
    {
      if t == |s.log| { NextIsMine(s, c, tk, i); }
    }
    forall i | 0 <= i < |s.calls|
      ensures CallOk(log', s.calls, callers', |s.workers|, i)
    {
      CallFact(s, i);
    }
  }

  lemma PublishedOther(log: seq<Ticket>, calls: seq<Call>, p: Caller, c: nat, threads: nat, tk: Ticket)
    requires threads > 0 && CallerOk(log, calls, p, c, threads) && !HasLock(p.at)
    requires p.at.WaitDone? || p.at.FreeFirst? || p.at.SignalDone? ==> calls[p.job].first < |log|
    ensures CallerOk(log + [tk], calls, p, c, threads)
  {
  }

  lemma PublishedMine(log: seq<Ticket>, calls: seq<Call>, p: Caller, c: nat, threads: nat, tk: Ticket)
    requires threads > 0 && CallerOk(log, calls, p, c, threads) && p.at.Publish?
    requires tk.phase.Running?
    ensures CallerOk(log + [tk], calls, p.(at := Signal), c, threads)
  {
  }

  lemma PublishedCallers(s: State, c: nat, tk: Ticket)
    requires Inv(s) && Publishes(s, c, tk)
    ensures CallersOk(s.log + [tk], s.calls, s.callers[c := s.callers[c].(at := Signal)], |s.workers|)
  {
    hide Inv, CallerOk;
    var log', callers' := s.log + [tk], s.callers[c := s.callers[c].(at := Signal)];
    forall i | 0 <= i < |callers'|
      ensures CallerOk(log', s.calls, callers'[i], i, |s.workers|)
    {
      CallerFact(s, i);
      if i == c {
        PublishedMine(s.log, s.calls, s.callers[c], c, |s.workers|, tk);
      } else {
        WaitingHasFirst(s, i);
        PublishedOther(s.log, s.calls, s.callers[i], i, |s.workers|, tk);
      }
    }
  }

  lemma WaitingHasFirst(s: State, c: nat)
    requires Inv(s) && c < |s.callers|
    ensures s.callers[c].at.WaitDone? || s.callers[c].at.FreeFirst? || s.callers[c].at.SignalDone? ==>
      s.callers[c].job < |s.calls| && s.calls[s.callers[c].job].first < |s.log|
  {
    CallerFact(s, c);
  }

  /** A freed ticket's event was consumed, or it never had one. */
  lemma NextNotCompleted(s: State)
    requires Inv(s) && NextSlotFree(s.log)
    ensures Shape(s) && !s.slots[SlotOf(|s.log|)].completed
  {
    var t := |s.log| - QUEUE_SIZE;
    if t >= 0 {
      SlotFact(s, t);
      TicketFact(s, t);
    }
  }

  lemma PublishedSlot(s: State, c: nat, tk: Ticket, slots': seq<Slot>, t: int)
    requires Inv(s) && Publishes(s, c, tk)
    requires slots' == s.slots[SlotOf(|s.log|) := s.slots[SlotOf(|s.log|)].(state := Ready)]
    ensures SlotStateOk(slots', s.log + [tk], t)
    ensures SlotContentOk(slots', s.log + [tk], s.calls, |s.workers|, false, t)
  {
    SlotFact(s, t);
    if t == |s.log| {
      NextNotCompleted(s);
    } else if InWindow(s.log + [tk], t) {
      SlotsDiffer(t, |s.log|);
    }
  }

  lemma PublishedSlots(s: State, c: nat, tk: Ticket, slots': seq<Slot>)
    requires Inv(s) && Publishes(s, c, tk)
    requires slots' == s.slots[SlotOf(|s.log|) := s.slots[SlotOf(|s.log|)].(state := Ready)]
    ensures SlotStates(slots', s.log + [tk])
    ensures SlotContents(slots', s.log + [tk], s.calls, |s.workers|, false)
  {
    var log' := s.log + [tk];
    forall t
      ensures SlotStateOk(slots', log', t)
      ensures SlotContentOk(slots', log', s.calls, |s.workers|, false, t)
    {
      PublishedSlot(s, c, tk, slots', t);
    }
  }

  lemma PublishedCounts(s: State, c: nat, tk: Ticket, slots': seq<Slot>)
    requires Inv(s) && Publishes(s, c, tk) && SameWork(s.slots, slots')
    ensures Counts(slots', s.log + [tk], s.calls, |s.workers|)
  {
    hide Inv;
    var log' := s.log + [tk];
    CountFrames(s.log, log');
    forall i | 0 <= i < |s.calls|
      ensures CountOk(slots', log', s.calls, |s.workers|, i)
    {
      CountFact(s, i);
      CallFact(s, i);
      if s.calls[i].begun && s.calls[i].first == |s.log| {
        CountNone(s.log, |s.log|, NFrags(s.calls, i, |s.workers|));
      }
    }
  }

  lemma PublishedMemory(s: State, c: nat, tk: Ticket)
    requires Inv(s) && Publishes(s, c, tk)
    ensures MemShape(s.mem, s.calls) && MemTickets(s.mem, s.calls, s.log + [tk], s.workers)
  {
    var log' := s.log + [tk];
    CallFact(s, tk.job);
    forall t | 0 <= t < |log'|
      ensures MemTicket(s.mem, s.calls, log', s.workers, t)
    {
      if t < |s.log| {
        assert MemTicket(s.mem, s.calls, s.log, s.workers, t);
      } else {
        assert MemUnpublished(s.mem, s.calls, s.log, |s.workers|, tk.job);
      }
    }
  }

  lemma PublishedRest(s: State, c: nat, tk: Ticket)
    requires Inv(s) && Publishes(s, c, tk)
    ensures MemShape(s.mem, s.calls) && MemRest(s.mem, s.calls, s.log + [tk], |s.workers|)
  {
    var log' := s.log + [tk];
    forall j | 0 <= j < |s.calls|
      ensures MemUnpublished(s.mem, s.calls, log', |s.workers|, j)
    {
      assert MemUnpublished(s.mem, s.calls, s.log, |s.workers|, j);
      CallFact(s, j);
    }
  }

  lemma PublishedSurroundings(s: State, c: nat, tk: Ticket, slots': seq<Slot>)
    requires Inv(s) && Publishes(s, c, tk) && SameWork(s.slots, slots')
    ensures var callers' := s.callers[c := s.callers[c].(at := Signal)];
      && Surroundings(s.(callers := callers', log := s.log + [tk], slots := slots'))
      && !PendingNow(callers', s.enqueueOwner)
  {
  }

  lemma KeepPublish(s: State, c: nat)
    requires Inv(s) && InBounds(s) && c < |s.callers| && s.callers[c].at == Publish
    ensures Inv(CallerPublish(s, c))
  {
    hide Inv, CallerOk, Surroundings, TicketsOk, WorkersOk, MemTickets, MemRest, CallTickets, Counts, SlotStates, SlotContents;
    PublishFacts(s, c);
    var s' := CallerPublish(s, c);
    var tk := s'.log[|s.log|];
    PublishedSurroundings(s, c, tk, s'.slots);
    PublishedWorkers(s, c, tk);
    PublishedTickets(s, c, tk);
    PublishedCalls(s, c, tk);
    PublishedCallers(s, c, tk);
    PublishedSlots(s, c, tk, s'.slots);
    PublishedCounts(s, c, tk, s'.slots);
    PublishedMemory(s, c, tk);
    PublishedRest(s, c, tk);
    Assembled(s');
  }

  // ----- Returning -----

  function ReturnedCalls(s: State, j: nat): seq<Call>
    requires j < |s.calls|
  {
    s.calls[j := s.calls[j].(returned := true)]
  }

  lemma ReturnedTickets(s: State, j: nat)
    requires Inv(s) && j < |s.calls|
    ensures TicketsOk(s.log, ReturnedCalls(s, j), s.claimed, s.workers)
    ensures CallTickets(s.log, ReturnedCalls(s, j), |s.workers|)
  {
    var calls' := ReturnedCalls(s, j);
    forall t | 0 <= t < |s.log|
      ensures TicketOk(s.log, calls', s.claimed, s.workers, t)
    {
      TicketFact(s, t);
    }
    forall i, t | 0 <= i < |calls'| && Owns(calls', i, t, |s.workers|) && t < |s.log|
      ensures s.log[t].job == i && s.log[t].index == t - calls'[i].first
    {
      assert Owns(s.calls, i, t, |s.workers|);
    }
  }

  lemma ReturnedCounts(s: State, j: nat)
    requires Inv(s) && j < |s.calls|
    ensures Counts(s.slots, s.log, ReturnedCalls(s, j), |s.workers|)
    ensures MemShape(s.mem, ReturnedCalls(s, j)) && MemRest(s.mem, ReturnedCalls(s, j), s.log, |s.workers|)
  {
    var calls' := ReturnedCalls(s, j);
    assert MemShape(s.mem, calls');
    forall i | 0 <= i < |calls'|
      ensures CountOk(s.slots, s.log, calls', |s.workers|, i)
      ensures MemUnpublished(s.mem, calls', s.log, |s.workers|, i)
    {
      CountFact(s, i);
      assert MemUnpublished(s.mem, s.calls, s.log, |s.workers|, i);
    }
  }

  /** All fragments are published and, for data, the first slot has been freed. */
  ghost predicate MayReturn(s: State, c: nat) {
    && Shape(s) && c < |s.callers|
    && (s.callers[c].at.Release? || s.callers[c].at.SignalDone?)
    && s.callers[c].job < |s.calls|
    && var call := s.calls[s.callers[c].job];
    && call.caller == c && call.begun && call.first < |s.log|
    && call.first + Frags(call.job, |s.workers|) <= |s.log|
    && (call.job.Crypt? ==> s.log[call.first].freed)
  }

  lemma ReturnedCallsOk(s: State, c: nat, p: Caller)
    requires Inv(s) && MayReturn(s, c) && p.at.Out? && p.first < QUEUE_SIZE && p.slot < QUEUE_SIZE
    ensures CallsOk(s.log, ReturnedCalls(s, s.callers[c].job), s.callers[c := p], |s.workers|)
    ensures CallersOk(s.log, ReturnedCalls(s, s.callers[c].job), s.callers[c := p], |s.workers|)
  {
    var calls', callers' := ReturnedCalls(s, s.callers[c].job), s.callers[c := p];
    forall i | 0 <= i < |calls'|
      ensures CallOk(s.log, calls', callers', |s.workers|, i)
    {
      CallFact(s, i);
    }
    forall i | 0 <= i < |callers'|
      ensures CallerOk(s.log, calls', callers'[i], i, |s.workers|)
    {
      assert CallerOk(s.log, s.calls, s.callers[i], i, |s.workers|);
    }
  }

  lemma ReturnedSurroundings(s: State, c: nat, p: Caller, free: bool)
    requires Inv(s) && MayReturn(s, c) && p.at.Out?
    ensures var owner := if s.callers[c].at.Release? then -1 else s.enqueueOwner;
      && Surroundings(s.(callers := s.callers[c := p], calls := ReturnedCalls(s, s.callers[c].job),
            enqueueOwner := owner, freeEvent := free))
      && PendingNow(s.callers[c := p], owner) == PendingNow(s.callers, s.enqueueOwner)
  {
    JobsBounds(s, ReturnedCalls(s, s.callers[c].job), s.slots);
  }

  lemma ReturnStep(s: State, c: nat, p: Caller, free: bool)
    requires Inv(s) && MayReturn(s, c) && p == s.callers[c].(at := Out)
    ensures Inv(s.(callers := s.callers[c := p], calls := ReturnedCalls(s, s.callers[c].job),
      enqueueOwner := if s.callers[c].at.Release? then -1 else s.enqueueOwner, freeEvent := free))
  {
    hide Inv, CallerOk, Surroundings, TicketsOk, WorkersOk, MemTickets, MemRest, CallTickets, Counts, SlotStates, SlotContents;
    var j := s.callers[c].job;
    CallerFact(s, c);
    BoundsFact(s, c);
    ReturnedSurroundings(s, c, p, free);
    JobsWorkers(s, ReturnedCalls(s, j));
    JobsMemory(s, ReturnedCalls(s, j));
    JobsContents(s, ReturnedCalls(s, j), s.slots);
    ReturnedTickets(s, j);
    ReturnedCounts(s, j);
    ReturnedCallsOk(s, c, p);
    Assembled(s.(callers := s.callers[c := p], calls := ReturnedCalls(s, j),
      enqueueOwner := if s.callers[c].at.Release? then -1 else s.enqueueOwner, freeEvent := free));
  }

  lemma BoundsFact(s: State, c: nat)
    requires Inv(s) && c < |s.callers|
    ensures s.callers[c].first < QUEUE_SIZE && s.callers[c].slot < QUEUE_SIZE
    ensures SlotStates(s.slots, s.log)
  {
    CallerFact(s, c);
  }

  lemma KeepReleaseKey(s: State, c: nat)
    requires Inv(s) && InBounds(s) && c < |s.callers| && s.callers[c].at == Release
    requires s.calls[s.callers[c].job].job.Derive?
    ensures Inv(CallerRelease(s, c))
  {
    hide Inv;
    CallerFact(s, c);
    ReturnStep(s, c, s.callers[c].(at := Out), s.freeEvent);
  }

  lemma KeepSignalDone(s: State, c: nat)
    requires Inv(s) && InBounds(s) && c < |s.callers| && s.callers[c].at == SignalDone
    ensures Inv(CallerSignalDone(s, c))
  {
    hide Inv;
    CallerFact(s, c);
    ReturnStep(s, c, s.callers[c].(at := Out), true);
  }
}
