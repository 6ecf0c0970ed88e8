// The steps that end and start a call: consuming the completion event, freeing the first slot, and
// a new call.  With them every step of the system keeps the invariant.
module ThreadPoolFinish {
  import opened Words
  import opened FragmentPlan
  import opened ThreadPool
  import opened ThreadPoolInvariant
  import opened ThreadPoolWorkers
  import opened ThreadPoolCountdown
  import opened ThreadPoolCallers

  /** Caller `c` waits for, or has seen, the end of its job, whose first ticket is `t`: all
      fragments have been counted and no worker is at work on the first one. */
  ghost predicate JobOver(s: State, c: nat, t: nat) {
    && Shape(s) && c < |s.callers|
    && (s.callers[c].at.WaitDone? || s.callers[c].at.FreeFirst?)
    && s.callers[c].job < |s.calls|
    && s.calls[s.callers[c].job].job.Crypt?
    && t == s.calls[s.callers[c].job].first < |s.log|
    && InWindow(s.log, t) && s.callers[c].first == SlotOf(t)
    && s.log[t].job == s.callers[c].job && s.log[t].index == 0
    && !s.log[t].freed && s.log[t].owner.Done?
    && s.log[t].phase == (if s.callers[c].at.WaitDone? then Signalled else Consumed)
  }

  lemma PhaseOver(s: State, t: nat)
    requires Inv(s) && t < |s.log| && (s.log[t].phase.Signalled? || s.log[t].phase.Consumed?)
    ensures s.log[t].owner.Done?
  {
    TicketFact(s, t);
    var j := s.log[t].job;
    assert Owns(s.calls, j, t, |s.workers|);
    FreedAllCounted(s, j, t);
    if s.log[t].owner.Held? {
      WorkerFacts(s, s.log[t].owner.worker);
    }
  }

  lemma JobOverFacts(s: State, c: nat)
    requires Inv(s) && InBounds(s) && c < |s.callers|
    requires (s.callers[c].at.WaitDone? && CallerCanStep(s, c)) || s.callers[c].at.FreeFirst?
    ensures JobOver(s, c, s.calls[s.callers[c].job].first)
  {
    hide Inv;
    CallerFact(s, c);
    var j := s.callers[c].job;
    var t := s.calls[j].first;
    WaitingHasFirst(s, c);
    FirstTicket(s, j);
    UnfreedInWindow(s, t);
    SlotFact(s, t);
    PhaseOver(s, t);
  }

  /** The caller's change to its own first ticket. */
  ghost predicate EndsJob(s: State, c: nat, t: nat, p: Caller, tk: Ticket) {
    && JobOver(s, c, t)
    && tk == s.log[t].(freed := tk.freed, phase := Consumed)
    && tk.freed == s.callers[c].at.FreeFirst?
    && p == s.callers[c].(at := if s.callers[c].at.WaitDone? then FreeFirst else SignalDone)
  }

  lemma EndedWorkers(s: State, c: nat, t: nat, p: Caller, tk: Ticket)
    requires Inv(s) && EndsJob(s, c, t, p, tk)
    ensures WorkersOk(s.log[t := tk], s.calls, s.claimed, s.workers)
  {
    var log' := s.log[t := tk];
    forall w | 0 <= w < |s.workers|
      ensures WorkerOk(log', s.calls, s.claimed, s.workers[w], w, |s.workers|)
    {
      assert WorkerOk(s.log, s.calls, s.claimed, s.workers[w], w, |s.workers|);
    }
  }

  lemma EndedTickets(s: State, c: nat, t: nat, p: Caller, tk: Ticket)
    requires Inv(s) && EndsJob(s, c, t, p, tk)
    ensures TicketsOk(s.log[t := tk], s.calls, s.claimed, s.workers)
    ensures CallTickets(s.log[t := tk], s.calls, |s.workers|)
  {
    var log' := s.log[t := tk];
    forall u | 0 <= u < |log'|
      ensures TicketOk(log', s.calls, s.claimed, s.workers, u)
    {
      TicketFact(s, u);
    }
  }

  lemma EndedCalls(s: State, c: nat, t: nat, p: Caller, tk: Ticket)
    requires Inv(s) && EndsJob(s, c, t, p, tk)
    ensures CallsOk(s.log[t := tk], s.calls, s.callers[c := p], |s.workers|)
  {
    var log', callers' := s.log[t := tk], s.callers[c := p];
    forall j | 0 <= j < |s.calls|
      ensures CallOk(log', s.calls, callers', |s.workers|, j)
    {
      CallFact(s, j);
    }
  }

  lemma EndedOther(log: seq<Ticket>, calls: seq<Call>, p: Caller, c: nat, threads: nat, t: nat, tk: Ticket)
    requires threads > 0 && CallerOk(log, calls, p, c, threads) && t < |log|
    requires log[t].freed ==> tk.freed
    requires !p.at.Out? && p.job < |calls| && calls[p.job].begun ==> calls[p.job].first != t
    ensures CallerOk(log[t := tk], calls, p, c, threads)
  {
  }

  lemma EndedMine(s: State, c: nat, t: nat, p: Caller, tk: Ticket)
    requires EndsJob(s, c, t, p, tk) && CallerOk(s.log, s.calls, s.callers[c], c, |s.workers|)
    ensures CallerOk(s.log[t := tk], s.calls, p, c, |s.workers|)
  {
  }

  lemma NotMyFirst(s: State, c: nat, t: nat, i: nat)
    requires Inv(s) && JobOver(s, c, t) && i < |s.callers| && i != c
    ensures var p := s.callers[i]; !p.at.Out? && p.job < |s.calls| && s.calls[p.job].begun ==> s.calls[p.job].first != t
  {
    CallerFact(s, c);
    CallerFact(s, i);
    var p := s.callers[i];
    if !p.at.Out? && s.calls[p.job].begun && s.calls[p.job].first == t {
      FirstTicket(s, p.job);
    }
  }

  lemma EndedCallers(s: State, c: nat, t: nat, p: Caller, tk: Ticket)
    requires Inv(s) && EndsJob(s, c, t, p, tk)
    ensures CallersOk(s.log[t := tk], s.calls, s.callers[c := p], |s.workers|)
  {
    hide Inv, CallerOk;
    var log', callers' := s.log[t := tk], s.callers[c := p];
    forall i | 0 <= i < |callers'|
      ensures CallerOk(log', s.calls, callers'[i], i, |s.workers|)
    {
      CallerFact(s, i);
      if i == c {
        EndedMine(s, c, t, p, tk);
      } else {
        NotMyFirst(s, c, t, i);
        EndedOther(s.log, s.calls, s.callers[i], i, |s.workers|, t, tk);
      }
    }
  }

  function EndedSlots(s: State, c: nat): seq<Slot>
    requires Shape(s) && c < |s.callers| && s.callers[c].first < QUEUE_SIZE
  {
    var p := s.callers[c];
    if p.at.WaitDone? then s.slots[p.first := s.slots[p.first].(completed := false)]
    else s.slots[p.first := s.slots[p.first].(state := Free)]
  }

  lemma EndedSlot(s: State, c: nat, t: nat, p: Caller, tk: Ticket, u: int)
    requires Inv(s) && EndsJob(s, c, t, p, tk)
    ensures SlotStateOk(EndedSlots(s, c), s.log[t := tk], u)
    ensures SlotContentOk(EndedSlots(s, c), s.log[t := tk], s.calls, |s.workers|, PendingNow(s.callers, s.enqueueOwner), u)
  {
    hide Inv;
    OtherSlots(s.log, t);
    SlotFact(s, u);
    assert InWindow(s.log[t := tk], u) <==> InWindow(s.log, u);
  }

  lemma EndedSlotStates(s: State, c: nat, t: nat, p: Caller, tk: Ticket)
    requires Inv(s) && EndsJob(s, c, t, p, tk)
    ensures SlotStates(EndedSlots(s, c), s.log[t := tk])
    ensures SlotContents(EndedSlots(s, c), s.log[t := tk], s.calls, |s.workers|, PendingNow(s.callers, s.enqueueOwner))
  {
    var slots', log' := EndedSlots(s, c), s.log[t := tk];
    forall u
      ensures SlotStateOk(slots', log', u)
      ensures SlotContentOk(slots', log', s.calls, |s.workers|, PendingNow(s.callers, s.enqueueOwner), u)
    {
      EndedSlot(s, c, t, p, tk, u);
    }
  }

  lemma EndedCounts(s: State, c: nat, t: nat, p: Caller, tk: Ticket)
    requires Inv(s) && EndsJob(s, c, t, p, tk)
    ensures Counts(EndedSlots(s, c), s.log[t := tk], s.calls, |s.workers|)
  {
    var slots', log' := EndedSlots(s, c), s.log[t := tk];
    CountFrames(s.log, log');
    forall j | 0 <= j < |s.calls|
      ensures CountOk(slots', log', s.calls, |s.workers|, j)
    {
      CountFact(s, j);
    }
  }

  lemma EndedMemory(s: State, c: nat, t: nat, p: Caller, tk: Ticket)
    requires Inv(s) && EndsJob(s, c, t, p, tk)
    ensures MemShape(s.mem, s.calls)
    ensures MemTickets(s.mem, s.calls, s.log[t := tk], s.workers)
    ensures MemRest(s.mem, s.calls, s.log[t := tk], |s.workers|)
  {
    var log' := s.log[t := tk];
    forall u | 0 <= u < |log'|
      ensures MemTicket(s.mem, s.calls, log', s.workers, u)
    {
      assert MemTicket(s.mem, s.calls, s.log, s.workers, u);
    }
    forall j | 0 <= j < |s.calls|
      ensures MemUnpublished(s.mem, s.calls, log', |s.workers|, j)
    {
      assert MemUnpublished(s.mem, s.calls, s.log, |s.workers|, j);
    }
  }

  lemma EndedLocks(s: State, c: nat, t: nat, p: Caller, tk: Ticket)
    requires Inv(s) && EndsJob(s, c, t, p, tk)
    ensures EnqueueSideOk(s.callers[c := p], s.enqueueOwner, s.enqueuePosition, |s.log|)
    ensures Locks(s.callers[c := p], s.enqueueOwner, s.workers, s.dequeueOwner)
    ensures PendingNow(s.callers[c := p], s.enqueueOwner) == PendingNow(s.callers, s.enqueueOwner)
  {
    hide TicketsOk, WorkersOk, MemTickets, MemRest, CallTickets, CallsOk, CallersOk, Counts, SlotStates, SlotContents;
    assert EnqueueSideOk(s.callers, s.enqueueOwner, s.enqueuePosition, |s.log|);
  }

  lemma EndedSurroundings(s: State, c: nat, t: nat, p: Caller, tk: Ticket)
    requires Inv(s) && EndsJob(s, c, t, p, tk)
    ensures Surroundings(s.(callers := s.callers[c := p], slots := EndedSlots(s, c), log := s.log[t := tk]))
    ensures PendingNow(s.callers[c := p], s.enqueueOwner) == PendingNow(s.callers, s.enqueueOwner)
  {
    hide Locks, TicketsOk, WorkersOk, MemTickets, MemRest, CallTickets, CallsOk, CallersOk, Counts, SlotStates, SlotContents;
    EndedLocks(s, c, t, p, tk);
  }

  lemma EndJobStep(s: State, c: nat, t: nat, p: Caller, tk: Ticket)
    requires Inv(s) && EndsJob(s, c, t, p, tk)
    ensures Inv(s.(callers := s.callers[c := p], slots := EndedSlots(s, c), log := s.log[t := tk]))
  {
    hide Inv, CallerOk, Surroundings, TicketsOk, WorkersOk, MemTickets, MemRest, CallTickets, Counts, SlotStates, SlotContents;
    EndedSurroundings(s, c, t, p, tk);
    EndedWorkers(s, c, t, p, tk);
    EndedTickets(s, c, t, p, tk);
    EndedCalls(s, c, t, p, tk);
    EndedCallers(s, c, t, p, tk);
    EndedSlotStates(s, c, t, p, tk);
    EndedCounts(s, c, t, p, tk);
    EndedMemory(s, c, t, p, tk);
    Assembled(s.(callers := s.callers[c := p], slots := EndedSlots(s, c), log := s.log[t := tk]));
  }

  lemma KeepWaitDone(s: State, c: nat)
    requires Inv(s) && InBounds(s) && c < |s.callers| && s.callers[c].at == WaitDone && CallerCanStep(s, c)
    ensures Inv(CallerWaitDone(s, c))
  {
    hide Inv;
    var t := s.calls[s.callers[c].job].first;
    JobOverFacts(s, c);
    EndJobStep(s, c, t, s.callers[c].(at := FreeFirst), s.log[t].(phase := Consumed));
  }

  lemma KeepFreeFirst(s: State, c: nat)
    requires Inv(s) && InBounds(s) && c < |s.callers| && s.callers[c].at == FreeFirst
    ensures Inv(CallerFreeFirst(s, c))
  {
    hide Inv;
    var t := s.calls[s.callers[c].job].first;
    JobOverFacts(s, c);
    EndJobStep(s, c, t, s.callers[c].(at := SignalDone), s.log[t].(freed := true));
  }

  // ----- A new call -----

  /** A call appended to the history with its memory; caller `c` becomes `p`. */
  ghost predicate Adds(s: State, c: nat, call: Call, m: Memory, p: Caller) {
    && Shape(s) && c < |s.callers| && s.callers[c].at.Out?
    && call == Call(call.job, c, false, 0, !Pooled(call.job)) && CanCall(call.job, |s.workers|)
    && (call.job.Crypt? ==> |m.buffer| == |call.job.data|)
    && (call.job.Crypt? ==> m.buffer == if Pooled(call.job) then call.job.data else UnitWise(call.job.crypt, call.job.start, call.job.data))
    && !m.keyReady
    && (Pooled(call.job) ==> p.at.Lock? && p.job == |s.calls| && CallerOk(s.log, s.calls + [call], p, c, |s.workers|))
    && (!Pooled(call.job) ==> p == s.callers[c])
  }

  lemma AddedWorkers(s: State, c: nat, call: Call, m: Memory, p: Caller)
    requires Inv(s) && Adds(s, c, call, m, p)
    ensures WorkersOk(s.log, s.calls + [call], s.claimed, s.workers)
  {
    var calls' := s.calls + [call];
    forall w | 0 <= w < |s.workers|
      ensures WorkerOk(s.log, calls', s.claimed, s.workers[w], w, |s.workers|)
    {
      assert WorkerOk(s.log, s.calls, s.claimed, s.workers[w], w, |s.workers|);
    }
  }

  lemma AddedTickets(s: State, c: nat, call: Call, m: Memory, p: Caller)
    requires Inv(s) && Adds(s, c, call, m, p)
    ensures TicketsOk(s.log, s.calls + [call], s.claimed, s.workers)
    ensures CallTickets(s.log, s.calls + [call], |s.workers|)
  {
    var calls' := s.calls + [call];
    forall t | 0 <= t < |s.log|
      ensures TicketOk(s.log, calls', s.claimed, s.workers, t)
    {
      TicketFact(s, t);
    }
    forall j, t | 0 <= j < |calls'| && Owns(calls', j, t, |s.workers|) && t < |s.log|
      ensures s.log[t].job == j && s.log[t].index == t - calls'[j].first
    {
      assert Owns(s.calls, j, t, |s.workers|);
    }
  }

  lemma AddedCalls(s: State, c: nat, call: Call, m: Memory, p: Caller)
    requires Inv(s) && Adds(s, c, call, m, p)
    ensures CallsOk(s.log, s.calls + [call], s.callers[c := p], |s.workers|)
    ensures CallersOk(s.log, s.calls + [call], s.callers[c := p], |s.workers|)
  {
    var calls', callers' := s.calls + [call], s.callers[c := p];
    forall j | 0 <= j < |calls'|
      ensures CallOk(s.log, calls', callers', |s.workers|, j)
    {
      if j < |s.calls| { CallFact(s, j); }
    }
    forall i | 0 <= i < |callers'|
      ensures CallerOk(s.log, calls', callers'[i], i, |s.workers|)
    {
      assert CallerOk(s.log, s.calls, s.callers[i], i, |s.workers|);
    }
  }

  lemma AddedContents(s: State, c: nat, call: Call, m: Memory, p: Caller)
    requires Inv(s) && Adds(s, c, call, m, p)
    ensures SlotStates(s.slots, s.log)
    ensures SlotContents(s.slots, s.log, s.calls + [call], |s.workers|, PendingNow(s.callers, s.enqueueOwner))
    ensures Counts(s.slots, s.log, s.calls + [call], |s.workers|)
  {
    var calls' := s.calls + [call];
    forall t
      ensures SlotContentOk(s.slots, s.log, calls', |s.workers|, PendingNow(s.callers, s.enqueueOwner), t)
    {
      SlotFact(s, t);
    }
    forall j | 0 <= j < |calls'|
      ensures CountOk(s.slots, s.log, calls', |s.workers|, j)
    {
      if j < |s.calls| { CountFact(s, j); }
    }
  }

  lemma AddedMemory(s: State, c: nat, call: Call, m: Memory, p: Caller)
    requires Inv(s) && Adds(s, c, call, m, p)
    ensures var mem', calls' := s.mem + [m], s.calls + [call];
      && MemShape(mem', calls')
      && MemTickets(mem', calls', s.log, s.workers)
      && MemRest(mem', calls', s.log, |s.workers|)
  {
    var mem', calls' := s.mem + [m], s.calls + [call];
    assert MemShape(mem', calls');
    forall t | 0 <= t < |s.log|
      ensures MemTicket(mem', calls', s.log, s.workers, t)
    {
      assert MemTicket(s.mem, s.calls, s.log, s.workers, t);
    }
    forall j | 0 <= j < |calls'|
      ensures MemUnpublished(mem', calls', s.log, |s.workers|, j)
    {
      if j < |s.calls| { assert MemUnpublished(s.mem, s.calls, s.log, |s.workers|, j); }
    }
  }

  lemma AddedBounds(s: State, c: nat, call: Call, m: Memory, p: Caller)
    requires Inv(s) && Adds(s, c, call, m, p)
    ensures var s' := s.(callers := s.callers[c := p], calls := s.calls + [call], mem := s.mem + [m]);
      && Shape(s') && BoundsOk(s')
  {
    var mem', calls' := s.mem + [m], s.calls + [call];
    forall i | 0 <= i < QUEUE_SIZE
      ensures s.slots[i].first < QUEUE_SIZE && WorkInBounds(mem', calls', s.slots[i].work)
    {
      assert WorkInBounds(s.mem, s.calls, s.slots[i].work);
    }
    forall w | 0 <= w < |s.workers|
      ensures WorkInBounds(mem', calls', s.workers[w].work)
    {
      assert WorkInBounds(s.mem, s.calls, s.workers[w].work);
    }
  }

  lemma AddedSurroundings(s: State, c: nat, call: Call, m: Memory, p: Caller)
    requires Inv(s) && Adds(s, c, call, m, p)
    ensures var callers' := s.callers[c := p];
      && Surroundings(s.(callers := callers', calls := s.calls + [call], mem := s.mem + [m]))
      && PendingNow(callers', s.enqueueOwner) == PendingNow(s.callers, s.enqueueOwner)
  {
    AddedBounds(s, c, call, m, p);
    AddedMemory(s, c, call, m, p);
    assert EnqueueSideOk(s.callers, s.enqueueOwner, s.enqueuePosition, |s.log|);
  }

  lemma AddStep(s: State, c: nat, call: Call, m: Memory, p: Caller)
    requires Inv(s) && Adds(s, c, call, m, p)
    ensures Inv(s.(callers := s.callers[c := p], calls := s.calls + [call], mem := s.mem + [m]))
  {
    hide Inv, CallerOk, Surroundings, TicketsOk, WorkersOk, MemTickets, MemRest, CallTickets, Counts, SlotStates, SlotContents;
    AddedSurroundings(s, c, call, m, p);
    AddedWorkers(s, c, call, m, p);
    AddedTickets(s, c, call, m, p);
    AddedCalls(s, c, call, m, p);
    AddedContents(s, c, call, m, p);
    AddedMemory(s, c, call, m, p);
    Assembled(s.(callers := s.callers[c := p], calls := s.calls + [call], mem := s.mem + [m]));
  }

  lemma KeepCall(s: State, c: nat, job: Job)
    requires Inv(s) && InBounds(s) && Enabled(s, NewCall(c, job))
    ensures Inv(CallerCall(s, c, job))
  {
    hide Inv;
    CallerFact(s, c);
    var s' := CallerCall(s, c, job);
    assert s.callers[c := s.callers[c]] == s.callers;
    AddStep(s, c, s'.calls[|s.calls|], s'.mem[|s.mem|], s'.callers[c]);
  }
}
