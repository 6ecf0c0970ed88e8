// The two worker steps that end a job: counting a fragment down and setting the completion event.
module ThreadPoolCountdown {
  import opened Words
  import opened FragmentPlan
  import opened ThreadPool
  import opened ThreadPoolInvariant
  import opened ThreadPoolWorkers

  /** Owners, counts and phases may change; nothing that callers look at does. */
  ghost predicate SameFlow(log: seq<Ticket>, log': seq<Ticket>) {
    && |log'| == |log|
    && forall t :: 0 <= t < |log| ==>
        && log'[t].job == log[t].job && log'[t].index == log[t].index
        && log'[t].freed == log[t].freed && log'[t].runs == log[t].runs
        && log'[t].phase.Consumed? == log[t].phase.Consumed?
  }

  lemma FlowCalls(s: State, log': seq<Ticket>)
    requires Inv(s) && SameFlow(s.log, log')
    ensures CallTickets(log', s.calls, |s.workers|)
    ensures CallsOk(log', s.calls, s.callers, |s.workers|)
    ensures MemRest(s.mem, s.calls, log', |s.workers|)
  {
    forall j | 0 <= j < |s.calls|
      ensures CallOk(log', s.calls, s.callers, |s.workers|, j)
      ensures MemUnpublished(s.mem, s.calls, log', |s.workers|, j)
    {
      assert CallOk(s.log, s.calls, s.callers, |s.workers|, j);
      assert MemUnpublished(s.mem, s.calls, s.log, |s.workers|, j);
    }
  }

  lemma FlowCallers(s: State, log': seq<Ticket>)
    requires Inv(s) && SameFlow(s.log, log')
    ensures CallersOk(log', s.calls, s.callers, |s.workers|)
  {
    forall c | 0 <= c < |s.callers|
      ensures CallerOk(log', s.calls, s.callers[c], c, |s.workers|)
    {
      assert CallerOk(s.log, s.calls, s.callers[c], c, |s.workers|);
    }
  }

  /** What the step does to the history: ticket `t` and the first ticket `f` of its job. */
  ghost predicate Ends(log: seq<Ticket>, log': seq<Ticket>, w: nat, t: nat, f: nat) {
    && t < |log| && f <= t && log[t].index == t - f
    && log[t].owner == Held(w)
    && SameFlow(log, log')
    && (forall u :: 0 <= u < |log| && u != t && u != f ==> log'[u] == log[u])
    && (f != t ==> log'[f].owner == log[f].owner && log'[f].counted == log[f].counted)
    && (log[f].phase.Running? || log[f].phase == Zeroed(w))
    && (f < t ==> log[t].phase.Running?)
  }

  lemma OtherWorker(log: seq<Ticket>, log': seq<Ticket>, calls: seq<Call>, claimed: nat, p: Worker, i: nat, threads: nat,
                    w: nat, t: nat, f: nat)
    requires threads > 0 && WorkerOk(log, calls, claimed, p, i, threads)
    requires Ends(log, log', w, t, f) && i != w
    ensures WorkerOk(log', calls, claimed, p, i, threads)
  {
    if Holding(p.at) {
      assert p.ticket != t;
    }
  }

  lemma EndsWorkers(s: State, w: nat, p: Worker, t: nat, f: nat, log': seq<Ticket>)
    requires Inv(s) && w < |s.workers| && Ends(s.log, log', w, t, f)
    requires WorkerOk(log', s.calls, s.claimed, p, w, |s.workers|)
    ensures WorkersOk(log', s.calls, s.claimed, s.workers[w := p])
  {
    var workers := s.workers[w := p];
    forall i | 0 <= i < |workers|
      ensures WorkerOk(log', s.calls, s.claimed, workers[i], i, |workers|)
    {
      assert WorkerOk(s.log, s.calls, s.claimed, s.workers[i], i, |s.workers|);
      if i != w {
        OtherWorker(s.log, log', s.calls, s.claimed, s.workers[i], i, |s.workers|, w, t, f);
      }
    }
  }

  lemma OtherTicket(s: State, w: nat, p: Worker, t: nat, f: nat, log': seq<Ticket>, u: nat)
    requires Shape(s) && w < |s.workers| && Ends(s.log, log', w, t, f) && s.workers[w].ticket == t
    requires u < |s.log| && u != t && u != f && TicketOk(s.log, s.calls, s.claimed, s.workers, u)
    ensures TicketOk(log', s.calls, s.claimed, s.workers[w := p], u)
  {
  }

  lemma EndsTickets(s: State, w: nat, p: Worker, t: nat, f: nat, log': seq<Ticket>)
    requires Inv(s) && w < |s.workers| && Ends(s.log, log', w, t, f)
    requires TicketOk(log', s.calls, s.claimed, s.workers[w := p], t)
    requires TicketOk(log', s.calls, s.claimed, s.workers[w := p], f)
    ensures TicketsOk(log', s.calls, s.claimed, s.workers[w := p])
  {
    var workers := s.workers[w := p];
    assert TicketOk(s.log, s.calls, s.claimed, s.workers, t);
    forall u | 0 <= u < |s.log|
      ensures TicketOk(log', s.calls, s.claimed, workers, u)
    {
      assert TicketOk(s.log, s.calls, s.claimed, s.workers, u);
      if u != t && u != f {
        OtherTicket(s, w, p, t, f, log', u);
      }
    }
  }

  lemma EndsMemory(s: State, w: nat, p: Worker, t: nat, f: nat, log': seq<Ticket>)
    requires Inv(s) && w < |s.workers| && Ends(s.log, log', w, t, f)
    requires !p.at.Run? && !p.at.FreeSlot? && s.log[t].runs == 1
    requires s.log[t].job < |s.calls| && s.calls[s.log[t].job].job.Crypt?
    ensures MemTickets(s.mem, s.calls, log', s.workers[w := p])
  {
    var workers := s.workers[w := p];
    assert TicketOk(s.log, s.calls, s.claimed, s.workers, t);
    forall u | 0 <= u < |s.log|
      ensures MemTicket(s.mem, s.calls, log', workers, u)
    {
      assert MemTicket(s.mem, s.calls, s.log, s.workers, u);
      assert TicketOk(s.log, s.calls, s.claimed, s.workers, u);
    }
  }

  lemma CountFact(s: State, j: nat)
    requires Inv(s) && j < |s.calls|
    ensures CountOk(s.slots, s.log, s.calls, |s.workers|, j)
  {
  }

  lemma TicketFact(s: State, t: nat)
    requires Inv(s) && t < |s.log|
    ensures TicketOk(s.log, s.calls, s.claimed, s.workers, t)
  {
  }

  /** Before the countdown: the worker's job, its counter and its phase. */
  lemma DecrementFacts(s: State, w: nat)
    requires Inv(s) && w < |s.workers| && s.workers[w].at.Decrement?
    ensures Shape(s)
    ensures var p := s.workers[w]; p.ticket < |s.log| && s.log[p.ticket].index <= p.ticket && s.log[p.ticket].job < |s.calls|
    ensures var p := s.workers[w];
      var tk := s.log[p.ticket];
      var f := p.ticket - tk.index;
      var n := NFrags(s.calls, tk.job, |s.workers|);
      && s.calls[tk.job].job.Crypt? && s.calls[tk.job].begun && s.calls[tk.job].first == f && tk.index < n
      && !tk.counted && tk.owner == Held(w) && tk.runs == 1
      && p.first == SlotOf(f) && InWindow(s.log, f) && !s.log[f].freed
      && s.log[f].phase.Running? && tk.phase.Running? && s.log[f].job == tk.job
      && CountDone(s.log, f, n) < n
      && s.slots[SlotOf(f)].outstanding == n - CountDone(s.log, f, n)
  {
    hide Inv;
    var p := s.workers[w];
    var t := p.ticket;
    WorkerFacts(s, w);
    UnfinishedInWindow(s, t);
    var tk := s.log[t];
    var f, n := t - tk.index, NFrags(s.calls, tk.job, |s.workers|);
    CountFact(s, tk.job);
    CountBounds(s.log, f, n);
    if CountDone(s.log, f, n) == n {
      CountAll(s.log, f, n, t);
    }
    FirstTicket(s, tk.job);
  }

  /** Two jobs that are not over never share a first slot. */
  lemma FirstSlotsDiffer(s: State, i: nat, j: nat)
    requires Inv(s) && i < |s.calls| && j < |s.calls| && i != j
    requires s.calls[i].begun && s.calls[i].job.Crypt? && s.calls[j].begun && s.calls[j].job.Crypt?
    requires s.calls[i].first < |s.log| && !s.log[s.calls[i].first].freed
    requires s.calls[j].first < |s.log| ==> !s.log[s.calls[j].first].freed
    ensures SlotOf(s.calls[i].first) != SlotOf(s.calls[j].first)
  {
    var f, g := s.calls[i].first, s.calls[j].first;
    UnfreedInWindow(s, f);
    FirstTicket(s, i);
    assert CallOk(s.log, s.calls, s.callers, |s.workers|, j);
    if g < |s.log| {
      UnfreedInWindow(s, g);
      FirstTicket(s, j);
      OtherSlots(s.log, f);
    } else {
      assert CallerOk(s.log, s.calls, s.callers[s.calls[j].caller], s.calls[j].caller, |s.workers|);
      assert Count(|s.calls[j].job.data|, |s.workers|) > 0;
      SlotsDiffer(f, g);
    }
  }

  /** The new history: `t` is counted, and its job's phase changes if the counter reaches zero. */
  ghost predicate Decrements(s: State, w: nat, log': seq<Ticket>)
    requires Shape(s)
  {
    && w < |s.workers|
    && var p := s.workers[w];
    && p.ticket < |s.log| && s.log[p.ticket].index <= p.ticket && p.first < QUEUE_SIZE
    && var f := p.ticket - s.log[p.ticket].index;
    && Ends(s.log, log', w, p.ticket, f) && log'[p.ticket].counted
    && log'[f].phase == (if s.slots[p.first].outstanding == 1 then Zeroed(w) else Running)
  }

  function CountedDown(slots: seq<Slot>, x: nat): seq<Slot>
    requires x < |slots|
  {
    slots[x := slots[x].(outstanding := slots[x].outstanding - 1)]
  }

  lemma CountAfter(s: State, w: nat, log': seq<Ticket>, g: nat, n: nat)
    requires Shape(s) && Decrements(s, w, log') && !s.log[s.workers[w].ticket].counted
    ensures CountDone(log', g, n) == CountDone(s.log, g, n) + if g <= s.workers[w].ticket < g + n then 1 else 0
  {
    var t := s.workers[w].ticket;
    CountOne(s.log, t, log'[t], g, n);
    CountFrame(s.log[t := log'[t]], log', g, n);
  }

  lemma OwnCount(s: State, w: nat, log': seq<Ticket>)
    requires Inv(s) && Decrements(s, w, log') && s.workers[w].at.Decrement?
    ensures s.log[s.workers[w].ticket].job < |s.calls|
    ensures CountOk(CountedDown(s.slots, s.workers[w].first), log', s.calls, |s.workers|, s.log[s.workers[w].ticket].job)
  {
    hide Inv;
    DecrementFacts(s, w);
    var tk := s.log[s.workers[w].ticket];
    CountAfter(s, w, log', s.calls[tk.job].first, NFrags(s.calls, tk.job, |s.workers|));
  }

  lemma OtherCount(s: State, w: nat, log': seq<Ticket>, j: nat)
    requires Inv(s) && Decrements(s, w, log') && s.workers[w].at.Decrement?
    requires j < |s.calls| && j != s.log[s.workers[w].ticket].job
    ensures CountOk(CountedDown(s.slots, s.workers[w].first), log', s.calls, |s.workers|, j)
  {
    hide Inv;
    DecrementFacts(s, w);
    CountFact(s, j);
    if s.calls[j].begun && s.calls[j].job.Crypt? {
      var t := s.workers[w].ticket;
      var g, n := s.calls[j].first, NFrags(s.calls, j, |s.workers|);
      CountAfter(s, w, log', g, n);
      NotOwned(s, j, t);
      if g < |s.log| { FirstTicket(s, j); }
      if g < |s.log| ==> !s.log[g].freed { FirstSlotsDiffer(s, s.log[t].job, j); }
    }
  }

  lemma NotOwned(s: State, j: nat, t: nat)
    requires Inv(s) && j < |s.calls| && t < |s.log| && s.log[t].job != j && s.calls[j].begun
    ensures !(s.calls[j].first <= t < s.calls[j].first + NFrags(s.calls, j, |s.workers|))
  {
    if s.calls[j].first <= t < s.calls[j].first + NFrags(s.calls, j, |s.workers|) {
      assert Owns(s.calls, j, t, |s.workers|);
    }
  }

  lemma DecrementCounts(s: State, w: nat, log': seq<Ticket>)
    requires Inv(s) && Decrements(s, w, log') && s.workers[w].at.Decrement?
    ensures Counts(CountedDown(s.slots, s.workers[w].first), log', s.calls, |s.workers|)
  {
    var slots' := CountedDown(s.slots, s.workers[w].first);
    OwnCount(s, w, log');
    forall j | 0 <= j < |s.calls|
      ensures CountOk(slots', log', s.calls, |s.workers|, j)
    {
      if j != s.log[s.workers[w].ticket].job {
        OtherCount(s, w, log', j);
      }
    }
  }

  /** States, contents and completion events, when only counters differ. */
  lemma SameSlotStates(s: State, slots': seq<Slot>, log': seq<Ticket>)
    requires Inv(s) && SameFlow(s.log, log') && |slots'| == QUEUE_SIZE
    requires forall i :: 0 <= i < QUEUE_SIZE ==> slots'[i] == s.slots[i].(outstanding := slots'[i].outstanding)
    requires forall t :: 0 <= t < |s.log| ==>
      log'[t].owner.Unclaimed? == s.log[t].owner.Unclaimed? && log'[t].phase.Signalled? == s.log[t].phase.Signalled?
    ensures SlotStates(slots', log')
    ensures SlotContents(slots', log', s.calls, |s.workers|, PendingNow(s.callers, s.enqueueOwner))
  {
    forall u
      ensures SlotStateOk(slots', log', u)
      ensures SlotContentOk(slots', log', s.calls, |s.workers|, PendingNow(s.callers, s.enqueueOwner), u)
    {
      assert SlotStateOk(s.slots, s.log, u);
      assert SlotContentOk(s.slots, s.log, s.calls, |s.workers|, PendingNow(s.callers, s.enqueueOwner), u);
      assert InWindow(log', u) <==> InWindow(s.log, u);
    }
  }

  ghost predicate SlotsOnly(slots: seq<Slot>, slots': seq<Slot>) {
    && |slots'| == |slots|
    && forall i :: 0 <= i < |slots| ==>
         slots'[i] == slots[i].(outstanding := slots'[i].outstanding, completed := slots'[i].completed)
  }

  /** A worker outside the dequeue section moves: mutexes, positions and bounds are as before. */
  ghost predicate Surroundings(s: State) {
    && Shape(s)
    && BoundsOk(s)
    && Locks(s.callers, s.enqueueOwner, s.workers, s.dequeueOwner)
    && Positions(s)
    && PendingOk(s)
    && MemShape(s.mem, s.calls)
  }

  lemma SurroundingsStay(s: State, slots': seq<Slot>, log': seq<Ticket>, w: nat, p: Worker)
    requires Inv(s) && w < |s.workers| && |log'| == |s.log| && SlotsOnly(s.slots, slots')
    requires !HasDequeue(s.workers[w].at) && !HasDequeue(p.at) && p.work == s.workers[w].work
    ensures Surroundings(s.(workers := s.workers[w := p], slots := slots', log := log'))
  {
    assert DequeueSideOk(s.workers, s.dequeueOwner, s.dequeuePosition, s.claimed);
  }

  /** Puts the pieces together for the last steps of a worker on a fragment. */
  lemma EndStep(s: State, slots': seq<Slot>, log': seq<Ticket>, w: nat, p: Worker, t: nat, f: nat)
    requires Inv(s) && w < |s.workers| && Ends(s.log, log', w, t, f)
    requires s.workers[w].at.Decrement? || s.workers[w].at.SetCompleted?
    requires SlotsOnly(s.slots, slots')
    requires WorkerOk(log', s.calls, s.claimed, p, w, |s.workers|) && p.work == s.workers[w].work
    requires !p.at.Run? && !p.at.FreeSlot? && !HasDequeue(p.at) && s.log[t].runs == 1
    requires s.log[t].job < |s.calls| && s.calls[s.log[t].job].job.Crypt?
    requires TicketOk(log', s.calls, s.claimed, s.workers[w := p], t)
    requires TicketOk(log', s.calls, s.claimed, s.workers[w := p], f)
    requires |slots'| == QUEUE_SIZE && SlotStates(slots', log')
    requires SlotContents(slots', log', s.calls, |s.workers|, PendingNow(s.callers, s.enqueueOwner))
    requires Counts(slots', log', s.calls, |s.workers|)
    ensures Inv(s.(workers := s.workers[w := p], slots := slots', log := log'))
  {
    hide Inv, Surroundings;
    SurroundingsStay(s, slots', log', w, p);
    FlowCalls(s, log');
    FlowCallers(s, log');
    EndsWorkers(s, w, p, t, f, log');
    EndsTickets(s, w, p, t, f, log');
    EndsMemory(s, w, p, t, f, log');
    Assembled(s.(workers := s.workers[w := p], slots := slots', log := log'));
  }

  lemma Assembled(s: State)
    requires Surroundings(s)
    requires WorkersOk(s.log, s.calls, s.claimed, s.workers)
    requires TicketsOk(s.log, s.calls, s.claimed, s.workers)
    requires CallTickets(s.log, s.calls, |s.workers|)
    requires CallsOk(s.log, s.calls, s.callers, |s.workers|)
    requires CallersOk(s.log, s.calls, s.callers, |s.workers|)
    requires SlotStates(s.slots, s.log)
    requires SlotContents(s.slots, s.log, s.calls, |s.workers|, PendingNow(s.callers, s.enqueueOwner))
    requires Counts(s.slots, s.log, s.calls, |s.workers|)
    requires MemTickets(s.mem, s.calls, s.log, s.workers)
    requires MemRest(s.mem, s.calls, s.log, |s.workers|)
    ensures Inv(s)
  {
  }

  // ----- InterlockedDecrement -----

  ghost function DecrementedLog(s: State, w: nat): seq<Ticket>
    requires w < |s.workers| && s.workers[w].ticket < |s.log| && s.log[s.workers[w].ticket].index <= s.workers[w].ticket
    requires s.workers[w].first < |s.slots|
  {
    var p := s.workers[w];
    var t := p.ticket;
    var f := t - s.log[t].index;
    if s.slots[p.first].outstanding == 1 then
      var log1 := s.log[t := s.log[t].(counted := true)];
      log1[f := log1[f].(phase := Zeroed(w))]
    else
      s.log[t := s.log[t].(counted := true, owner := Done)]
  }

  lemma DecrementIs(s: State, w: nat)
    requires InBounds(s) && w < |s.workers| && s.workers[w].at.Decrement?
    requires s.workers[w].ticket < |s.log| && s.log[s.workers[w].ticket].index <= s.workers[w].ticket
    ensures var p := s.workers[w];
      WorkerDecrement(s, w) == s.(
        workers := s.workers[w := p.(at := if s.slots[p.first].outstanding == 1 then ReloadFirst else Idle)],
        slots := CountedDown(s.slots, p.first), log := DecrementedLog(s, w))
  {
  }

  lemma DecrementedLogEnds(s: State, w: nat)
    requires Inv(s) && w < |s.workers| && s.workers[w].at.Decrement?
    ensures Shape(s) && s.workers[w].ticket < |s.log| && s.log[s.workers[w].ticket].index <= s.workers[w].ticket
    ensures s.workers[w].first < QUEUE_SIZE
    ensures Decrements(s, w, DecrementedLog(s, w))
  {
    hide Inv;
    DecrementFacts(s, w);
  }

  lemma DecrementWorker(s: State, w: nat)
    requires Inv(s) && w < |s.workers| && s.workers[w].at.Decrement?
    requires Shape(s) && Decrements(s, w, DecrementedLog(s, w))
    ensures var p := s.workers[w];
      WorkerOk(DecrementedLog(s, w), s.calls, s.claimed,
        p.(at := if s.slots[p.first].outstanding == 1 then ReloadFirst else Idle), w, |s.workers|)
  {
    hide Inv;
    WorkerFacts(s, w);
  }

  lemma DecrementTicket(s: State, w: nat)
    requires Inv(s) && w < |s.workers| && s.workers[w].at.Decrement?
    requires Shape(s) && Decrements(s, w, DecrementedLog(s, w))
    ensures var p := s.workers[w];
      TicketOk(DecrementedLog(s, w), s.calls, s.claimed,
        s.workers[w := p.(at := if s.slots[p.first].outstanding == 1 then ReloadFirst else Idle)], p.ticket)
  {
    hide Inv;
    TicketFact(s, s.workers[w].ticket);
    WorkerFacts(s, w);
    DecrementFacts(s, w);
  }

  lemma DecrementFirst(s: State, w: nat)
    requires Inv(s) && w < |s.workers| && s.workers[w].at.Decrement?
    requires Shape(s) && Decrements(s, w, DecrementedLog(s, w))
    requires s.log[s.workers[w].ticket].index > 0
    ensures var p := s.workers[w];
      TicketOk(DecrementedLog(s, w), s.calls, s.claimed,
        s.workers[w := p.(at := if s.slots[p.first].outstanding == 1 then ReloadFirst else Idle)],
        p.ticket - s.log[p.ticket].index)
  {
    hide Inv;
    var t := s.workers[w].ticket;
    TicketFact(s, t - s.log[t].index);
    DecrementFacts(s, w);
  }

  lemma KeepDecrement(s: State, w: nat)
    requires Inv(s) && InBounds(s) && w < |s.workers| && s.workers[w].at == Decrement
    ensures Inv(WorkerDecrement(s, w))
  {
    hide Inv, TicketOk, WorkerOk, Counts, SlotStates, SlotContents, WorkerDecrement;
    DecrementFacts(s, w);
    DecrementedLogEnds(s, w);
    DecrementIs(s, w);
    DecrementWorker(s, w);
    DecrementTicket(s, w);
    var p := s.workers[w];
    if s.log[p.ticket].index > 0 { DecrementFirst(s, w); }
    var log' := DecrementedLog(s, w);
    DecrementCounts(s, w, log');
    SameSlotStates(s, CountedDown(s.slots, p.first), log');
    EndStep(s, CountedDown(s.slots, p.first), log', w,
      p.(at := if s.slots[p.first].outstanding == 1 then ReloadFirst else Idle), p.ticket, p.ticket - s.log[p.ticket].index);
  }

  // ----- TC_SET_EVENT (ItemCompletedEvent) -----

  lemma CompleteFacts(s: State, w: nat)
    requires Inv(s) && w < |s.workers| && s.workers[w].at.SetCompleted?
    ensures Shape(s)
    ensures var p := s.workers[w]; p.ticket < |s.log| && s.log[p.ticket].index <= p.ticket && s.log[p.ticket].job < |s.calls|
    ensures var p := s.workers[w];
      var tk := s.log[p.ticket];
      var f := p.ticket - tk.index;
      && s.calls[tk.job].job.Crypt?
      && tk.counted && tk.owner == Held(w) && tk.runs == 1
      && p.first == SlotOf(f) && InWindow(s.log, f) && !s.log[f].freed
      && s.log[f].phase == Zeroed(w) && (tk.index > 0 ==> tk.phase.Running?)
  {
    hide Inv;
    var p := s.workers[w];
    WorkerFacts(s, w);
    UnfinishedInWindow(s, p.ticket);
    UnfreedInWindow(s, p.ticket - s.log[p.ticket].index);
  }

  ghost function CompletedLog(s: State, w: nat): seq<Ticket>
    requires w < |s.workers| && s.workers[w].ticket < |s.log| && s.log[s.workers[w].ticket].index <= s.workers[w].ticket
  {
    var t := s.workers[w].ticket;
    var f := t - s.log[t].index;
    var log1 := s.log[t := s.log[t].(owner := Done)];
    log1[f := log1[f].(phase := Signalled)]
  }

  function CompletedSlots(slots: seq<Slot>, x: nat): seq<Slot>
    requires x < |slots|
  {
    slots[x := slots[x].(completed := true)]
  }

  lemma SlotFact(s: State, u: int)
    requires Inv(s)
    ensures Shape(s) && SlotStateOk(s.slots, s.log, u)
    ensures SlotContentOk(s.slots, s.log, s.calls, |s.workers|, PendingNow(s.callers, s.enqueueOwner), u)
  {
  }

  lemma CompletedSlot(s: State, w: nat, u: int)
    requires Inv(s) && w < |s.workers| && s.workers[w].at.SetCompleted?
    requires s.workers[w].ticket < |s.log| && s.log[s.workers[w].ticket].index <= s.workers[w].ticket
    requires Shape(s) && s.workers[w].first < QUEUE_SIZE
    ensures var slots' := CompletedSlots(s.slots, s.workers[w].first);
      && SlotStateOk(slots', CompletedLog(s, w), u)
      && SlotContentOk(slots', CompletedLog(s, w), s.calls, |s.workers|, PendingNow(s.callers, s.enqueueOwner), u)
  {
    hide Inv;
    var t := s.workers[w].ticket;
    CompleteFacts(s, w);
    OtherSlots(s.log, t - s.log[t].index);
    SlotFact(s, u);
    assert InWindow(CompletedLog(s, w), u) <==> InWindow(s.log, u);
  }

  lemma CompletedSlotStates(s: State, w: nat)
    requires Inv(s) && w < |s.workers| && s.workers[w].at.SetCompleted?
    requires s.workers[w].ticket < |s.log| && s.log[s.workers[w].ticket].index <= s.workers[w].ticket
    requires Shape(s) && s.workers[w].first < QUEUE_SIZE
    ensures var slots' := CompletedSlots(s.slots, s.workers[w].first);
      && SlotStates(slots', CompletedLog(s, w))
      && SlotContents(slots', CompletedLog(s, w), s.calls, |s.workers|, PendingNow(s.callers, s.enqueueOwner))
  {
    var slots' := CompletedSlots(s.slots, s.workers[w].first);
    var log' := CompletedLog(s, w);
    CompleteFacts(s, w);
    forall u
      ensures SlotStateOk(slots', log', u)
      ensures SlotContentOk(slots', log', s.calls, |s.workers|, PendingNow(s.callers, s.enqueueOwner), u)
    {
      CompletedSlot(s, w, u);
    }
  }

  lemma CompletedCount(s: State, w: nat, j: nat)
    requires Inv(s) && w < |s.workers| && s.workers[w].at.SetCompleted? && j < |s.calls|
    requires s.workers[w].ticket < |s.log| && s.log[s.workers[w].ticket].index <= s.workers[w].ticket
    requires Shape(s) && s.workers[w].first < QUEUE_SIZE
    ensures CountOk(CompletedSlots(s.slots, s.workers[w].first), CompletedLog(s, w), s.calls, |s.workers|, j)
  {
    hide Inv;
    CompleteFacts(s, w);
    CountFact(s, j);
    CountFrame(s.log, CompletedLog(s, w), s.calls[j].first, NFrags(s.calls, j, |s.workers|));
  }

  lemma CompletedCounts(s: State, w: nat)
    requires Inv(s) && w < |s.workers| && s.workers[w].at.SetCompleted?
    requires s.workers[w].ticket < |s.log| && s.log[s.workers[w].ticket].index <= s.workers[w].ticket
    requires Shape(s) && s.workers[w].first < QUEUE_SIZE
    ensures Counts(CompletedSlots(s.slots, s.workers[w].first), CompletedLog(s, w), s.calls, |s.workers|)
  {
    hide Inv;
    var slots' := CompletedSlots(s.slots, s.workers[w].first);
    var log' := CompletedLog(s, w);
    forall j | 0 <= j < |s.calls|
      ensures CountOk(slots', log', s.calls, |s.workers|, j)
    {
      CompletedCount(s, w, j);
    }
  }

  lemma CompletedEnds(s: State, w: nat)
    requires Inv(s) && w < |s.workers| && s.workers[w].at.SetCompleted?
    requires s.workers[w].ticket < |s.log| && s.log[s.workers[w].ticket].index <= s.workers[w].ticket
    ensures var p := s.workers[w];
      && Shape(s)
      && Ends(s.log, CompletedLog(s, w), w, p.ticket, p.ticket - s.log[p.ticket].index)
      && WorkerOk(CompletedLog(s, w), s.calls, s.claimed, p.(at := Idle), w, |s.workers|)
      && p.first < QUEUE_SIZE
  {
    hide Inv;
    CompleteFacts(s, w);
    WorkerFacts(s, w);
  }

  lemma CompletedTickets(s: State, w: nat)
    requires Inv(s) && w < |s.workers| && s.workers[w].at.SetCompleted?
    requires Shape(s) && s.workers[w].ticket < |s.log| && s.log[s.workers[w].ticket].index <= s.workers[w].ticket
    ensures var p := s.workers[w];
      var workers := s.workers[w := p.(at := Idle)];
      && TicketOk(CompletedLog(s, w), s.calls, s.claimed, workers, p.ticket)
      && TicketOk(CompletedLog(s, w), s.calls, s.claimed, workers, p.ticket - s.log[p.ticket].index)
  {
    hide Inv;
    var t := s.workers[w].ticket;
    TicketFact(s, t);
    TicketFact(s, t - s.log[t].index);
    WorkerFacts(s, w);
    CompleteFacts(s, w);
  }

  lemma CompleteIs(s: State, w: nat)
    requires InBounds(s) && w < |s.workers| && s.workers[w].at.SetCompleted?
    requires s.workers[w].ticket < |s.log| && s.log[s.workers[w].ticket].index <= s.workers[w].ticket
    ensures var p := s.workers[w];
      WorkerSetCompleted(s, w) == s.(workers := s.workers[w := p.(at := Idle)],
        slots := CompletedSlots(s.slots, p.first), log := CompletedLog(s, w))
  {
  }

  lemma KeepSetCompleted(s: State, w: nat)
    requires Inv(s) && InBounds(s) && w < |s.workers| && s.workers[w].at == SetCompleted
    ensures Inv(WorkerSetCompleted(s, w))
  {
    hide Inv, TicketOk, WorkerOk, Counts, SlotStates, SlotContents, Ends;
    CompleteFacts(s, w);
    CompleteIs(s, w);
    CompletedTickets(s, w);
    CompletedCounts(s, w);
    CompletedSlotStates(s, w);
    CompletedEnds(s, w);
    var p := s.workers[w];
    EndStep(s, CompletedSlots(s.slots, p.first), CompletedLog(s, w), w, p.(at := Idle), p.ticket, p.ticket - s.log[p.ticket].index);
  }
}
