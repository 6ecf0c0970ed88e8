// Every step of a worker keeps the invariant.
module ThreadPoolWorkers {
  import opened Words
  import opened FragmentPlan
  import opened ThreadPool
  import opened ThreadPoolInvariant

  /** Two tickets less than a ring apart have different slots. */
  lemma {:induction false} SlotsDiffer(t: nat, u: nat)
    requires t < u < t + QUEUE_SIZE
    ensures SlotOf(t) != SlotOf(u)
  {
    if t >= QUEUE_SIZE {
      SlotsDiffer(t - QUEUE_SIZE, u - QUEUE_SIZE);
    }
  }

  /** A position that is bumped with wrap-around stays the slot of the next ticket. */
  lemma {:induction false} BumpIsNext(t: nat)
    ensures Bump(SlotOf(t)) == SlotOf(t + 1)
  {
    if t >= QUEUE_SIZE {
      BumpIsNext(t - QUEUE_SIZE);
    }
  }

  lemma OtherSlots(log: seq<Ticket>, t: nat)
    requires InWindow(log, t)
    ensures forall u {:trigger InWindow(log, u)} | InWindow(log, u) && u != t :: SlotOf(u) != SlotOf(t)
  {
    forall u | InWindow(log, u) && u != t
      ensures SlotOf(u) != SlotOf(t)
    {
      if u < t { SlotsDiffer(u, t); } else { SlotsDiffer(t, u); }
    }
  }

  lemma {:induction false} CountFrame(log: seq<Ticket>, log': seq<Ticket>, first: nat, n: nat)
    requires |log| <= |log'|
    requires forall t :: 0 <= t < |log| ==> log'[t].counted == log[t].counted
    requires forall t :: |log| <= t < |log'| ==> !log'[t].counted
    ensures CountDone(log', first, n) == CountDone(log, first, n)
  {
    if n > 0 {
      CountFrame(log, log', first, n - 1);
    }
  }

  lemma CountFrames(log: seq<Ticket>, log': seq<Ticket>)
    requires |log| <= |log'|
    requires forall t :: 0 <= t < |log| ==> log'[t].counted == log[t].counted
    requires forall t :: |log| <= t < |log'| ==> !log'[t].counted
    ensures forall first, n :: CountDone(log', first, n) == CountDone(log, first, n)
  {
    forall first, n
      ensures CountDone(log', first, n) == CountDone(log, first, n)
    {
      CountFrame(log, log', first, n);
    }
  }

  lemma {:induction false} CountBounds(log: seq<Ticket>, first: nat, n: nat)
    ensures CountDone(log, first, n) <= n
  {
    if n > 0 {
      CountBounds(log, first, n - 1);
    }
  }

  lemma {:induction false} CountAll(log: seq<Ticket>, first: nat, n: nat, t: nat)
    requires CountDone(log, first, n) == n && first <= t < first + n
    ensures t < |log| && log[t].counted
  {
    CountBounds(log, first, n - 1);
    if t < first + n - 1 {
      CountAll(log, first, n - 1, t);
    }
  }

  lemma {:induction false} CountOne(log: seq<Ticket>, t: nat, tk: Ticket, first: nat, n: nat)
    requires t < |log| && !log[t].counted && tk.counted
    ensures CountDone(log[t := tk], first, n) ==
      CountDone(log, first, n) + if first <= t < first + n then 1 else 0
  {
    if n > 0 {
      CountOne(log, t, tk, first, n - 1);
    }
  }

  /** A job's slot is freed only after all its fragments were counted. */
  lemma FreedAllCounted(s: State, j: nat, t: nat)
    requires Inv(s) && j < |s.calls| && s.calls[j].begun && s.calls[j].job.Crypt?
    requires s.calls[j].first < |s.log| && !s.log[s.calls[j].first].phase.Running?
    requires Owns(s.calls, j, t, |s.workers|)
    ensures t < |s.log| && s.log[t].counted
  {
    var f, n := s.calls[j].first, NFrags(s.calls, j, |s.workers|);
    assert CountOk(s.slots, s.log, s.calls, |s.workers|, j);
    CountBounds(s.log, f, n);
    CountAll(s.log, f, n, t);
  }

  /** A ticket of a job whose last completion is still to be signalled, or of an unfinished one. */
  ghost predicate Unfinished(s: State, t: nat)
    requires t < |s.log|
  {
    var tk := s.log[t];
    tk.job < |s.calls| &&
    if s.calls[tk.job].job.Crypt? then
      !tk.counted || (tk.index <= t && s.log[t - tk.index].phase.Zeroed?)
    else !tk.freed
  }

  /** While a fragment is unfinished its job's first ticket is not freed. */
  lemma FirstNotFreed(s: State, t: nat)
    requires Inv(s) && t < |s.log| && Unfinished(s, t)
    ensures s.log[t].index <= t && !s.log[t - s.log[t].index].freed
  {
    var tk := s.log[t];
    assert TicketOk(s.log, s.calls, s.claimed, s.workers, t);
    var f := t - tk.index;
    assert Owns(s.calls, tk.job, f, |s.workers|);
    assert TicketOk(s.log, s.calls, s.claimed, s.workers, f);
    if s.calls[tk.job].job.Crypt? && s.log[f].freed {
      assert Owns(s.calls, tk.job, t, |s.workers|);
      FreedAllCounted(s, tk.job, t);
    }
  }

  /** The ring cannot have passed a ticket that is not freed. */
  lemma UnfreedInWindow(s: State, t: nat)
    requires Inv(s) && t < |s.log| && !s.log[t].freed
    ensures InWindow(s.log, t)
    ensures PendingNow(s.callers, s.enqueueOwner) ==> t + QUEUE_SIZE != |s.log|
  {
    assert TicketOk(s.log, s.calls, s.claimed, s.workers, t);
    if PendingNow(s.callers, s.enqueueOwner) {
      assert CallerOk(s.log, s.calls, s.callers[s.enqueueOwner], s.enqueueOwner, |s.workers|);
    }
  }

  /** Hence the slot of an unfinished fragment still holds what its caller wrote, even after the
      worker has marked the slot Free. */
  lemma UnfinishedInWindow(s: State, t: nat)
    requires Inv(s) && t < |s.log| && Unfinished(s, t)
    ensures var tk := s.log[t];
      && tk.index <= t
      && InWindow(s.log, t) && InWindow(s.log, t - tk.index)
      && !s.log[t - tk.index].freed
      && SlotHolds(s.slots[SlotOf(t)], s.calls, tk.job, tk.index, t - tk.index, |s.workers|)
  {
    FirstNotFreed(s, t);
    UnfreedInWindow(s, t - s.log[t].index);
    assert SlotContentOk(s.slots, s.log, s.calls, |s.workers|, PendingNow(s.callers, s.enqueueOwner), t);
  }

  /** So a worker always reads its own job's FirstFragment, and sees it differ from its own slot
      exactly when its fragment is not the first. */
  lemma ReadsOwnFirst(s: State, w: nat)
    requires Inv(s) && w < |s.workers|
    requires s.workers[w].at.Branch? || s.workers[w].at.LoadFirst? || s.workers[w].at.ReloadFirst?
    ensures var p := s.workers[w];
      && p.slot < QUEUE_SIZE && p.ticket < |s.log| && s.log[p.ticket].index <= p.ticket
      && s.slots[p.slot].first == SlotOf(p.ticket - s.log[p.ticket].index)
      && (p.slot == s.slots[p.slot].first <==> s.log[p.ticket].index == 0)
  {
    var p := s.workers[w];
    assert WorkerOk(s.log, s.calls, s.claimed, p, w, |s.workers|);
    UnfinishedInWindow(s, p.ticket);
    if s.log[p.ticket].index > 0 {
      SlotsDiffer(p.ticket - s.log[p.ticket].index, p.ticket);
    }
  }

  /** The facts about worker `w` and the ticket it works on. */
  ghost predicate OwnFacts(s: State, w: nat, t: nat)
    requires Shape(s) && w < |s.workers| && MemShape(s.mem, s.calls)
  {
    && t < |s.log|
    && WorkerOk(s.log, s.calls, s.claimed, s.workers[w], w, |s.workers|)
    && TicketOk(s.log, s.calls, s.claimed, s.workers, t)
    && MemTicket(s.mem, s.calls, s.log, s.workers, t)
    && WorkInBounds(s.mem, s.calls, s.workers[w].work)
  }

  lemma WorkerFacts(s: State, w: nat)
    requires Inv(s) && w < |s.workers|
    ensures Shape(s) && MemShape(s.mem, s.calls) && s.claimed <= |s.log|
    ensures WorkerOk(s.log, s.calls, s.claimed, s.workers[w], w, |s.workers|)
    ensures WorkInBounds(s.mem, s.calls, s.workers[w].work)
    ensures Holding(s.workers[w].at) || s.workers[w].at.Claim? ==> OwnFacts(s, w, s.workers[w].ticket)
  {
    var p := s.workers[w];
    assert WorkerOk(s.log, s.calls, s.claimed, p, w, |s.workers|);
    if Holding(p.at) || p.at.Claim? {
      assert TicketOk(s.log, s.calls, s.claimed, s.workers, p.ticket);
      assert MemTicket(s.mem, s.calls, s.log, s.workers, p.ticket);
    }
  }

  // ----- Steps that change nothing but the worker itself -----

  ghost predicate SameClass(at: WorkerAt, at': WorkerAt) {
    && (Holding(at) ==> Holding(at'))
    && (at.ReloadFirst? || at.SetCompleted? ==> at'.ReloadFirst? || at'.SetCompleted?)
    && (at.Run? ==> at'.Run?)
    && (at'.FreeSlot? ==> at.Branch?)
  }

  lemma ChangeWorker(s: State, w: nat, p: Worker)
    requires Inv(s) && w < |s.workers|
    requires WorkerOk(s.log, s.calls, s.claimed, p, w, |s.workers|)
    requires SameClass(s.workers[w].at, p.at)
    requires Holding(s.workers[w].at) ==> p.ticket == s.workers[w].ticket
    ensures var workers := s.workers[w := p];
      && WorkersOk(s.log, s.calls, s.claimed, workers)
      && TicketsOk(s.log, s.calls, s.claimed, workers)
      && MemTickets(s.mem, s.calls, s.log, workers)
  {
    var workers := s.workers[w := p];
    forall i | 0 <= i < |workers|
      ensures WorkerOk(s.log, s.calls, s.claimed, workers[i], i, |workers|)
    {
      assert WorkerOk(s.log, s.calls, s.claimed, s.workers[i], i, |s.workers|);
    }
    forall t | 0 <= t < |s.log|
      ensures TicketOk(s.log, s.calls, s.claimed, workers, t)
      ensures MemTicket(s.mem, s.calls, s.log, workers, t)
    {
      assert TicketOk(s.log, s.calls, s.claimed, s.workers, t);
      assert MemTicket(s.mem, s.calls, s.log, s.workers, t);
    }
  }

  ghost predicate DequeueSideOk(workers: seq<Worker>, dequeueOwner: int, dequeuePosition: nat, claimed: nat) {
    && -1 <= dequeueOwner < |workers|
    && (forall w :: 0 <= w < |workers| ==> (HasDequeue(workers[w].at) <==> dequeueOwner == w))
    && dequeuePosition == SlotOf(claimed + if LookingNow(workers, dequeueOwner) then 1 else 0)
  }

  lemma LocalStep(s: State, s': State, w: nat, p: Worker)
    requires Inv(s) && w < |s.workers|
    requires WorkerOk(s.log, s.calls, s.claimed, p, w, |s.workers|)
    requires SameClass(s.workers[w].at, p.at)
    requires Holding(s.workers[w].at) ==> p.ticket == s.workers[w].ticket
    requires WorkInBounds(s.mem, s.calls, p.work)
    requires DequeueSideOk(s'.workers, s'.dequeueOwner, s'.dequeuePosition, s.claimed)
    requires s' == s.(workers := s.workers[w := p], dequeueOwner := s'.dequeueOwner,
      dequeuePosition := s'.dequeuePosition, readyEvent := s'.readyEvent, freeEvent := s'.freeEvent)
    ensures Inv(s')
  {
    ChangeWorker(s, w, p);
  }

  /** A worker that already released the dequeue mutex moves on. */
  lemma OwnStep(s: State, w: nat, p: Worker)
    requires Inv(s) && w < |s.workers|
    requires WorkerOk(s.log, s.calls, s.claimed, p, w, |s.workers|)
    requires Holding(s.workers[w].at) && !s.workers[w].at.Unlock? && Holding(p.at) && !p.at.Unlock?
    requires SameClass(s.workers[w].at, p.at)
    requires p.ticket == s.workers[w].ticket && WorkInBounds(s.mem, s.calls, p.work)
    ensures Inv(PutW(s, w, p))
  {
    assert DequeueSideOk(s.workers, s.dequeueOwner, s.dequeuePosition, s.claimed);
    LocalStep(s, PutW(s, w, p), w, p);
  }

  lemma KeepIdle(s: State, w: nat)
    requires Inv(s) && w < |s.workers| && s.workers[w].at == Idle && WorkerCanStep(s, w)
    ensures Inv(WorkerIdle(s, w))
  {
    assert WorkerOk(s.log, s.calls, s.claimed, s.workers[w], w, |s.workers|);
    LocalStep(s, WorkerIdle(s, w), w, s.workers[w].(at := Take));
  }

  lemma KeepTake(s: State, w: nat)
    requires Inv(s) && w < |s.workers| && s.workers[w].at == Take
    ensures Inv(WorkerTake(s, w))
  {
    assert WorkerOk(s.log, s.calls, s.claimed, s.workers[w], w, |s.workers|);
    BumpIsNext(s.claimed);
    LocalStep(s, WorkerTake(s, w), w, s.workers[w].(at := Poll, slot := s.dequeuePosition, ticket := s.claimed));
  }

  /** The slot polled is Ready only if a ticket for it has been published. */
  lemma ReadyIsPublished(s: State)
    requires Inv(s) && s.slots[SlotOf(s.claimed)].state == Ready
    ensures s.claimed < |s.log|
  {
    var t := |s.log| - QUEUE_SIZE;
    if t >= 0 {
      assert TicketOk(s.log, s.calls, s.claimed, s.workers, t);
      assert SlotStateOk(s.slots, s.log, t);
    }
  }

  lemma KeepPoll(s: State, w: nat)
    requires Inv(s) && InBounds(s) && w < |s.workers| && s.workers[w].at == Poll
    ensures Inv(WorkerPoll(s, w))
  {
    var p := s.workers[w];
    assert WorkerOk(s.log, s.calls, s.claimed, p, w, |s.workers|);
    if s.slots[p.slot].state == Ready {
      ReadyIsPublished(s);
    }
    LocalStep(s, WorkerPoll(s, w), w, p.(at := if s.slots[p.slot].state == Ready then Claim else Wait));
  }

  lemma KeepWait(s: State, w: nat)
    requires Inv(s) && w < |s.workers| && s.workers[w].at == Wait
    ensures Inv(WorkerWait(s, w))
  {
    assert WorkerOk(s.log, s.calls, s.claimed, s.workers[w], w, |s.workers|);
    LocalStep(s, WorkerWait(s, w), w, s.workers[w].(at := Poll));
  }

  lemma KeepUnlock(s: State, w: nat)
    requires Inv(s) && w < |s.workers| && s.workers[w].at == Unlock
    ensures Inv(WorkerUnlock(s, w))
  {
    assert WorkerOk(s.log, s.calls, s.claimed, s.workers[w], w, |s.workers|);
    LocalStep(s, WorkerUnlock(s, w), w, s.workers[w].(at := Start));
  }

  /** A worker that goes on to `at` keeps its own part of the invariant when the flags allow it. */
  lemma NextAt(log: seq<Ticket>, calls: seq<Call>, claimed: nat, p: Worker, w: nat, threads: nat, at: WorkerAt, first: nat)
    requires threads > 0 && WorkerOk(log, calls, claimed, p, w, threads)
    requires Holding(p.at) && Holding(at) && !at.Unlock? && !at.Start? && !at.Run?
    requires !p.at.Unlock? && !p.at.Start? && first < QUEUE_SIZE
    requires FlagsAt(at, log[p.ticket], calls[log[p.ticket].job].job.Derive?)
    requires at.Decrement? || at.SetCompleted? ==> first == SlotOf(p.ticket - log[p.ticket].index)
    requires at.ReloadFirst? || at.SetCompleted? ==> log[p.ticket - log[p.ticket].index].phase == Zeroed(w)
    ensures WorkerOk(log, calls, claimed, p.(at := at, first := first), w, threads)
  {
  }

  lemma KeepBranch(s: State, w: nat)
    requires Inv(s) && InBounds(s) && w < |s.workers| && s.workers[w].at == Branch
    ensures Inv(WorkerBranch(s, w))
  {
    hide Inv;
    var p := s.workers[w];
    WorkerFacts(s, w);
    ReadsOwnFirst(s, w);
    var at := if p.slot != s.slots[p.slot].first then FreeSlot else LoadFirst;
    NextAt(s.log, s.calls, s.claimed, p, w, |s.workers|, at, p.first);
    OwnStep(s, w, p.(at := at, first := p.first));
  }

  lemma KeepLoadFirst(s: State, w: nat)
    requires Inv(s) && InBounds(s) && w < |s.workers| && s.workers[w].at == LoadFirst
    ensures Inv(WorkerLoadFirst(s, w))
  {
    hide Inv;
    var p := s.workers[w];
    WorkerFacts(s, w);
    ReadsOwnFirst(s, w);
    NextAt(s.log, s.calls, s.claimed, p, w, |s.workers|, Decrement, s.slots[p.slot].first);
    OwnStep(s, w, p.(at := Decrement, first := s.slots[p.slot].first));
  }

  lemma KeepReloadFirst(s: State, w: nat)
    requires Inv(s) && InBounds(s) && w < |s.workers| && s.workers[w].at == ReloadFirst
    ensures Inv(WorkerReloadFirst(s, w))
  {
    hide Inv;
    var p := s.workers[w];
    WorkerFacts(s, w);
    ReadsOwnFirst(s, w);
    NextAt(s.log, s.calls, s.claimed, p, w, |s.workers|, SetCompleted, s.slots[p.slot].first);
    OwnStep(s, w, p.(at := SetCompleted, first := s.slots[p.slot].first));
  }

  /** The work item a worker reads is its own fragment, whose units are still the caller's. */
  lemma ReadsOwnWork(s: State, w: nat)
    requires Inv(s) && w < |s.workers| && s.workers[w].at.Start?
    ensures var p := s.workers[w];
      && p.slot < QUEUE_SIZE && p.ticket < |s.log| && s.log[p.ticket].job < |s.calls|
      && var tk := s.log[p.ticket];
      && s.slots[p.slot].work == WorkOf(s.calls, tk.job, tk.index, |s.workers|)
      && (s.calls[tk.job].job.Crypt? ==>
            var work := s.slots[p.slot].work;
            && work.offset + work.unitCount <= |s.calls[tk.job].job.data|
            && s.mem[tk.job].buffer[work.offset..work.offset + work.unitCount] ==
                s.calls[tk.job].job.data[work.offset..work.offset + work.unitCount])
  {
    var p := s.workers[w];
    assert WorkerOk(s.log, s.calls, s.claimed, p, w, |s.workers|);
    UnfinishedInWindow(s, p.ticket);
    assert TicketOk(s.log, s.calls, s.claimed, s.workers, p.ticket);
    var tk := s.log[p.ticket];
    if s.calls[tk.job].job.Crypt? {
      FragmentFits(|s.calls[tk.job].job.data|, |s.workers|, tk.index);
      assert MemTicket(s.mem, s.calls, s.log, s.workers, p.ticket);
    }
  }

  lemma StartOk(log: seq<Ticket>, calls: seq<Call>, claimed: nat, p: Worker, w: nat, threads: nat, saved: seq<Unit>)
    requires threads > 0 && WorkerOk(log, calls, claimed, p, w, threads) && p.at.Start?
    requires var tk := log[p.ticket];
      calls[tk.job].job.Crypt? ==>
        var work := WorkOf(calls, tk.job, tk.index, threads);
        && work.offset + work.unitCount <= |calls[tk.job].job.data|
        && saved == calls[tk.job].job.data[work.offset..work.offset + work.unitCount]
    ensures var tk := log[p.ticket];
      WorkerOk(log, calls, claimed,
        p.(at := Run, work := WorkOf(calls, tk.job, tk.index, threads), saved := saved), w, threads)
  {
  }

  lemma KeepStart(s: State, w: nat)
    requires Inv(s) && InBounds(s) && w < |s.workers| && s.workers[w].at == Start
    ensures Inv(WorkerStart(s, w))
  {
    hide Inv;
    var p := s.workers[w];
    WorkerFacts(s, w);
    ReadsOwnWork(s, w);
    var p' := WorkerStart(s, w).workers[w];
    StartOk(s.log, s.calls, s.claimed, p, w, |s.workers|, p'.saved);
    OwnStep(s, w, p');
  }

  // ----- Steps that change a ticket -----

  /** A worker's change to a ticket that neither counts down nor ends a job. */
  ghost predicate Quiet(s: State, t: nat, tk: Ticket) {
    && t < |s.log| && s.log[t].job < |s.calls|
    && var old' := s.log[t];
    && tk.job == old'.job && tk.index == old'.index && tk.counted == old'.counted && tk.phase == old'.phase
    && (old'.freed ==> tk.freed)
    && (old'.index == 0 && s.calls[old'.job].job.Crypt? ==> tk.freed == old'.freed)
  }

  lemma QuietCalls(s: State, t: nat, tk: Ticket)
    requires Inv(s) && Quiet(s, t, tk)
    ensures CallTickets(s.log[t := tk], s.calls, |s.workers|)
    ensures CallsOk(s.log[t := tk], s.calls, s.callers, |s.workers|)
  {
    var log' := s.log[t := tk];
    forall j | 0 <= j < |s.calls|
      ensures CallOk(log', s.calls, s.callers, |s.workers|, j)
    {
      assert CallOk(s.log, s.calls, s.callers, |s.workers|, j);
    }
  }

  /** The first ticket of a call is its fragment 0. */
  lemma FirstTicket(s: State, j: nat)
    requires Inv(s) && j < |s.calls| && s.calls[j].begun && s.calls[j].first < |s.log|
    ensures s.log[s.calls[j].first].job == j && s.log[s.calls[j].first].index == 0
  {
    assert CallOk(s.log, s.calls, s.callers, |s.workers|, j);
    assert Owns(s.calls, j, s.calls[j].first, |s.workers|);
  }

  lemma QuietCaller(log: seq<Ticket>, calls: seq<Call>, p: Caller, c: nat, threads: nat, t: nat, tk: Ticket)
    requires threads > 0 && CallerOk(log, calls, p, c, threads) && t < |log|
    requires log[t].freed ==> tk.freed
    requires !p.at.Out? && calls[p.job].begun && calls[p.job].first == t && calls[p.job].job.Crypt? ==>
      tk.freed == log[t].freed && tk.phase == log[t].phase
    ensures CallerOk(log[t := tk], calls, p, c, threads)
  {
  }

  lemma QuietCallers(s: State, t: nat, tk: Ticket)
    requires Inv(s) && Quiet(s, t, tk)
    ensures CallersOk(s.log[t := tk], s.calls, s.callers, |s.workers|)
  {
    var log' := s.log[t := tk];
    forall c | 0 <= c < |s.callers|
      ensures CallerOk(log', s.calls, s.callers[c], c, |s.workers|)
    {
      var p := s.callers[c];
      assert CallerOk(s.log, s.calls, p, c, |s.workers|);
      if !p.at.Out? && s.calls[p.job].begun && s.calls[p.job].first == t {
        FirstTicket(s, p.job);
      }
      QuietCaller(s.log, s.calls, p, c, |s.workers|, t, tk);
    }
  }

  /** Only slot states may differ. */
  ghost predicate SameWork(slots: seq<Slot>, slots': seq<Slot>) {
    && |slots'| == |slots|
    && forall i :: 0 <= i < |slots| ==> slots'[i] == slots[i].(state := slots'[i].state)
  }

  lemma QuietCounts(s: State, t: nat, tk: Ticket, slots': seq<Slot>)
    requires Inv(s) && Quiet(s, t, tk) && SameWork(s.slots, slots')
    ensures Counts(slots', s.log[t := tk], s.calls, |s.workers|)
  {
    var log' := s.log[t := tk];
    CountFrames(s.log, log');
    forall j | 0 <= j < |s.calls|
      ensures CountOk(slots', log', s.calls, |s.workers|, j)
    {
      assert CountOk(s.slots, s.log, s.calls, |s.workers|, j);
      if s.calls[j].begun && s.calls[j].first < |s.log| {
        FirstTicket(s, j);
      }
    }
  }

  function SlotWith(s: State, t: nat, state: SlotState): seq<Slot>
    requires Shape(s)
  {
    s.slots[SlotOf(t) := s.slots[SlotOf(t)].(state := state)]
  }

  /** The slot of ticket `t` changes state with the ticket; no other slot does. */
  lemma SlotFollows(s: State, t: nat, tk: Ticket)
    requires Inv(s) && InWindow(s.log, t) && Quiet(s, t, tk)
    ensures var slots' := SlotWith(s, t, StateOf(tk));
      && SlotStates(slots', s.log[t := tk])
      && SlotContents(slots', s.log[t := tk], s.calls, |s.workers|, PendingNow(s.callers, s.enqueueOwner))
  {
    OtherSlots(s.log, t);
    var slots' := SlotWith(s, t, StateOf(tk));
    var log' := s.log[t := tk];
    forall u
      ensures SlotStateOk(slots', log', u)
      ensures SlotContentOk(slots', log', s.calls, |s.workers|, PendingNow(s.callers, s.enqueueOwner), u)
    {
      assert SlotStateOk(s.slots, s.log, u);
      assert SlotContentOk(s.slots, s.log, s.calls, |s.workers|, PendingNow(s.callers, s.enqueueOwner), u);
      assert InWindow(log', u) <==> InWindow(s.log, u);
    }
  }

  lemma SlotStays(s: State, t: nat, tk: Ticket)
    requires Inv(s) && Quiet(s, t, tk) && StateOf(tk) == StateOf(s.log[t])
    ensures SlotStates(s.slots, s.log[t := tk])
    ensures SlotContents(s.slots, s.log[t := tk], s.calls, |s.workers|, PendingNow(s.callers, s.enqueueOwner))
  {
    var log' := s.log[t := tk];
    forall u
      ensures SlotStateOk(s.slots, log', u)
      ensures SlotContentOk(s.slots, log', s.calls, |s.workers|, PendingNow(s.callers, s.enqueueOwner), u)
    {
      assert SlotStateOk(s.slots, s.log, u);
      assert SlotContentOk(s.slots, s.log, s.calls, |s.workers|, PendingNow(s.callers, s.enqueueOwner), u);
      assert InWindow(log', u) <==> InWindow(s.log, u);
    }
  }

  /** Ticket `t` is the one worker `w` holds, or is about to claim. */
  ghost predicate MayChange(s: State, w: nat, t: nat, claimed': nat) {
    && w < |s.workers| && t < |s.log|
    && (Holding(s.workers[w].at) ==> s.workers[w].ticket == t)
    && !s.workers[w].at.ReloadFirst? && !s.workers[w].at.SetCompleted?
    && (|| (s.log[t].owner == Held(w) && s.workers[w].ticket == t && claimed' == s.claimed)
        || (s.log[t].owner.Unclaimed? && t == s.claimed && claimed' == t + 1 && s.dequeueOwner == w))
  }

  /** After the step the worker and its own ticket are fine. */
  ghost predicate OwnOk(s: State, w: nat, p: Worker, t: nat, tk: Ticket, claimed': nat)
    requires Shape(s) && w < |s.workers| && t < |s.log| && MemShape(s.mem, s.calls)
  {
    && p.ticket == t
    && !p.at.ReloadFirst? && !p.at.SetCompleted?
    && WorkerOk(s.log[t := tk], s.calls, claimed', p, w, |s.workers|)
    && WorkInBounds(s.mem, s.calls, p.work)
    && TicketOk(s.log[t := tk], s.calls, claimed', s.workers[w := p], t)
    && MemTicket(s.mem, s.calls, s.log[t := tk], s.workers[w := p], t)
  }

  lemma WorkersFollow(s: State, w: nat, p: Worker, t: nat, tk: Ticket, claimed': nat)
    requires Inv(s) && MayChange(s, w, t, claimed') && Quiet(s, t, tk) && OwnOk(s, w, p, t, tk, claimed')
    ensures WorkersOk(s.log[t := tk], s.calls, claimed', s.workers[w := p])
  {
    var workers, log' := s.workers[w := p], s.log[t := tk];
    forall i | 0 <= i < |workers|
      ensures WorkerOk(log', s.calls, claimed', workers[i], i, |workers|)
    {
      assert WorkerOk(s.log, s.calls, s.claimed, s.workers[i], i, |s.workers|);
    }
  }

  lemma TicketsFollow(s: State, w: nat, p: Worker, t: nat, tk: Ticket, claimed': nat)
    requires Inv(s) && MayChange(s, w, t, claimed') && Quiet(s, t, tk) && OwnOk(s, w, p, t, tk, claimed')
    ensures TicketsOk(s.log[t := tk], s.calls, claimed', s.workers[w := p])
    ensures MemTickets(s.mem, s.calls, s.log[t := tk], s.workers[w := p])
  {
    var workers, log' := s.workers[w := p], s.log[t := tk];
    forall u | 0 <= u < |s.log|
      ensures TicketOk(log', s.calls, claimed', workers, u)
      ensures MemTicket(s.mem, s.calls, log', workers, u)
    {
      assert TicketOk(s.log, s.calls, s.claimed, s.workers, u);
      assert MemTicket(s.mem, s.calls, s.log, s.workers, u);
    }
  }

  lemma RestFollows(s: State, t: nat, tk: Ticket)
    requires Inv(s) && Quiet(s, t, tk)
    ensures MemRest(s.mem, s.calls, s.log[t := tk], |s.workers|)
  {
    var log' := s.log[t := tk];
    forall j | 0 <= j < |s.calls|
      ensures MemUnpublished(s.mem, s.calls, log', |s.workers|, j)
    {
      assert MemUnpublished(s.mem, s.calls, s.log, |s.workers|, j);
    }
  }

  /** The slots agree with a history in which ticket `t` has become `tk`. */
  ghost predicate SlotsAgree(s: State, slots': seq<Slot>, t: nat, tk: Ticket)
    requires Shape(s) && t < |s.log|
  {
    && SameWork(s.slots, slots')
    && SlotStates(slots', s.log[t := tk])
    && SlotContents(slots', s.log[t := tk], s.calls, |s.workers|, PendingNow(s.callers, s.enqueueOwner))
  }

  /** Puts the pieces together for a worker step on its own ticket and slot. */
  lemma QuietStep(s: State, s': State, w: nat, p: Worker, t: nat, tk: Ticket)
    requires Inv(s) && MayChange(s, w, t, s'.claimed)
    requires Quiet(s, t, tk) && OwnOk(s, w, p, t, tk, s'.claimed) && SlotsAgree(s, s'.slots, t, tk)
    requires s' == s.(workers := s.workers[w := p], slots := s'.slots, log := s.log[t := tk],
      claimed := s'.claimed, dequeuePosition := s'.dequeuePosition)
    requires s'.claimed <= |s.log| && DequeueSideOk(s'.workers, s'.dequeueOwner, s'.dequeuePosition, s'.claimed)
    ensures Inv(s')
  {
    QuietCalls(s, t, tk);
    QuietCallers(s, t, tk);
    QuietCounts(s, t, tk, s'.slots);
    WorkersFollow(s, w, p, t, tk, s'.claimed);
    TicketsFollow(s, w, p, t, tk, s'.claimed);
    RestFollows(s, t, tk);
  }

  /** The same for a worker that has released the dequeue mutex. */
  lemma QuietOwnStep(s: State, slots': seq<Slot>, w: nat, p: Worker, t: nat, tk: Ticket)
    requires Inv(s) && MayChange(s, w, t, s.claimed)
    requires Holding(s.workers[w].at) && !s.workers[w].at.Unlock? && !HasDequeue(p.at)
    requires Quiet(s, t, tk) && OwnOk(s, w, p, t, tk, s.claimed) && SlotsAgree(s, slots', t, tk)
    ensures Inv(s.(workers := s.workers[w := p], slots := slots', log := s.log[t := tk]))
  {
    assert DequeueSideOk(s.workers, s.dequeueOwner, s.dequeuePosition, s.claimed);
    QuietStep(s, s.(workers := s.workers[w := p], slots := slots', log := s.log[t := tk]), w, p, t, tk);
  }

  /** The events carry no information the invariant needs. */
  lemma SetEvents(s: State, ready: bool, free: bool)
    requires Inv(s)
    ensures Inv(s.(readyEvent := ready, freeEvent := free))
  {
  }

  lemma ClaimOk(s: State, w: nat)
    requires Shape(s) && MemShape(s.mem, s.calls) && w < |s.workers| && s.workers[w].at == Claim
    requires OwnFacts(s, w, s.workers[w].ticket) && s.workers[w].ticket == s.claimed
    ensures var t := s.workers[w].ticket;
      OwnOk(s, w, s.workers[w].(at := Unlock), t, s.log[t].(owner := Held(w)), s.claimed + 1)
  {
  }

  lemma ClaimSide(s: State, w: nat)
    requires Inv(s) && InBounds(s) && w < |s.workers| && s.workers[w].at == Claim
    ensures var s' := WorkerClaim(s, w);
      && s.workers[w].ticket == s.claimed < |s.log| && s.dequeueOwner == w && s.log[s.claimed].owner.Unclaimed?
      && !s.log[s.claimed].freed
      && DequeueSideOk(s'.workers, s'.dequeueOwner, s'.dequeuePosition, s'.claimed)
  {
    WorkerFacts(s, w);
  }

  lemma KeepClaim(s: State, w: nat)
    requires Inv(s) && InBounds(s) && w < |s.workers| && s.workers[w].at == Claim
    ensures Inv(WorkerClaim(s, w))
  {
    hide Inv;
    var p := s.workers[w];
    WorkerFacts(s, w);
    ClaimSide(s, w);
    ClaimOk(s, w);
    UnfreedInWindow(s, p.ticket);
    SlotFollows(s, p.ticket, s.log[p.ticket].(owner := Held(w)));
    QuietStep(s, WorkerClaim(s, w), w, p.(at := Unlock), p.ticket, s.log[p.ticket].(owner := Held(w)));
  }

  lemma FreeSlotOk(s: State, w: nat)
    requires Shape(s) && MemShape(s.mem, s.calls) && w < |s.workers| && s.workers[w].at == FreeSlot
    requires OwnFacts(s, w, s.workers[w].ticket)
    ensures var t := s.workers[w].ticket;
      OwnOk(s, w, s.workers[w].(at := SignalFree), t, s.log[t].(freed := true), s.claimed)
  {
  }

  lemma KeepFreeSlot(s: State, w: nat)
    requires Inv(s) && InBounds(s) && w < |s.workers| && s.workers[w].at == FreeSlot
    ensures Inv(WorkerFreeSlot(s, w))
  {
    hide Inv;
    var p := s.workers[w];
    WorkerFacts(s, w);
    FreeSlotOk(s, w);
    UnfreedInWindow(s, p.ticket);
    var tk := s.log[p.ticket].(freed := true);
    SlotFollows(s, p.ticket, tk);
    QuietOwnStep(s, SlotWith(s, p.ticket, Free), w, p.(at := SignalFree), p.ticket, tk);
  }

  lemma SignalKeyOk(s: State, w: nat)
    requires Shape(s) && MemShape(s.mem, s.calls) && w < |s.workers| && s.workers[w].at == SignalFree
    requires OwnFacts(s, w, s.workers[w].ticket) && s.workers[w].work.DeriveKey?
    ensures var t := s.workers[w].ticket;
      OwnOk(s, w, s.workers[w].(at := Idle), t, s.log[t].(owner := Done), s.claimed)
  {
  }

  /** A finished key derivation. */
  lemma KeepSignalFreeKey(s: State, w: nat)
    requires Inv(s) && InBounds(s) && w < |s.workers| && s.workers[w].at == SignalFree && s.workers[w].work.DeriveKey?
    ensures Inv(WorkerSignalFree(s, w))
  {
    hide Inv;
    var p := s.workers[w];
    WorkerFacts(s, w);
    SignalKeyOk(s, w);
    var tk := s.log[p.ticket].(owner := Done);
    SlotStays(s, p.ticket, tk);
    QuietOwnStep(s, s.slots, w, p.(at := Idle), p.ticket, tk);
    SetEvents(s.(workers := s.workers[w := p.(at := Idle)], log := s.log[p.ticket := tk]), s.readyEvent, true);
  }

  lemma KeepSignalFreeData(s: State, w: nat)
    requires Inv(s) && InBounds(s) && w < |s.workers| && s.workers[w].at == SignalFree && !s.workers[w].work.DeriveKey?
    ensures Inv(WorkerSignalFree(s, w))
  {
    hide Inv;
    var p := s.workers[w];
    WorkerFacts(s, w);
    NextAt(s.log, s.calls, s.claimed, p, w, |s.workers|, LoadFirst, p.first);
    OwnStep(s, w, p.(at := LoadFirst, first := p.first));
    SetEvents(PutW(s, w, p.(at := LoadFirst)), s.readyEvent, true);
  }

  // ----- Steps that change a caller's memory -----

  /** Fragments of one job do not overlap. */
  lemma RangesDisjoint(calls: seq<Call>, j: nat, k: nat, m: nat, threads: nat, u: nat)
    requires threads > 0 && j < |calls| && k != m
    requires InRange(WorkOf(calls, j, k, threads), u)
    ensures !InRange(WorkOf(calls, j, m, threads), u)
  {
    if calls[j].job.Crypt? {
      var units := |calls[j].job.data|;
      if k < m { OffMonotone(units, threads, k, m); } else { OffMonotone(units, threads, m, k); }
    }
  }

  /** `buffer` differs from the buffer of ticket `t`'s job only inside the ticket's range. */
  ghost predicate OwnRangeOnly(s: State, t: nat, buffer: seq<Unit>)
    requires Shape(s) && t < |s.log|
  {
    var tk := s.log[t];
    && tk.job < |s.calls| && s.calls[tk.job].job.Crypt?
    && |buffer| == |s.mem[tk.job].buffer| == |s.calls[tk.job].job.data|
    && Pooled(s.calls[tk.job].job)
    && forall u :: 0 <= u < |buffer| && !InRange(WorkOf(s.calls, tk.job, tk.index, |s.workers|), u) ==>
         buffer[u] == s.mem[tk.job].buffer[u]
  }

  function WithBuffer(s: State, j: nat, buffer: seq<Unit>): State
    requires j < |s.mem|
  {
    PutMem(s, j, s.mem[j].(buffer := buffer))
  }

  lemma BufferTickets(s: State, t: nat, buffer: seq<Unit>)
    requires Inv(s) && t < |s.log| && OwnRangeOnly(s, t, buffer) && RunningNow(s.log[t], s.workers) && s.log[t].runs == 0
    ensures var s' := WithBuffer(s, s.log[t].job, buffer);
      MemShape(s'.mem, s.calls) && MemTickets(s'.mem, s.calls, s.log, s.workers)
  {
    var tk := s.log[t];
    var s' := WithBuffer(s, tk.job, buffer);
    forall v | 0 <= v < |s.log|
      ensures MemTicket(s'.mem, s.calls, s.log, s.workers, v)
    {
      assert MemTicket(s.mem, s.calls, s.log, s.workers, v);
      if v != t && s.log[v].job == tk.job {
        assert TicketOk(s.log, s.calls, s.claimed, s.workers, t);
        assert TicketOk(s.log, s.calls, s.claimed, s.workers, v);
        forall u | 0 <= u < |buffer| && InRange(WorkOf(s.calls, tk.job, s.log[v].index, |s.workers|), u)
          ensures buffer[u] == s.mem[tk.job].buffer[u]
        {
          RangesDisjoint(s.calls, tk.job, s.log[v].index, tk.index, |s.workers|, u);
        }
      }
    }
  }

  lemma BufferRest(s: State, t: nat, buffer: seq<Unit>)
    requires Inv(s) && t < |s.log| && OwnRangeOnly(s, t, buffer)
    ensures var s' := WithBuffer(s, s.log[t].job, buffer);
      MemShape(s'.mem, s.calls) && MemRest(s'.mem, s.calls, s.log, |s.workers|)
  {
    var tk := s.log[t];
    var s' := WithBuffer(s, tk.job, buffer);
    assert TicketOk(s.log, s.calls, s.claimed, s.workers, t);
    forall j | 0 <= j < |s.calls|
      ensures MemUnpublished(s'.mem, s.calls, s.log, |s.workers|, j)
    {
      assert MemUnpublished(s.mem, s.calls, s.log, |s.workers|, j);
      if j == tk.job {
        OffMonotone(|s.calls[j].job.data|, |s.workers|, tk.index, Published(s.log, s.calls[j]));
      }
    }
  }

  lemma BufferStep(s: State, t: nat, buffer: seq<Unit>)
    requires Inv(s) && t < |s.log| && OwnRangeOnly(s, t, buffer) && RunningNow(s.log[t], s.workers) && s.log[t].runs == 0
    ensures Inv(WithBuffer(s, s.log[t].job, buffer))
  {
    BufferTickets(s, t, buffer);
    BufferRest(s, t, buffer);
  }

  /** What a running worker knows about its fragment. */
  lemma RunFacts(s: State, w: nat)
    requires Inv(s) && w < |s.workers| && s.workers[w].at == Run
    ensures var p := s.workers[w];
      && p.ticket < |s.log| && s.log[p.ticket].job < |s.calls|
      && var tk := s.log[p.ticket];
      && tk.owner == Held(w) && tk.runs == 0
      && p.work == WorkOf(s.calls, tk.job, tk.index, |s.workers|)
      && (p.work.DataUnits? ==>
            && p.work.job == tk.job && s.calls[tk.job].job.Crypt? && Pooled(s.calls[tk.job].job)
            && |s.mem[tk.job].buffer| == |s.calls[tk.job].job.data|
            && p.work.offset + p.work.unitCount <= |s.calls[tk.job].job.data|
            && p.saved == s.calls[tk.job].job.data[p.work.offset..p.work.offset + p.work.unitCount]
            && p.work.startUnitNo == Advance(s.calls[tk.job].job.start, p.work.offset))
  {
    var p := s.workers[w];
    assert WorkerOk(s.log, s.calls, s.claimed, p, w, |s.workers|);
    assert TicketOk(s.log, s.calls, s.claimed, s.workers, p.ticket);
    assert CallOk(s.log, s.calls, s.callers, |s.workers|, s.log[p.ticket].job);
  }

  lemma KeepScribble(s: State, w: nat, junk: seq<Unit>)
    requires Inv(s) && InBounds(s) && Enabled(s, Scribble(w, junk))
    ensures Inv(WorkerScribble(s, w, junk))
  {
    hide Inv;
    var p := s.workers[w];
    RunFacts(s, w);
    var m := s.mem[p.work.job];
    BufferStep(s, p.ticket, Splice(m.buffer, p.work.offset, junk));
  }

  /** A fragment processed on its own gives its part of the whole result. */
  lemma FragmentResult(job: Job, offset: nat, count: nat, u: nat)
    requires job.Crypt? && offset <= u < offset + count <= |job.data|
    ensures UnitWise(job.crypt, Advance(job.start, offset), job.data[offset..offset + count])[u - offset] == Result(job, u)
  {
    AdvanceAdd(job.start, offset, u - offset);
  }

  lemma RunDataOk(s: State, w: nat)
    requires Shape(s) && MemShape(s.mem, s.calls) && w < |s.workers| && s.workers[w].at == Run
    requires OwnFacts(s, w, s.workers[w].ticket) && s.workers[w].work.DataUnits?
    requires var tk := s.log[s.workers[w].ticket];
      forall u :: 0 <= u < |s.mem[tk.job].buffer| && InRange(s.workers[w].work, u) ==>
        s.mem[tk.job].buffer[u] == Result(s.calls[tk.job].job, u)
    ensures var t := s.workers[w].ticket;
      OwnOk(s, w, s.workers[w].(at := Branch), t, s.log[t].(runs := 1), s.claimed)
  {
  }

  /** The buffer after a worker's routine has ended. */
  function RunBuffer(s: State, w: nat): seq<Unit>
    requires InBounds(s) && w < |s.workers| && s.workers[w].at == Run && s.workers[w].work.DataUnits?
  {
    var p := s.workers[w];
    Splice(s.mem[p.work.job].buffer, p.work.offset,
      UnitWise(s.calls[p.work.job].job.crypt, p.work.startUnitNo, p.saved))
  }

  lemma RunBufferRight(s: State, w: nat)
    requires Inv(s) && InBounds(s) && w < |s.workers| && s.workers[w].at == Run && s.workers[w].work.DataUnits?
    ensures var p := s.workers[w];
      && Inv(WithBuffer(s, p.work.job, RunBuffer(s, w)))
      && forall u :: 0 <= u < |RunBuffer(s, w)| && InRange(p.work, u) ==>
           u < |s.calls[p.work.job].job.data| && RunBuffer(s, w)[u] == Result(s.calls[p.work.job].job, u)
  {
    hide Inv;
    var p := s.workers[w];
    RunFacts(s, w);
    var buffer := RunBuffer(s, w);
    BufferStep(s, p.ticket, buffer);
    forall u | 0 <= u < |buffer| && InRange(p.work, u)
      ensures buffer[u] == Result(s.calls[p.work.job].job, u)
    {
      FragmentResult(s.calls[p.work.job].job, p.work.offset, p.work.unitCount, u);
    }
  }

  lemma KeepRunData(s: State, w: nat)
    requires Inv(s) && InBounds(s) && w < |s.workers| && s.workers[w].at == Run && s.workers[w].work.DataUnits?
    ensures Inv(WorkerRun(s, w))
  {
    hide Inv;
    RunBufferRight(s, w);
    RunFacts(s, w);
    FinishRun(WithBuffer(s, s.workers[w].work.job, RunBuffer(s, w)), w);
  }

  lemma FinishRun(s: State, w: nat)
    requires Inv(s) && w < |s.workers| && s.workers[w].at == Run && s.workers[w].work.DataUnits?
    requires s.workers[w].ticket < |s.log|
    requires var tk := s.log[s.workers[w].ticket];
      && tk.job < |s.calls| && s.calls[tk.job].job.Crypt?
      && forall u :: 0 <= u < |s.mem[tk.job].buffer| && InRange(s.workers[w].work, u) ==>
           s.mem[tk.job].buffer[u] == Result(s.calls[tk.job].job, u)
    ensures var p := s.workers[w];
      Inv(s.(workers := s.workers[w := p.(at := Branch)], log := s.log[p.ticket := s.log[p.ticket].(runs := 1)]))
  {
    hide Inv;
    var p := s.workers[w];
    WorkerFacts(s, w);
    RunDataOk(s, w);
    var tk := s.log[p.ticket].(runs := 1);
    SlotStays(s, p.ticket, tk);
    QuietOwnStep(s, s.slots, w, p.(at := Branch), p.ticket, tk);
  }

  /** A key derivation's memory is its own. */
  lemma KeyStep(s: State, j: nat, m: Memory)
    requires Inv(s) && j < |s.calls| && s.calls[j].job.Derive?
    requires m.key == s.calls[j].job.key && m.buffer == s.mem[j].buffer && (s.mem[j].keyReady ==> m.keyReady)
    ensures Inv(PutMem(s, j, m))
  {
    var mem' := s.mem[j := m];
    forall t | 0 <= t < |s.log|
      ensures MemTicket(mem', s.calls, s.log, s.workers, t)
    {
      assert MemTicket(s.mem, s.calls, s.log, s.workers, t);
    }
    forall i | 0 <= i < |s.calls|
      ensures MemUnpublished(mem', s.calls, s.log, |s.workers|, i)
    {
      assert MemUnpublished(s.mem, s.calls, s.log, |s.workers|, i);
    }
  }

  lemma RunKeyOk(s: State, w: nat)
    requires Shape(s) && MemShape(s.mem, s.calls) && w < |s.workers| && s.workers[w].at == Run
    requires OwnFacts(s, w, s.workers[w].ticket) && s.workers[w].work.DeriveKey?
    requires s.mem[s.workers[w].work.job].key == s.calls[s.workers[w].work.job].job.key
    ensures var t := s.workers[w].ticket;
      OwnOk(s, w, s.workers[w].(at := SetFlag), t, s.log[t].(runs := 1), s.claimed)
  {
  }

  lemma RunKeyStored(s: State, w: nat)
    requires Inv(s) && InBounds(s) && w < |s.workers| && s.workers[w].at == Run && s.workers[w].work.DeriveKey?
    ensures var j := s.workers[w].work.job;
      Inv(PutMem(s, j, s.mem[j].(key := s.calls[j].job.key)))
  {
    var j := s.workers[w].work.job;
    KeyStep(s, j, s.mem[j].(key := s.calls[j].job.key));
  }

  lemma KeepRunKey(s: State, w: nat)
    requires Inv(s) && InBounds(s) && w < |s.workers| && s.workers[w].at == Run && s.workers[w].work.DeriveKey?
    ensures Inv(WorkerRun(s, w))
  {
    hide Inv;
    RunFacts(s, w);
    RunKeyStored(s, w);
    var j := s.workers[w].work.job;
    FinishRunKey(PutMem(s, j, s.mem[j].(key := s.calls[j].job.key)), w);
  }

  lemma FinishRunKey(s: State, w: nat)
    requires Inv(s) && w < |s.workers| && s.workers[w].at == Run && s.workers[w].work.DeriveKey?
    requires s.workers[w].work.job < |s.calls| && s.calls[s.workers[w].work.job].job.Derive?
    requires s.mem[s.workers[w].work.job].key == s.calls[s.workers[w].work.job].job.key
    requires s.workers[w].ticket < |s.log|
    ensures var p := s.workers[w];
      Inv(s.(workers := s.workers[w := p.(at := SetFlag)], log := s.log[p.ticket := s.log[p.ticket].(runs := 1)]))
  {
    hide Inv;
    var p := s.workers[w];
    WorkerFacts(s, w);
    RunKeyOk(s, w);
    var tk := s.log[p.ticket].(runs := 1);
    SlotStays(s, p.ticket, tk);
    QuietOwnStep(s, s.slots, w, p.(at := SetFlag), p.ticket, tk);
  }

  lemma SetFlagOk(s: State, w: nat)
    requires Shape(s) && MemShape(s.mem, s.calls) && w < |s.workers| && s.workers[w].at == SetFlag
    requires OwnFacts(s, w, s.workers[w].ticket) && s.workers[w].work.DeriveKey?
    requires s.mem[s.workers[w].work.job].keyReady
    ensures var t := s.workers[w].ticket;
      OwnOk(s, w, s.workers[w].(at := FreeSlot), t, s.log[t], s.claimed)
  {
    var t := s.workers[w].ticket;
    assert s.log[t := s.log[t]] == s.log;
  }

  lemma KeepSetFlag(s: State, w: nat)
    requires Inv(s) && InBounds(s) && w < |s.workers| && s.workers[w].at == SetFlag
    ensures Inv(WorkerSetFlag(s, w))
  {
    hide Inv;
    var p := s.workers[w];
    WorkerFacts(s, w);
    var m := s.mem[p.work.job].(keyReady := true);
    KeyStep(s, p.work.job, m);
    FinishSetFlag(PutMem(s, p.work.job, m), w);
  }

  lemma FinishSetFlag(s: State, w: nat)
    requires Inv(s) && w < |s.workers| && s.workers[w].at == SetFlag && s.workers[w].work.DeriveKey?
    requires s.workers[w].work.job < |s.mem| && s.mem[s.workers[w].work.job].keyReady
    ensures Inv(PutW(s, w, s.workers[w].(at := FreeSlot)))
  {
    hide Inv;
    var p := s.workers[w];
    WorkerFacts(s, w);
    SetFlagOk(s, w);
    var tk := s.log[p.ticket];
    SlotStays(s, p.ticket, tk);
    assert s.log[p.ticket := tk] == s.log;
    QuietOwnStep(s, s.slots, w, p.(at := FreeSlot), p.ticket, tk);
  }
}
