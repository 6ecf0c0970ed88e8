// What the thread pool promises its callers, for every interleaving.
module ThreadPoolTheorem {
  import opened Words
  import opened FragmentPlan
  import opened ThreadPool
  import opened ThreadPoolInvariant
  import opened ThreadPoolWorkers
  import opened ThreadPoolCountdown
  import opened ThreadPoolCallers
  import opened ThreadPoolFinish

  lemma WorkerKeeps(s: State, w: nat)
    requires Inv(s) && InBounds(s) && w < |s.workers| && WorkerCanStep(s, w)
    ensures Inv(WorkerStep(s, w))
  {
    hide Inv, InBounds;
    match s.workers[w].at
    case Idle => KeepIdle(s, w);
    case Take => KeepTake(s, w);
    case Poll => KeepPoll(s, w);
    case Wait => KeepWait(s, w);
    case Claim => KeepClaim(s, w);
    case Unlock => KeepUnlock(s, w);
    case Start => KeepStart(s, w);
    case Run => WorkerRunKeeps(s, w);
    case SetFlag => KeepSetFlag(s, w);
    case Branch => KeepBranch(s, w);
    case FreeSlot => KeepFreeSlot(s, w);
    case SignalFree => if s.workers[w].work.DeriveKey? { KeepSignalFreeKey(s, w); } else { KeepSignalFreeData(s, w); }
    case LoadFirst => KeepLoadFirst(s, w);
    case Decrement => KeepDecrement(s, w);
    case ReloadFirst => KeepReloadFirst(s, w);
    case SetCompleted => KeepSetCompleted(s, w);
  }

  lemma WorkerRunKeeps(s: State, w: nat)
    requires Inv(s) && InBounds(s) && w < |s.workers| && s.workers[w].at == Run
    ensures Inv(WorkerRun(s, w))
  {
    hide Inv;
    assert WorkerInBounds(s.mem, s.calls, s.workers[w]);
    if s.workers[w].work.DataUnits? { KeepRunData(s, w); } else { KeepRunKey(s, w); }
  }

  lemma CallerKeeps(s: State, c: nat)
    requires Inv(s) && InBounds(s) && c < |s.callers| && CallerCanStep(s, c)
    ensures Inv(CallerStep(s, c))
  {
    hide Inv;
    match s.callers[c].at
    case Lock => if s.calls[s.callers[c].job].job.Crypt? { KeepLockData(s, c); } else { KeepLockKey(s, c); }
    case PickFirst => KeepPickFirst(s, c);
    case PollFirst => KeepPollFirst(s, c);
    case WaitFirst => KeepWaitFirst(s, c);
    case SetCount => KeepSetCount(s, c);
    case Loop => if s.callers[c].left > 0 { KeepLoopTake(s, c); } else { KeepLoopEnd(s, c); }
    case PollSlot => KeepPollSlot(s, c);
    case WaitSlot => KeepWaitSlot(s, c);
    case Fill => KeepFill(s, c);
    case Publish => KeepPublish(s, c);
    case Signal => KeepSignal(s, c);
    case Release => if s.calls[s.callers[c].job].job.Crypt? { KeepReleaseData(s, c); } else { KeepReleaseKey(s, c); }
    case WaitDone => KeepWaitDone(s, c);
    case FreeFirst => KeepFreeFirst(s, c);
    case SignalDone => KeepSignalDone(s, c);
  }

  /** Every step that some thread can take keeps the invariant. */
  lemma StepKeeps(s: State, a: Action)
    requires Inv(s) && InBounds(s) && Enabled(s, a)
    ensures Inv(Step(s, a))
  {
    hide Inv, InBounds;
    match a
    case ByWorker(w) => WorkerKeeps(s, w);
    case ByCaller(c) => CallerKeeps(s, c);
    case NewCall(c, job) => KeepCall(s, c, job);
    case Scribble(w, junk) => KeepScribble(s, w, junk);
  }

  lemma {:induction false} RunKeeps(run: seq<State>, acts: seq<Action>, i: nat)
    requires IsRun(run, acts) && i < |run|
    ensures Inv(run[i])
  {
    hide Inv;
    if i == 0 {
      InitInv(run[0]);
    } else {
      var k := i - 1;
      RunKeeps(run, acts, k);
      InvInBounds(run[k]);
      assert StepsTo(run[k], acts[k], run[k + 1]);
      StepKeeps(run[k], acts[k]);
    }
  }

  /** No thread ever uses an index out of range, in any run. */
  lemma RunInBounds(run: seq<State>, acts: seq<Action>, i: nat)
    requires IsRun(run, acts) && i < |run|
    ensures InBounds(run[i])
  {
    RunKeeps(run, acts, i);
    InvInBounds(run[i]);
  }

  /** A data call that returned: each fragment has run once, and each unit has its result. */
  lemma ReturnedUnit(s: State, j: nat, u: nat) returns (t: nat)
    requires Inv(s) && j < |s.calls| && s.calls[j].returned && s.calls[j].job.Crypt? && Pooled(s.calls[j].job)
    requires u < |s.calls[j].job.data|
    ensures t < |s.log| && s.log[t].job == j && s.log[t].runs == 1
    ensures InRange(WorkOf(s.calls, j, s.log[t].index, |s.workers|), u)
    ensures j < |s.mem| && u < |s.mem[j].buffer| && s.mem[j].buffer[u] == Result(s.calls[j].job, u)
  {
    var f, threads, units := s.calls[j].first, |s.workers|, |s.calls[j].job.data|;
    CallFact(s, j);
    FirstTicket(s, j);
    TicketFact(s, f);
    OffTotal(units, threads);
    var k := FragmentOf(units, threads, u, Count(units, threads));
    t := f + k;
    assert Owns(s.calls, j, t, threads);
    FreedAllCounted(s, j, t);
    TicketFact(s, t);
    assert MemTicket(s.mem, s.calls, s.log, s.workers, t);
  }

  lemma ReturnedBuffer(s: State, j: nat)
    requires Inv(s) && j < |s.calls| && s.calls[j].returned && s.calls[j].job.Crypt?
    ensures j < |s.mem|
    ensures var job := s.calls[j].job; s.mem[j].buffer == UnitWise(job.crypt, job.start, job.data)
  {
    var job := s.calls[j].job;
    if Pooled(job) {
      forall u | 0 <= u < |job.data|
        ensures s.mem[j].buffer[u] == Result(job, u)
      {
        var _ := ReturnedUnit(s, j, u);
      }
    }
  }

  /** When EncryptionThreadPoolDoWork has returned, its buffer is what one sequential pass over all
      units gives, whatever the other threads do, then and in every later state. */
  lemma DoWorkIsSequential(run: seq<State>, acts: seq<Action>, i: nat, j: nat)
    requires IsRun(run, acts) && i < |run|
    requires j < |run[i].calls| && run[i].calls[j].returned && run[i].calls[j].job.Crypt?
    ensures j < |run[i].mem|
    ensures var job := run[i].calls[j].job; run[i].mem[j].buffer == UnitWise(job.crypt, job.start, job.data)
  {
    RunKeeps(run, acts, i);
    ReturnedBuffer(run[i], j);
  }

  /** No fragment ever runs twice; those of a call that returned have run. */
  lemma FragmentsRunOnce(run: seq<State>, acts: seq<Action>, i: nat, t: nat)
    requires IsRun(run, acts) && i < |run| && t < |run[i].log|
    ensures run[i].log[t].runs <= 1
    ensures run[i].log[t].job < |run[i].calls|
    ensures var call := run[i].calls[run[i].log[t].job]; call.returned && call.job.Crypt? ==> run[i].log[t].runs == 1
  {
    var s := run[i];
    RunKeeps(run, acts, i);
    TicketFact(s, t);
    var j := s.log[t].job;
    if s.calls[j].returned && s.calls[j].job.Crypt? {
      CallFact(s, j);
      FirstTicket(s, j);
      TicketFact(s, s.calls[j].first);
      assert Owns(s.calls, j, t, |s.workers|);
      FreedAllCounted(s, j, t);
    }
  }

  /** A completion flag that is set stands beside the right key. */
  lemma FlagMeansKey(run: seq<State>, acts: seq<Action>, i: nat, j: nat)
    requires IsRun(run, acts) && i < |run| && j < |run[i].calls| && run[i].calls[j].job.Derive?
    ensures j < |run[i].mem|
    ensures run[i].mem[j].keyReady ==> run[i].mem[j].key == run[i].calls[j].job.key
  {
    RunKeeps(run, acts, i);
  }

  /** The delicate read: a worker that has freed its slot but not counted its fragment yet finds its
      own job's FirstFragment there, in every run. */
  lemma FreedSlotStillNamesFirst(run: seq<State>, acts: seq<Action>, i: nat, w: nat)
    requires IsRun(run, acts) && i < |run| && w < |run[i].workers|
    requires run[i].workers[w].at.LoadFirst? || run[i].workers[w].at.ReloadFirst?
    ensures var s := run[i];
      var p := s.workers[w];
      && |s.slots| == QUEUE_SIZE && p.slot < QUEUE_SIZE && p.ticket < |s.log| && s.log[p.ticket].index <= p.ticket
      && s.slots[p.slot].first == SlotOf(p.ticket - s.log[p.ticket].index)
      && s.slots[p.slot].first < QUEUE_SIZE
      && !s.slots[s.slots[p.slot].first].state.Free?
  {
    var s := run[i];
    RunKeeps(run, acts, i);
    ReadsOwnFirst(s, w);
    var t := s.workers[w].ticket;
    WorkerFacts(s, w);
    UnfinishedInWindow(s, t);
    SlotFact(s, t - s.log[t].index);
  }

  /** The counter of an unfinished job is the number of its fragments not yet counted, and its
      completion event is set exactly between the signal and the caller's wake-up. */
  lemma CounterIsExact(run: seq<State>, acts: seq<Action>, i: nat, j: nat)
    requires IsRun(run, acts) && i < |run| && j < |run[i].calls|
    requires run[i].calls[j].job.Crypt? && run[i].calls[j].begun
    requires run[i].calls[j].first < |run[i].log| && !run[i].log[run[i].calls[j].first].freed
    ensures var s := run[i];
      var f, n := s.calls[j].first, Frags(s.calls[j].job, |s.workers|);
      && |s.slots| == QUEUE_SIZE
      && s.slots[SlotOf(f)].outstanding == n - CountDone(s.log, f, n)
      && (s.slots[SlotOf(f)].outstanding == 0 <==> !s.log[f].phase.Running?)
      && (s.slots[SlotOf(f)].completed <==> s.log[f].phase.Signalled?)
  {
    var s := run[i];
    RunKeeps(run, acts, i);
    CountFact(s, j);
    CountBounds(s.log, s.calls[j].first, NFrags(s.calls, j, |s.workers|));
    UnfreedInWindow(s, s.calls[j].first);
    SlotFact(s, s.calls[j].first);
  }
}
