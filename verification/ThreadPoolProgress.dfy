// No wake-up is lost, nothing deadlocks, and every call returns.
module ThreadPoolProgress {
  import opened Words
  import opened FragmentPlan
  import opened ThreadPool
  import opened ThreadPoolInvariant
  import opened ThreadPoolWorkers
  import opened ThreadPoolCountdown
  import opened ThreadPoolCallers
  import opened ThreadPoolFinish
  import opened ThreadPoolTheorem

  // ----- No lost wake-up -----

  /** Some thread has marked a slot Free and is about to set WorkItemCompletedEvent. */
  ghost predicate SomeoneFrees(workers: seq<Worker>, callers: seq<Caller>) {
    || (exists w :: 0 <= w < |workers| && workers[w].at.SignalFree?)
    || (exists c :: 0 <= c < |callers| && callers[c].at.SignalDone?)
  }

  ghost predicate SomeoneReadies(callers: seq<Caller>) {
    exists c :: 0 <= c < |callers| && callers[c].at.Signal?
  }

  function Awaited(p: Caller): nat {
    if p.at.WaitFirst? then p.first else p.slot
  }

  /** A caller that waits for a slot will find its event set, unless the slot is still in use. */
  ghost predicate CallerAwake(s: State, c: nat)
    requires Shape(s) && c < |s.callers|
  {
    var p := s.callers[c];
    (p.at.WaitFirst? || p.at.WaitSlot?) && !s.freeEvent && Awaited(p) < QUEUE_SIZE ==>
      s.slots[Awaited(p)].state != Free || SomeoneFrees(s.workers, s.callers)
  }

  ghost predicate WorkerAwake(s: State, w: nat)
    requires Shape(s) && w < |s.workers|
  {
    var p := s.workers[w];
    p.at.Wait? && !s.readyEvent && p.slot < QUEUE_SIZE ==>
      s.slots[p.slot].state != Ready || SomeoneReadies(s.callers)
  }

  ghost predicate Awake(s: State)
    requires Shape(s)
  {
    && (forall c :: 0 <= c < |s.callers| ==> CallerAwake(s, c))
    && (forall w :: 0 <= w < |s.workers| ==> WorkerAwake(s, w))
  }

  lemma LockFacts(s: State)
    requires Inv(s)
    ensures Shape(s) && Locks(s.callers, s.enqueueOwner, s.workers, s.dequeueOwner)
  {
  }

  /** What a step may do to slots and events without losing a wake-up. */
  ghost predicate NoneLost(s: State, s': State)
    requires Shape(s) && Shape(s')
  {
    && |s'.workers| == |s.workers| && |s'.callers| == |s.callers|
    && (forall i :: 0 <= i < QUEUE_SIZE && s'.slots[i].state == Free ==>
          s.slots[i].state == Free || SomeoneFrees(s'.workers, s'.callers))
    && (forall i :: 0 <= i < QUEUE_SIZE && s'.slots[i].state == Ready ==>
          s.slots[i].state == Ready || SomeoneReadies(s'.callers))
    && (SomeoneFrees(s.workers, s.callers) ==> SomeoneFrees(s'.workers, s'.callers) || s'.freeEvent)
    && (SomeoneReadies(s.callers) ==> SomeoneReadies(s'.callers) || s'.readyEvent)
  }

  /** The other threads' wake-ups survive a step that does not clear their event. */
  lemma OthersAwake(s: State, s': State, c: nat)
    requires Shape(s) && Shape(s') && NoneLost(s, s') && c < |s.callers| && CallerAwake(s, c)
    requires s'.callers[c] == s.callers[c] && (s.freeEvent ==> s'.freeEvent)
    ensures CallerAwake(s', c)
  {
  }

  lemma OthersAwakeW(s: State, s': State, w: nat)
    requires Shape(s) && Shape(s') && NoneLost(s, s') && w < |s.workers| && WorkerAwake(s, w)
    requires s'.workers[w] == s.workers[w] && (s.readyEvent ==> s'.readyEvent)
    ensures WorkerAwake(s', w)
  {
  }

  function StateIn(s: State, i: nat): SlotState
    requires i < |s.slots|
  {
    s.slots[i].state
  }

  /** What the other threads can see of a worker's step. */
  ghost predicate WorkerSeen(s: State, s': State, w: nat)
    requires Shape(s) && w < |s.workers|
  {
    var p := s.workers[w];
    && Shape(s')
    && s'.callers == s.callers && |s'.workers| == |s.workers|
    && (forall i :: 0 <= i < |s.workers| && i != w ==> s'.workers[i] == s.workers[i])
    && (forall i :: 0 <= i < QUEUE_SIZE ==>
          || StateIn(s', i) == StateIn(s, i)
          || (p.at.Claim? && StateIn(s', i) == Busy)
          || (p.at.FreeSlot? && s'.workers[w].at.SignalFree?))
    && (p.at.FreeSlot? ==> forall i :: 0 <= i < QUEUE_SIZE && StateIn(s', i) == Ready ==> StateIn(s, i) == Ready)
    && s'.freeEvent == (s.freeEvent || p.at.SignalFree?)
    && s'.readyEvent == (s.readyEvent && !p.at.Wait?)
    && (p.at.Poll? && s'.workers[w].at.Wait? ==> StateIn(s, p.slot % QUEUE_SIZE) != Ready || p.slot >= QUEUE_SIZE)
    && (s'.workers[w].at.Wait? ==> p.at.Poll? && s'.workers[w].slot == p.slot)
  }

  lemma SeenDequeue(s: State, w: nat)
    requires InBounds(s) && w < |s.workers| && WorkerCanStep(s, w)
    requires s.workers[w].at.Idle? || HasDequeue(s.workers[w].at)
    ensures WorkerSeen(s, WorkerStep(s, w), w)
  {
  }

  lemma SeenRoutine(s: State, w: nat)
    requires InBounds(s) && w < |s.workers| && WorkerCanStep(s, w)
    requires var at := s.workers[w].at; at.Start? || at.SetFlag? || at.Branch?
    ensures WorkerSeen(s, WorkerStep(s, w), w)
  {
  }

  lemma SeenRun(s: State, w: nat)
    requires InBounds(s) && w < |s.workers| && s.workers[w].at.Run?
    ensures WorkerSeen(s, WorkerRun(s, w), w)
  {
  }

  lemma SeenFree(s: State, w: nat)
    requires InBounds(s) && w < |s.workers| && WorkerCanStep(s, w)
    requires var at := s.workers[w].at; at.FreeSlot? || at.SignalFree? || at.LoadFirst? || at.ReloadFirst?
    ensures WorkerSeen(s, WorkerStep(s, w), w)
  {
  }

  lemma SeenDecrement(s: State, w: nat)
    requires InBounds(s) && w < |s.workers| && s.workers[w].at.Decrement?
    ensures WorkerSeen(s, WorkerDecrement(s, w), w)
  {
  }

  lemma SeenSetCompleted(s: State, w: nat)
    requires InBounds(s) && w < |s.workers| && s.workers[w].at.SetCompleted?
    ensures WorkerSeen(s, WorkerSetCompleted(s, w), w)
  {
  }

  lemma WorkerStepSeen(s: State, w: nat)
    requires InBounds(s) && w < |s.workers| && WorkerCanStep(s, w)
    ensures WorkerSeen(s, WorkerStep(s, w), w)
  {
    hide InBounds, WorkerSeen;
    match s.workers[w].at
    case Idle | Take | Poll | Wait | Claim | Unlock => SeenDequeue(s, w);
    case Start | SetFlag | Branch => SeenRoutine(s, w);
    case Run => SeenRun(s, w);
    case FreeSlot | SignalFree | LoadFirst | ReloadFirst => SeenFree(s, w);
    case Decrement => SeenDecrement(s, w);
    case SetCompleted => SeenSetCompleted(s, w);
  }

  lemma WorkerLosesNone(s: State, s': State, w: nat)
    requires Shape(s) && w < |s.workers| && WorkerSeen(s, s', w)
    ensures NoneLost(s, s')
  {
    if SomeoneFrees(s.workers, s.callers) && !s'.freeEvent {
      if x :| 0 <= x < |s.workers| && s.workers[x].at.SignalFree? {
        assert s'.workers[x].at.SignalFree?;
      }
    }
    if s.workers[w].at.FreeSlot? && s'.workers[w].at.SignalFree? {
      assert SomeoneFrees(s'.workers, s'.callers);
    }
    forall i | 0 <= i < QUEUE_SIZE && s'.slots[i].state == Free
      ensures s.slots[i].state == Free || SomeoneFrees(s'.workers, s'.callers)
    {
      assert StateIn(s', i) == Free;
    }
    forall i | 0 <= i < QUEUE_SIZE && s'.slots[i].state == Ready
      ensures s.slots[i].state == Ready
    {
      assert StateIn(s', i) == Ready;
    }
  }

  lemma WorkerKeepsAwake(s: State, w: nat)
    requires Inv(s) && InBounds(s) && w < |s.workers| && WorkerCanStep(s, w) && Awake(s)
    ensures Shape(WorkerStep(s, w)) && Awake(WorkerStep(s, w))
  {
    hide Inv, InBounds;
    var s' := WorkerStep(s, w);
    LockFacts(s);
    WorkerStepSeen(s, w);
    WorkerAwakeAfter(s, s', w);
  }

  lemma WorkerAwakeAfter(s: State, s': State, w: nat)
    requires Shape(s) && w < |s.workers| && WorkerSeen(s, s', w) && Awake(s)
    requires Locks(s.callers, s.enqueueOwner, s.workers, s.dequeueOwner)
    requires s.workers[w].at.Wait? ==> s.readyEvent
    ensures Awake(s')
  {
    WorkerLosesNone(s, s', w);
    forall c | 0 <= c < |s'.callers|
      ensures CallerAwake(s', c)
    {
      OthersAwake(s, s', c);
    }
    forall x | 0 <= x < |s'.workers|
      ensures WorkerAwake(s', x)
    {
      if x != w && s'.workers[x].at.Wait? {
        OthersAwakeW(s, s', x);
      }
    }
  }

  /** What the other threads can see of a caller's step. */
  ghost predicate CallerSeen(s: State, s': State, c: nat)
    requires Shape(s) && c < |s.callers|
  {
    var p := s.callers[c];
    && Shape(s')
    && s'.workers == s.workers && |s'.callers| == |s.callers|
    && (forall i :: 0 <= i < |s.callers| && i != c ==> s'.callers[i] == s.callers[i])
    && (forall i :: 0 <= i < QUEUE_SIZE ==>
          || StateIn(s', i) == StateIn(s, i)
          || (p.at.Publish? && StateIn(s', i) == Ready && s'.callers[c].at.Signal?)
          || (p.at.FreeFirst? && StateIn(s', i) == Free && s'.callers[c].at.SignalDone?))
    && s'.freeEvent == ((s.freeEvent || p.at.SignalDone?) && !p.at.WaitFirst? && !p.at.WaitSlot?)
    && s'.readyEvent == (s.readyEvent || p.at.Signal?)
    && (s'.callers[c].at.WaitFirst? || s'.callers[c].at.WaitSlot? ==>
          && (p.at.PollFirst? || p.at.PollSlot?)
          && (Awaited(s'.callers[c]) < QUEUE_SIZE ==> StateIn(s', Awaited(s'.callers[c])) != Free))
  }

  lemma SeenFirst(s: State, c: nat)
    requires InBounds(s) && c < |s.callers| && CallerCanStep(s, c)
    requires var at := s.callers[c].at; at.Lock? || at.PickFirst? || at.PollFirst? || at.WaitFirst? || at.SetCount?
    ensures CallerSeen(s, CallerStep(s, c), c)
  {
  }

  lemma SeenLoop(s: State, c: nat)
    requires InBounds(s) && c < |s.callers| && CallerCanStep(s, c)
    requires var at := s.callers[c].at; at.Loop? || at.PollSlot? || at.WaitSlot? || at.Publish? || at.Signal?
    ensures CallerSeen(s, CallerStep(s, c), c)
  {
  }

  lemma SeenFill(s: State, c: nat)
    requires InBounds(s) && c < |s.callers| && s.callers[c].at.Fill?
    ensures CallerSeen(s, CallerFill(s, c), c)
  {
  }

  lemma SeenEnd(s: State, c: nat)
    requires InBounds(s) && c < |s.callers| && CallerCanStep(s, c)
    requires var at := s.callers[c].at; at.Release? || at.WaitDone? || at.FreeFirst? || at.SignalDone?
    ensures CallerSeen(s, CallerStep(s, c), c)
  {
  }

  lemma CallerStepSeen(s: State, c: nat)
    requires InBounds(s) && c < |s.callers| && CallerCanStep(s, c)
    ensures CallerSeen(s, CallerStep(s, c), c)
  {
    hide InBounds, CallerSeen;
    match s.callers[c].at
    case Lock | PickFirst | PollFirst | WaitFirst | SetCount => SeenFirst(s, c);
    case Loop | PollSlot | WaitSlot | Publish | Signal => SeenLoop(s, c);
    case Fill => SeenFill(s, c);
    case Release | WaitDone | FreeFirst | SignalDone => SeenEnd(s, c);
  }

  lemma CallerLosesNone(s: State, s': State, c: nat)
    requires Shape(s) && c < |s.callers| && CallerSeen(s, s', c)
    ensures NoneLost(s, s')
  {
    if SomeoneFrees(s.workers, s.callers) && !s'.freeEvent {
      if x :| 0 <= x < |s.workers| && s.workers[x].at.SignalFree? {
        assert s'.workers[x].at.SignalFree?;
      } else {
        var y :| 0 <= y < |s.callers| && s.callers[y].at.SignalDone?;
        assert s'.callers[y].at.SignalDone?;
      }
    }
    if SomeoneReadies(s.callers) && !s'.readyEvent {
      var x :| 0 <= x < |s.callers| && s.callers[x].at.Signal?;
      assert s'.callers[x].at.Signal?;
    }
    forall i | 0 <= i < QUEUE_SIZE && s'.slots[i].state == Free
      ensures s.slots[i].state == Free || SomeoneFrees(s'.workers, s'.callers)
    {
      assert StateIn(s', i) == Free;
    }
    forall i | 0 <= i < QUEUE_SIZE && s'.slots[i].state == Ready
      ensures s.slots[i].state == Ready || SomeoneReadies(s'.callers)
    {
      assert StateIn(s', i) == Ready;
    }
  }

  lemma CallerAwakeAfter(s: State, s': State, c: nat)
    requires Shape(s) && c < |s.callers| && CallerSeen(s, s', c) && Awake(s)
    requires Locks(s.callers, s.enqueueOwner, s.workers, s.dequeueOwner)
    ensures Awake(s')
  {
    CallerLosesNone(s, s', c);
    forall x | 0 <= x < |s'.callers|
      ensures CallerAwake(s', x)
    {
      if x != c && (s'.callers[x].at.WaitFirst? || s'.callers[x].at.WaitSlot?) {
        OthersAwake(s, s', x);
      }
    }
    forall w | 0 <= w < |s'.workers|
      ensures WorkerAwake(s', w)
    {
      OthersAwakeW(s, s', w);
    }
  }

  lemma CallerKeepsAwake(s: State, c: nat)
    requires Inv(s) && InBounds(s) && c < |s.callers| && CallerCanStep(s, c) && Awake(s)
    ensures Shape(CallerStep(s, c)) && Awake(CallerStep(s, c))
  {
    hide Inv, InBounds;
    LockFacts(s);
    CallerStepSeen(s, c);
    CallerAwakeAfter(s, CallerStep(s, c), c);
  }

  lemma NewCallKeepsAwake(s: State, c: nat, job: Job)
    requires Shape(s) && c < |s.callers| && s.callers[c].at == Out && Awake(s)
    ensures Shape(CallerCall(s, c, job)) && Awake(CallerCall(s, c, job))
  {
    var s' := CallerCall(s, c, job);
    if SomeoneFrees(s.workers, s.callers) {
      if x :| 0 <= x < |s.callers| && s.callers[x].at.SignalDone? {
        assert s'.callers[x].at.SignalDone?;
      }
    }
    if SomeoneReadies(s.callers) {
      var x :| 0 <= x < |s.callers| && s.callers[x].at.Signal?;
      assert s'.callers[x].at.Signal?;
    }
    forall x | 0 <= x < |s'.callers|
      ensures CallerAwake(s', x)
    {
      if x != c { OthersAwake(s, s', x); }
    }
    forall w | 0 <= w < |s'.workers|
      ensures WorkerAwake(s', w)
    {
      OthersAwakeW(s, s', w);
    }
  }

  lemma ScribbleKeepsAwake(s: State, w: nat, junk: seq<Unit>)
    requires InBounds(s) && w < |s.workers| && s.workers[w].at == Run && s.workers[w].work.DataUnits?
    requires |junk| == s.workers[w].work.unitCount && Awake(s)
    ensures Shape(WorkerScribble(s, w, junk)) && Awake(WorkerScribble(s, w, junk))
  {
    var s' := WorkerScribble(s, w, junk);
    forall x | 0 <= x < |s'.callers|
      ensures CallerAwake(s', x)
    {
      assert CallerAwake(s, x);
    }
    forall x | 0 <= x < |s'.workers|
      ensures WorkerAwake(s', x)
    {
      assert WorkerAwake(s, x);
    }
  }

  lemma StepKeepsAwake(s: State, a: Action)
    requires Inv(s) && InBounds(s) && Enabled(s, a) && Awake(s)
    ensures Shape(Step(s, a)) && Awake(Step(s, a))
  {
    hide Inv, InBounds, Awake;
    LockFacts(s);
    match a
    case ByWorker(w) => WorkerKeepsAwake(s, w);
    case ByCaller(c) => CallerKeepsAwake(s, c);
    case NewCall(c, job) => NewCallKeepsAwake(s, c, job);
    case Scribble(w, junk) => ScribbleKeepsAwake(s, w, junk);
  }

  /** In every state of every run each waiting thread will be woken. */
  lemma {:induction false} NoLostWakeUp(run: seq<State>, acts: seq<Action>, i: nat)
    requires IsRun(run, acts) && i < |run|
    ensures Shape(run[i]) && Awake(run[i])
  {
    hide Inv, Awake;
    if i == 0 {
      InitAwake(run[0]);
    } else {
      var k := i - 1;
      NoLostWakeUp(run, acts, k);
      RunKeeps(run, acts, k);
      InvInBounds(run[k]);
      assert StepsTo(run[k], acts[k], run[k + 1]);
      StepKeepsAwake(run[k], acts[k]);
    }
  }

  lemma InitAwake(s: State)
    requires Init(s)
    ensures Awake(s)
  {
  }

  // ----- No deadlock -----

  ghost predicate Stuck(s: State)
    requires InBounds(s)
  {
    && (forall w :: 0 <= w < |s.workers| ==> !WorkerCanStep(s, w))
    && (forall c :: 0 <= c < |s.callers| ==> !CallerCanStep(s, c))
  }

  /** Every handed-out position is finished, and no worker is working. */
  ghost predicate AllClaimed(s: State) {
    s.claimed == |s.log| && forall t :: 0 <= t < |s.log| ==> s.log[t].owner.Done?
  }

  lemma StuckWorkers(s: State)
    requires Inv(s) && InBounds(s) && Awake(s) && Stuck(s)
    ensures 0 <= s.dequeueOwner < |s.workers|
    ensures var p := s.workers[s.dequeueOwner];
      p.at.Wait? && p.slot == SlotOf(s.claimed) && s.slots[p.slot].state != Ready
    ensures forall w :: 0 <= w < |s.workers| ==> !Holding(s.workers[w].at)
  {
    LockFacts(s);
    assert !WorkerCanStep(s, 0);
    var d := s.dequeueOwner;
    assert !WorkerCanStep(s, d);
    WorkerFacts(s, d);
    assert WorkerAwake(s, d);
    if SomeoneReadies(s.callers) {
      var c :| 0 <= c < |s.callers| && s.callers[c].at.Signal?;
      assert CallerCanStep(s, c);
    }
    forall w | 0 <= w < |s.workers|
      ensures !Holding(s.workers[w].at)
    {
      assert !WorkerCanStep(s, w);
    }
  }

  lemma StuckTickets(s: State)
    requires Inv(s) && InBounds(s) && Awake(s) && Stuck(s)
    ensures AllClaimed(s)
  {
    hide Inv;
    StuckWorkers(s);
    LockFacts(s);
    ClaimedFact(s);
    if s.claimed < |s.log| {
      var t := s.claimed;
      TicketFact(s, t);
      UnfreedInWindow(s, t);
      SlotFact(s, t);
    }
    forall t | 0 <= t < |s.log|
      ensures s.log[t].owner.Done?
    {
      TicketFact(s, t);
    }
  }

  lemma ClaimedFact(s: State)
    requires Inv(s)
    ensures s.claimed <= |s.log|
  {
  }

  lemma {:induction false} CountEach(log: seq<Ticket>, first: nat, n: nat)
    requires first + n <= |log| && forall t :: first <= t < first + n ==> log[t].counted
    ensures CountDone(log, first, n) == n
  {
    if n > 0 {
      CountEach(log, first, n - 1);
    }
  }

  /** When every position is finished, a caller that waits for its job finds the event set. */
  lemma FinishedIsSignalled(s: State, c: nat)
    requires Inv(s) && InBounds(s) && AllClaimed(s) && c < |s.callers| && s.callers[c].at.WaitDone?
    requires forall w :: 0 <= w < |s.workers| ==> !Holding(s.workers[w].at)
    ensures CallerCanStep(s, c)
  {
    hide Inv;
    CallerFact(s, c);
    var j := s.callers[c].job;
    var f, n := s.calls[j].first, Frags(s.calls[j].job, |s.workers|);
    forall t | f <= t < f + n
      ensures s.log[t].counted
    {
      TicketFact(s, t);
      OwnedBy(s, j, t);
    }
    CountEach(s.log, f, n);
    CountFact(s, j);
    TicketFact(s, f);
    UnfreedInWindow(s, f);
    SlotFact(s, f);
  }

  lemma OwnedBy(s: State, j: nat, t: nat)
    requires Inv(s) && j < |s.calls| && Owns(s.calls, j, t, |s.workers|) && t < |s.log|
    ensures s.log[t].job == j && s.log[t].index == t - s.calls[j].first
  {
  }

  /** A slot whose ticket is finished is in use only until its own caller wakes up. */
  lemma StuckSlotFree(s: State, c: nat)
    requires Inv(s) && InBounds(s) && Awake(s) && Stuck(s)
    requires c < |s.callers| && (s.callers[c].at.WaitFirst? || s.callers[c].at.WaitSlot?)
    ensures s.slots[SlotOf(|s.log|)].state == Free
  {
    hide Inv;
    StuckWorkers(s);
    StuckTickets(s);
    var t := |s.log| - QUEUE_SIZE;
    SlotFact(s, t);
    LastSlotFree(s);
    if t >= 0 && !s.log[t].freed {
      TicketFact(s, t);
      var j := s.log[t].job;
      CallFact(s, j);
      var d := s.calls[j].caller;
      CallerFact(s, d);
      CallerFact(s, c);
      assert !CallerCanStep(s, d);
      if s.callers[d].at.WaitDone? {
        FinishedIsSignalled(s, d);
      }
    }
  }

  lemma LastSlotFree(s: State)
    requires Inv(s)
    ensures Shape(s) && (|s.log| < QUEUE_SIZE ==> s.slots[SlotOf(|s.log|)].state == Free)
  {
  }

  lemma StuckCaller(s: State, c: nat)
    requires Inv(s) && InBounds(s) && Awake(s) && Stuck(s) && c < |s.callers|
    ensures s.callers[c].at.Out? || s.callers[c].at.Lock?
  {
    hide Inv;
    var p := s.callers[c];
    assert !CallerCanStep(s, c);
    StuckWorkers(s);
    StuckTickets(s);
    CallerFact(s, c);
    if p.at.WaitDone? {
      FinishedIsSignalled(s, c);
    }
    if p.at.WaitFirst? || p.at.WaitSlot? {
      StuckSlotFree(s, c);
      NobodyFrees(s);
      assert CallerAwake(s, c);
    }
  }

  lemma NobodyFrees(s: State)
    requires InBounds(s) && Stuck(s)
    ensures !SomeoneFrees(s.workers, s.callers)
  {
    if w :| 0 <= w < |s.workers| && s.workers[w].at.SignalFree? {
      assert WorkerCanStep(s, w);
    }
    if c :| 0 <= c < |s.callers| && s.callers[c].at.SignalDone? {
      assert CallerCanStep(s, c);
    }
  }

  /** If no thread can move, every call has returned and every fragment and key is done. */
  lemma StuckIsDone(s: State)
    requires Inv(s) && InBounds(s) && Awake(s) && Stuck(s)
    ensures forall j :: 0 <= j < |s.calls| ==> s.calls[j].returned
    ensures forall t :: 0 <= t < |s.log| ==> s.log[t].owner.Done?
  {
    hide Inv, Awake;
    StuckTickets(s);
    LockFacts(s);
    forall c | 0 <= c < |s.callers|
      ensures s.callers[c].at.Out?
    {
      StuckCaller(s, c);
      assert !CallerCanStep(s, c);
      if s.enqueueOwner >= 0 { StuckCaller(s, s.enqueueOwner); }
    }
    forall j | 0 <= j < |s.calls|
      ensures s.calls[j].returned
    {
      CallFact(s, j);
    }
  }

  /** No thread of the pool can move: neither a worker nor a caller that is in a call. */
  ghost predicate Quiescent(s: State)
    requires InBounds(s)
  {
    && (forall w :: 0 <= w < |s.workers| ==> !Enabled(s, ByWorker(w)))
    && (forall c :: 0 <= c < |s.callers| ==> !Enabled(s, ByCaller(c)))
  }

  /** A run never reaches a state with unfinished work in which no thread can move. */
  lemma NoDeadlock(run: seq<State>, acts: seq<Action>, i: nat)
    requires IsRun(run, acts) && i < |run|
    requires InBounds(run[i]) && Quiescent(run[i])
    ensures forall j :: 0 <= j < |run[i].calls| ==> run[i].calls[j].returned
    ensures forall t :: 0 <= t < |run[i].log| ==> run[i].log[t].owner.Done?
  {
    hide Inv, Awake;
    var s := run[i];
    RunKeeps(run, acts, i);
    NoLostWakeUp(run, acts, i);
    forall w | 0 <= w < |s.workers|
      ensures !WorkerCanStep(s, w)
    {
      assert !Enabled(s, ByWorker(w));
    }
    forall c | 0 <= c < |s.callers|
      ensures !CallerCanStep(s, c)
    {
      assert !Enabled(s, ByCaller(c));
    }
    StuckIsDone(s);
  }
}
