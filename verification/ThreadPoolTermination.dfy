// Every step of the pool uses up some of a finite amount of work, so every call returns.
module ThreadPoolTermination {
  import opened Words
  import opened FragmentPlan
  import opened ThreadPool
  import opened ThreadPoolInvariant
  import opened ThreadPoolWorkers
  import opened ThreadPoolCountdown
  import opened ThreadPoolCallers
  import opened ThreadPoolTheorem
  import opened ThreadPoolProgress

  const TICKET_WORK: nat := 17
  const FRAGMENT_WORK: nat := TICKET_WORK + 8
  const EVENT_WORK: nat := 2

  function WorkerRank(at: WorkerAt): nat {
    match at
    case Wait => 0
    case Claim => 0
    case Poll => 1
    case Take => 2
    case Idle => 3
    case SetCompleted => 4
    case ReloadFirst => 5
    case Decrement => 6
    case LoadFirst => 7
    case SignalFree => 10
    case FreeSlot => 11
    case Branch => 12
    case SetFlag => 13
    case Run => 14
    case Start => 15
    case Unlock => 16
  }

  function CallerRank(p: Caller): nat {
    var rest := p.left * FRAGMENT_WORK;
    match p.at
    case Out => 0
    case SignalDone => 3
    case FreeFirst => 4
    case WaitDone => 5
    case Release => 6
    case Loop => 7 + rest
    case SetCount => 8 + rest
    case WaitFirst => 9 + rest
    case PollFirst => 10 + rest
    case PickFirst => 11 + rest
    case Lock => 12 + rest
    case Signal => 10 + rest
    case Publish => 11 + TICKET_WORK + rest
    case Fill => 12 + TICKET_WORK + rest
    case WaitSlot => 13 + TICKET_WORK + rest
    case PollSlot => 14 + TICKET_WORK + rest
  }

  function WorkersRank(workers: seq<Worker>): nat {
    if workers == [] then 0 else WorkersRank(workers[..|workers| - 1]) + WorkerRank(workers[|workers| - 1].at)
  }

  function CallersRank(callers: seq<Caller>): nat {
    if callers == [] then 0 else CallersRank(callers[..|callers| - 1]) + CallerRank(callers[|callers| - 1])
  }

  /** An upper bound on the steps that remain when no new call arrives. */
  function Measure(s: State): int {
    WorkersRank(s.workers) + CallersRank(s.callers)
    + TICKET_WORK * (|s.log| - s.claimed)
    + (if s.readyEvent then EVENT_WORK else 0) + (if s.freeEvent then EVENT_WORK else 0)
  }

  lemma {:induction false} WorkersRankUpdate(workers: seq<Worker>, w: nat, p: Worker)
    requires w < |workers|
    ensures WorkersRank(workers[w := p]) == WorkersRank(workers) - WorkerRank(workers[w].at) + WorkerRank(p.at)
  {
    var n := |workers| - 1;
    if w == n {
      assert workers[w := p][..n] == workers[..n];
    } else {
      assert workers[w := p][..n] == workers[..n][w := p];
      WorkersRankUpdate(workers[..n], w, p);
    }
  }

  lemma {:induction false} CallersRankUpdate(callers: seq<Caller>, c: nat, p: Caller)
    requires c < |callers|
    ensures CallersRank(callers[c := p]) == CallersRank(callers) - CallerRank(callers[c]) + CallerRank(p)
  {
    var n := |callers| - 1;
    if c == n {
      assert callers[c := p][..n] == callers[..n];
    } else {
      assert callers[c := p][..n] == callers[..n][c := p];
      CallersRankUpdate(callers[..n], c, p);
    }
  }

  /** The part of the measure that a worker's step changes goes down. */
  ghost predicate WorkerUses(s: State, s': State, w: nat)
    requires w < |s.workers|
  {
    && |s'.workers| == |s.workers| && s'.workers == s.workers[w := s'.workers[w]]
    && s'.callers == s.callers
    && WorkerRank(s'.workers[w].at) + TICKET_WORK * (|s'.log| - s'.claimed)
       + (if s'.readyEvent then EVENT_WORK else 0) + (if s'.freeEvent then EVENT_WORK else 0)
       < WorkerRank(s.workers[w].at) + TICKET_WORK * (|s.log| - s.claimed)
         + (if s.readyEvent then EVENT_WORK else 0) + (if s.freeEvent then EVENT_WORK else 0)
  }

  lemma WorkerUsesEarly(s: State, w: nat)
    requires InBounds(s) && w < |s.workers| && WorkerCanStep(s, w)
    requires s.workers[w].at.Idle? || HasDequeue(s.workers[w].at)
    ensures WorkerUses(s, WorkerStep(s, w), w)
  {
  }

  lemma WorkerUsesMiddle(s: State, w: nat)
    requires InBounds(s) && w < |s.workers| && WorkerCanStep(s, w)
    requires var p := s.workers[w];
      (p.at.Start? && !s.slots[p.slot].work.NoWork?) || p.at.SetFlag? || p.at.Branch?
    ensures WorkerUses(s, WorkerStep(s, w), w)
  {
  }

  lemma WorkerUsesLate(s: State, w: nat)
    requires InBounds(s) && w < |s.workers| && WorkerCanStep(s, w)
    requires var at := s.workers[w].at; at.FreeSlot? || at.SignalFree? || at.LoadFirst? || at.ReloadFirst?
    ensures WorkerUses(s, WorkerStep(s, w), w)
  {
  }

  lemma WorkerUsesDecrement(s: State, w: nat)
    requires InBounds(s) && w < |s.workers| && s.workers[w].at.Decrement?
    ensures WorkerUses(s, WorkerDecrement(s, w), w)
  {
  }

  lemma WorkerUsesLast(s: State, w: nat)
    requires InBounds(s) && w < |s.workers| && s.workers[w].at.SetCompleted?
    ensures WorkerUses(s, WorkerSetCompleted(s, w), w)
  {
  }

  lemma WorkerUsesRun(s: State, w: nat)
    requires InBounds(s) && w < |s.workers| && s.workers[w].at.Run?
    ensures WorkerUses(s, WorkerRun(s, w), w)
  {
  }

  lemma WorkerUsesAny(s: State, w: nat)
    requires Inv(s) && InBounds(s) && w < |s.workers| && WorkerCanStep(s, w)
    ensures WorkerUses(s, WorkerStep(s, w), w)
  {
    hide Inv, InBounds, WorkerUses;
    match s.workers[w].at
    case Idle | Take | Poll | Wait | Claim | Unlock => WorkerUsesEarly(s, w);
    case Start => ReadsOwnWork(s, w); WorkerUsesMiddle(s, w);
    case Run => WorkerUsesRun(s, w);
    case SetFlag | Branch => WorkerUsesMiddle(s, w);
    case FreeSlot | SignalFree | LoadFirst | ReloadFirst => WorkerUsesLate(s, w);
    case Decrement => WorkerUsesDecrement(s, w);
    case SetCompleted => WorkerUsesLast(s, w);
  }

  lemma WorkerDescends(s: State, w: nat)
    requires Inv(s) && InBounds(s) && w < |s.workers| && WorkerCanStep(s, w)
    ensures Measure(WorkerStep(s, w)) < Measure(s)
  {
    hide Inv, InBounds, WorkerStep, WorkerCanStep, WorkersRank, WorkerRank, CallersRank;
    WorkerUsesAny(s, w);
    WorkersRankUpdate(s.workers, w, WorkerStep(s, w).workers[w]);
  }

  ghost predicate CallerUses(s: State, s': State, c: nat)
    requires c < |s.callers|
  {
    && |s'.callers| == |s.callers| && s'.callers == s.callers[c := s'.callers[c]]
    && s'.workers == s.workers
    && CallerRank(s'.callers[c]) + TICKET_WORK * (|s'.log| - s'.claimed)
       + (if s'.readyEvent then EVENT_WORK else 0) + (if s'.freeEvent then EVENT_WORK else 0)
       < CallerRank(s.callers[c]) + TICKET_WORK * (|s.log| - s.claimed)
         + (if s.readyEvent then EVENT_WORK else 0) + (if s.freeEvent then EVENT_WORK else 0)
  }

  lemma CallerUsesEarly(s: State, c: nat)
    requires InBounds(s) && c < |s.callers| && CallerCanStep(s, c)
    requires var at := s.callers[c].at; at.Lock? || at.PickFirst? || at.PollFirst? || at.WaitFirst? || at.SetCount?
    ensures CallerUses(s, CallerStep(s, c), c)
  {
  }

  lemma CallerUsesLoop(s: State, c: nat)
    requires InBounds(s) && c < |s.callers| && CallerCanStep(s, c)
    requires var at := s.callers[c].at; at.Loop? || at.PollSlot? || at.WaitSlot? || at.Publish? || at.Signal?
    ensures CallerUses(s, CallerStep(s, c), c)
  {
  }

  lemma CallerUsesFill(s: State, c: nat)
    requires InBounds(s) && c < |s.callers| && s.callers[c].at.Fill?
    ensures CallerUses(s, CallerFill(s, c), c)
  {
  }

  lemma CallerUsesLate(s: State, c: nat)
    requires InBounds(s) && c < |s.callers| && CallerCanStep(s, c)
    requires var at := s.callers[c].at; at.Release? || at.WaitDone? || at.FreeFirst? || at.SignalDone?
    ensures CallerUses(s, CallerStep(s, c), c)
  {
  }

  lemma CallerUsesAny(s: State, c: nat)
    requires InBounds(s) && c < |s.callers| && CallerCanStep(s, c)
    ensures CallerUses(s, CallerStep(s, c), c)
  {
    hide InBounds, CallerUses;
    match s.callers[c].at
    case Lock | PickFirst | PollFirst | WaitFirst | SetCount => CallerUsesEarly(s, c);
    case Loop | PollSlot | WaitSlot | Publish | Signal => CallerUsesLoop(s, c);
    case Fill => CallerUsesFill(s, c);
    case Release | WaitDone | FreeFirst | SignalDone => CallerUsesLate(s, c);
  }

  lemma CallerDescends(s: State, c: nat)
    requires InBounds(s) && c < |s.callers| && CallerCanStep(s, c)
    ensures Measure(CallerStep(s, c)) < Measure(s)
  {
    hide InBounds, CallerStep, CallerCanStep, CallersRank, CallerRank, WorkersRank;
    CallerUsesAny(s, c);
    CallersRankUpdate(s.callers, c, CallerStep(s, c).callers[c]);
  }

  /** The steps of the pool's threads among the actions i .. j - 1 (new calls and the contents of a
      buffer being worked on are the environment's). */
  function Moves(acts: seq<Action>, i: nat, j: nat): nat
    requires i <= j <= |acts|
    decreases j - i
  {
    if i == j then 0 else Moves(acts, i, j - 1) + if acts[j - 1].ByWorker? || acts[j - 1].ByCaller? then 1 else 0
  }

  /** Without new calls the threads can take at most Measure more steps, whatever the interleaving. */
  lemma {:induction false} StepsAreBounded(run: seq<State>, acts: seq<Action>, i: nat, j: nat)
    requires IsRun(run, acts) && i <= j <= |acts|
    requires forall k :: i <= k < j ==> !acts[k].NewCall?
    ensures Moves(acts, i, j) + Measure(run[j]) <= Measure(run[i])
    decreases j - i
  {
    hide Inv, InBounds;
    if i < j {
      var k := j - 1;
      StepsAreBounded(run, acts, i, k);
      RunKeeps(run, acts, k);
      InvInBounds(run[k]);
      assert StepsTo(run[k], acts[k], run[k + 1]);
      match acts[k]
      case ByWorker(w) => WorkerDescends(run[k], w);
      case ByCaller(c) => CallerDescends(run[k], c);
      case Scribble(w, junk) =>
    }
  }

  /** So once no new call arrives, a run that has taken Measure more steps of the pool's threads is
      in a state where every call has returned and every fragment and key is done. */
  lemma EveryCallReturns(run: seq<State>, acts: seq<Action>, i: nat, j: nat)
    requires IsRun(run, acts) && i <= j <= |acts|
    requires forall k :: i <= k < j ==> !acts[k].NewCall?
    requires Moves(acts, i, j) >= Measure(run[i])
    ensures forall n :: 0 <= n < |run[j].calls| ==> run[j].calls[n].returned
    ensures forall t :: 0 <= t < |run[j].log| ==> run[j].log[t].owner.Done?
  {
    hide Inv, InBounds;
    StepsAreBounded(run, acts, i, j);
    RunInBounds(run, acts, j);
    RunKeeps(run, acts, j);
    var s := run[j];
    if w :| 0 <= w < |s.workers| && Enabled(s, ByWorker(w)) {
      WorkerDescends(s, w);
      StepKeeps(s, ByWorker(w));
      MeasureNat(WorkerStep(s, w));
    } else if c :| 0 <= c < |s.callers| && Enabled(s, ByCaller(c)) {
      CallerDescends(s, c);
      StepKeeps(s, ByCaller(c));
      MeasureNat(CallerStep(s, c));
    } else {
      NoDeadlock(run, acts, j);
    }
  }

  lemma MeasureNat(s: State)
    requires Inv(s)
    ensures Measure(s) >= 0
  {
    hide Inv;
    ClaimedFact(s);
  }
}
