// The loop of ReadVolumeHeader that queues key derivations and tries them as they complete, with the threads
// that derive the keys, as an atomic-step machine.
module HeaderTrials {
  const FIRST_PRF_ID: nat := 1
  const LAST_PRF_ID: nat := 4

  /** What becomes of a trial: go on with the next key, or stop with a status (success or an error). */
  datatype Outcome = GoOn | Stop(status: int)

  /** KeyDerivationWorkItem: free, or taken for a PRF, with its KeyReady flag. */
  datatype Item = Free | Busy(prf: nat, ready: bool)

  /** The set-up: encryption threads, the key a PRF derives, and what a trial of a PRF's key comes to. */
  datatype Config = Config(threads: nat, derive: nat -> nat, outcome: (nat, nat) -> Outcome)

  /** Where the reading thread is. */
  datatype Pc = Top | Find(i: nat) | Scan(i: nat) | Wait | Trial(prf: nat, key: nat) | Done(verdict: Verdict)

  datatype Verdict = PasswordWrong | Stopped(prf: nat, status: int)

  /** `keys` are the DerivedKey fields; `signalling` counts derivations that have set KeyReady but not yet the
      completion event; `tried` is history. */
  datatype State = State(
    pc: Pc, enqPkcs5Prf: nat, queued: nat, items: seq<Item>, keys: seq<nat>,
    signalling: nat, event: bool, tried: seq<nat>)

  datatype Move = Reader | Complete(j: nat) | Signal

  function Init(): State {
    State(Top, FIRST_PRF_ID, 0, [Free, Free, Free, Free], [0, 0, 0, 0], 0, false, [])
  }

  /** Behind the search for a free item (line 264). */
  function Enqueued(s: State): State {
    if s.enqPkcs5Prf < LAST_PRF_ID then s.(enqPkcs5Prf := s.enqPkcs5Prf + 1, pc := Top)
    else if s.queued > 0 then s.(pc := Scan(0))
    else s.(enqPkcs5Prf := s.enqPkcs5Prf + 1, pc := Top)
  }

  function ReaderStep(c: Config, s: State): (r: State)
    requires |s.items| == |s.keys| == 4
    ensures |r.items| == |r.keys| == 4
  {
    match s.pc
    case Top =>
      if s.enqPkcs5Prf > LAST_PRF_ID && s.queued == 0 then s.(pc := Done(PasswordWrong))
      else if c.threads > 1 then
        if s.queued < c.threads && s.enqPkcs5Prf <= LAST_PRF_ID then s.(pc := Find(0))
        else if s.queued > 0 && s.enqPkcs5Prf > 0 then s.(enqPkcs5Prf := s.enqPkcs5Prf - 1, pc := Scan(0))
        else s
      else s.(pc := Trial(s.enqPkcs5Prf, c.derive(s.enqPkcs5Prf)))
    case Find(i) =>
      if i >= 4 then Enqueued(s)
      else if s.items[i].Free? then Enqueued(s.(items := s.items[i := Busy(s.enqPkcs5Prf, false)], queued := s.queued + 1))
      else s.(pc := Find(i + 1))
    case Scan(i) =>
      if i >= 4 then s.(pc := Wait)
      else if s.items[i].Busy? && s.items[i].ready && s.queued > 0 then
        s.(pc := Trial(s.items[i].prf, s.keys[i]), items := s.items[i := Free], queued := s.queued - 1)
      else s.(pc := Scan(i + 1))
    case Wait => if s.event then s.(event := false, pc := Scan(0)) else s
    case Trial(p, key) =>
      var s1 := s.(tried := s.tried + [p]);
      (match c.outcome(p, key)
       case GoOn => s1.(enqPkcs5Prf := s.enqPkcs5Prf + 1, pc := Top)
       case Stop(status) => s1.(pc := Done(Stopped(p, status))))
    case Done(_) => s
  }

  /** One step; whoever cannot move stays where it is. */
  function Step(c: Config, s: State, m: Move): (r: State)
    requires |s.items| == |s.keys| == 4
    ensures |r.items| == |r.keys| == 4
  {
    match m
    case Reader => ReaderStep(c, s)
    case Complete(j) =>
      if j < 4 && s.items[j].Busy? && !s.items[j].ready then
        s.(items := s.items[j := Busy(s.items[j].prf, true)], keys := s.keys[j := c.derive(s.items[j].prf)],
           signalling := s.signalling + 1)
      else s
    case Signal => if s.signalling > 0 then s.(signalling := s.signalling - 1, event := true) else s
  }

  function Exec(c: Config, moves: seq<Move>): (s: State)
    ensures |s.items| == |s.keys| == 4
  {
    if moves == [] then Init() else Step(c, Exec(c, moves[..|moves| - 1]), moves[|moves| - 1])
  }

  // ----- Invariant -----

  function HasPrf(item: Item, p: nat): nat { if item.Busy? && item.prf == p then 1 else 0 }

  /** Derivations of PRF `p` queued, running or waiting to be tried. */
  function QueuedFor(items: seq<Item>, p: nat): nat
    requires |items| == 4
  {
    HasPrf(items[0], p) + HasPrf(items[1], p) + HasPrf(items[2], p) + HasPrf(items[3], p)
  }

  function Tries(tried: seq<nat>, p: nat): nat {
    if tried == [] then 0 else Tries(tried[..|tried| - 1], p) + if tried[|tried| - 1] == p then 1 else 0
  }

  function OnTrial(pc: Pc, p: nat): nat { if pc.Trial? && pc.prf == p then 1 else 0 }

  /** How many PRFs, from the first, have been taken on. */
  function Taken(s: State): int {
    if s.pc.Top? || s.pc.Find? || s.pc == Done(PasswordWrong) then s.enqPkcs5Prf - 1 else s.enqPkcs5Prf
  }

  function Busyness(item: Item): nat { if item.Busy? then 1 else 0 }

  function Taken4(items: seq<Item>): nat
    requires |items| == 4
  {
    Busyness(items[0]) + Busyness(items[1]) + Busyness(items[2]) + Busyness(items[3])
  }

  /** Where PRF `p` is: queued, on trial or tried; each counted. */
  function Places(s: State, p: nat): nat
    requires |s.items| == 4
  {
    Tries(s.tried, p) + QueuedFor(s.items, p) + OnTrial(s.pc, p)
  }

  /** Every PRF taken on is in exactly one place, and no other. */
  ghost predicate Placed(s: State)
    requires |s.items| == 4
  {
    0 <= Taken(s) <= 4 && forall p: nat :: Places(s, p) == if 1 <= p <= Taken(s) then 1 else 0
  }

  /** A key that is ready will be found: by the scan going on, or because the event is or will be signalled. */
  ghost predicate NoLostWakeUp(s: State)
    requires |s.items| == 4
  {
    forall j :: 0 <= j < 4 && s.items[j].Busy? && s.items[j].ready && (s.pc.Wait? || (s.pc.Scan? && j < s.pc.i)) ==>
      s.event || s.signalling > 0
  }

  ghost predicate KeysRight(c: Config, s: State)
    requires |s.items| == |s.keys| == 4
  {
    && (forall j :: 0 <= j < 4 && s.items[j].Busy? && s.items[j].ready ==> s.keys[j] == c.derive(s.items[j].prf))
    && (s.pc.Trial? ==> s.pc.key == c.derive(s.pc.prf))
  }

  ghost predicate Control(c: Config, s: State)
    requires |s.items| == |s.keys| == 4
  {
    && (s.pc.Find? ==> 1 <= s.enqPkcs5Prf <= 4 && s.pc.i <= 4 && forall j :: 0 <= j < s.pc.i ==> s.items[j].Busy?)
    && (s.pc.Scan? || s.pc.Wait? ==> s.queued > 0) && (s.pc.Scan? ==> s.pc.i <= 4)
    && (s.pc.Top? ==> s.enqPkcs5Prf >= 1)
    && (c.threads <= 1 ==> s.queued == 0 && !s.pc.Find? && !s.pc.Scan? && !s.pc.Wait?)
    && (s.pc == Done(PasswordWrong) ==> s.queued == 0 && s.enqPkcs5Prf == 5)
  }

  ghost predicate Verdicts(c: Config, s: State) {
    match s.pc
    case Done(Stopped(p, status)) =>
      && s.tried != [] && p == s.tried[|s.tried| - 1] && c.outcome(p, c.derive(p)) == Stop(status)
      && forall i :: 0 <= i < |s.tried| - 1 ==> c.outcome(s.tried[i], c.derive(s.tried[i])).GoOn?
    case _ => forall i :: 0 <= i < |s.tried| ==> c.outcome(s.tried[i], c.derive(s.tried[i])).GoOn?
  }

  ghost predicate Inv(c: Config, s: State)
    requires |s.items| == |s.keys| == 4
  {
    s.queued == Taken4(s.items) && Placed(s) && NoLostWakeUp(s) && KeysRight(c, s) && Control(c, s) && Verdicts(c, s)
  }

  lemma InitHolds(c: Config)
    ensures Inv(c, Init())
  {
  }

  lemma Put(items: seq<Item>, i: nat, q: nat)
    requires |items| == 4 && i < 4 && items[i].Free?
    ensures Taken4(items[i := Busy(q, false)]) == Taken4(items) + 1
    ensures forall p: nat :: QueuedFor(items[i := Busy(q, false)], p) == QueuedFor(items, p) + if p == q then 1 else 0
  {
  }

  lemma Take(items: seq<Item>, i: nat)
    requires |items| == 4 && i < 4 && items[i].Busy?
    ensures Taken4(items) == Taken4(items[i := Free]) + 1
    ensures forall p: nat :: QueuedFor(items, p) == QueuedFor(items[i := Free], p) + if p == items[i].prf then 1 else 0
  {
  }

  lemma Mark(items: seq<Item>, i: nat)
    requires |items| == 4 && i < 4 && items[i].Busy?
    ensures Taken4(items[i := Busy(items[i].prf, true)]) == Taken4(items)
    ensures forall p: nat :: QueuedFor(items[i := Busy(items[i].prf, true)], p) == QueuedFor(items, p)
  {
  }

  /** Four taken items would be for four different PRFs. */
  lemma SomeFree(s: State)
    requires |s.items| == 4 && Placed(s) && Taken(s) <= 3
    ensures exists j :: 0 <= j < 4 && s.items[j].Free?
  {
    hide Tries;
    if forall j :: 0 <= j < 4 ==> s.items[j].Busy? {
      var a, b, d, e := s.items[0].prf, s.items[1].prf, s.items[2].prf, s.items[3].prf;
      var _ := (Places(s, a), Places(s, b), Places(s, d), Places(s, e));
    }
  }

  /** When a PRF is to be queued the search meets a free item. */
  lemma FreeItemLeft(c: Config, s: State)
    requires |s.items| == |s.keys| == 4 && Inv(c, s) && s.pc.Find?
    ensures s.pc.i < 4
  {
    hide Tries, Verdicts;
    SomeFree(s);
  }

  lemma FindKeeps(c: Config, s: State)
    requires |s.items| == |s.keys| == 4 && Inv(c, s) && s.pc.Find?
    ensures Inv(c, ReaderStep(c, s))
  {
    hide QueuedFor, Taken4, Tries, Verdicts;
    FreeItemLeft(c, s);
    var i := s.pc.i;
    var s' := ReaderStep(c, s);
    SameVerdicts(c, s, s');
    if s.items[i].Free? {
      Put(s.items, i, s.enqPkcs5Prf);
    }
    forall p: nat
      ensures Places(s', p) == if 1 <= p <= Taken(s') then 1 else 0
    {
      assert Places(s, p) == if 1 <= p <= Taken(s) then 1 else 0;
    }
  }

  lemma SameVerdicts(c: Config, s: State, s': State)
    requires Verdicts(c, s) && !s.pc.Done? && s'.tried == s.tried && (s'.pc.Done? ==> s'.pc.verdict.PasswordWrong?)
    ensures Verdicts(c, s')
  {
  }

  lemma ScanKeeps(c: Config, s: State)
    requires |s.items| == |s.keys| == 4 && Inv(c, s) && s.pc.Scan?
    ensures Inv(c, ReaderStep(c, s))
  {
    hide QueuedFor, Taken4, Tries, Verdicts;
    SameVerdicts(c, s, ReaderStep(c, s));
    var i := s.pc.i;
    if i < 4 && s.items[i].Busy? {
      Take(s.items, i);
    }
    StillPlaced(s, ReaderStep(c, s));
  }

  lemma TrialKeeps(c: Config, s: State)
    requires |s.items| == |s.keys| == 4 && Inv(c, s) && s.pc.Trial?
    ensures Inv(c, ReaderStep(c, s))
  {
    hide QueuedFor, Taken4, Tries;
    var s' := ReaderStep(c, s);
    OneMoreTry(s.tried, s.pc.prf);
    StillPlaced(s, s');
  }

  lemma OneMoreTry(tried: seq<nat>, q: nat)
    ensures forall p: nat :: Tries(tried + [q], p) == Tries(tried, p) + if p == q then 1 else 0
  {
    assert (tried + [q])[..|tried|] == tried;
  }

  /** A step that only moves a PRF from one place to the next. */
  lemma StillPlaced(s: State, s': State)
    requires |s.items| == |s'.items| == 4 && Placed(s) && Taken(s') == Taken(s)
    requires forall p: nat ::
      Tries(s'.tried, p) + QueuedFor(s'.items, p) + OnTrial(s'.pc, p) == Tries(s.tried, p) + QueuedFor(s.items, p) + OnTrial(s.pc, p)
    ensures Placed(s')
  {
    hide Tries, QueuedFor;
    forall p: nat
      ensures Places(s', p) == if 1 <= p <= Taken(s') then 1 else 0
    {
      assert Places(s, p) == if 1 <= p <= Taken(s) then 1 else 0;
    }
  }

  lemma OtherKeeps(c: Config, s: State)
    requires |s.items| == |s.keys| == 4 && Inv(c, s) && (s.pc.Top? || s.pc.Wait? || s.pc.Done?)
    ensures Inv(c, ReaderStep(c, s))
  {
    hide QueuedFor, Taken4, Tries, Verdicts;
    var s' := ReaderStep(c, s);
    if !s.pc.Done? {
      SameVerdicts(c, s, s');
    }
    if s'.pc.Trial? {
      forall p: nat
        ensures Places(s', p) == if 1 <= p <= Taken(s') then 1 else 0
      {
        assert Places(s, p) == if 1 <= p <= Taken(s) then 1 else 0;
      }
    } else {
      StillPlaced(s, s');
    }
  }

  lemma CompleteKeeps(c: Config, s: State, j: nat)
    requires |s.items| == |s.keys| == 4 && Inv(c, s)
    ensures Inv(c, Step(c, s, Complete(j)))
  {
    hide QueuedFor, Taken4, Tries, Verdicts;
    VerdictsStay(c, s, Step(c, s, Complete(j)));
    if j < 4 && s.items[j].Busy? {
      Mark(s.items, j);
    }
    StillPlaced(s, Step(c, s, Complete(j)));
  }

  lemma VerdictsStay(c: Config, s: State, s': State)
    requires Verdicts(c, s) && s'.tried == s.tried && s'.pc == s.pc
    ensures Verdicts(c, s')
  {
  }

  lemma SignalKeeps(c: Config, s: State)
    requires |s.items| == |s.keys| == 4 && Inv(c, s)
    ensures Inv(c, Step(c, s, Signal))
  {
    hide QueuedFor, Taken4, Tries, Verdicts;
    VerdictsStay(c, s, Step(c, s, Signal));
    StillPlaced(s, Step(c, s, Signal));
  }

  lemma StepKeeps(c: Config, s: State, m: Move)
    requires |s.items| == |s.keys| == 4 && Inv(c, s)
    ensures Inv(c, Step(c, s, m))
  {
    hide Inv, ReaderStep;
    match m
    case Reader =>
      if s.pc.Find? { FindKeeps(c, s); } else if s.pc.Scan? { ScanKeeps(c, s); }
      else if s.pc.Trial? { TrialKeeps(c, s); } else { OtherKeeps(c, s); }
    case Complete(j) => CompleteKeeps(c, s, j);
    case Signal => SignalKeeps(c, s);
  }

  lemma {:induction false} Always(c: Config, moves: seq<Move>)
    ensures Inv(c, Exec(c, moves))
  {
    hide Inv, Step, Init;
    if moves == [] {
      InitHolds(c);
    } else {
      Always(c, moves[..|moves| - 1]);
      StepKeeps(c, Exec(c, moves[..|moves| - 1]), moves[|moves| - 1]);
    }
  }

  // ----- Results -----

  /** ERR_PASSWORD_WRONG comes only after every PRF has been tried exactly once, each with its own key, and none
      stopped the search. */
  lemma WrongMeansAllTried(c: Config, moves: seq<Move>, p: nat)
    requires Exec(c, moves).pc == Done(PasswordWrong)
    ensures Tries(Exec(c, moves).tried, p) == if FIRST_PRF_ID <= p <= LAST_PRF_ID then 1 else 0
    ensures FIRST_PRF_ID <= p <= LAST_PRF_ID ==> c.outcome(p, c.derive(p)).GoOn?
  {
    hide Exec;
    Always(c, moves);
    var s := Exec(c, moves);
    assert Places(s, p) == if 1 <= p <= Taken(s) then 1 else 0;
    if FIRST_PRF_ID <= p <= LAST_PRF_ID {
      Tried(s.tried, p);
    }
  }

  lemma {:induction false} Tried(tried: seq<nat>, p: nat)
    requires Tries(tried, p) > 0
    ensures p in tried
  {
    if tried[|tried| - 1] != p {
      Tried(tried[..|tried| - 1], p);
    }
  }

  /** In any run no PRF is tried twice, and none is tried that is not one. */
  lemma NeverTwice(c: Config, moves: seq<Move>, p: nat)
    ensures Tries(Exec(c, moves).tried, p) <= if FIRST_PRF_ID <= p <= LAST_PRF_ID then 1 else 0
  {
    hide Exec;
    Always(c, moves);
    var s := Exec(c, moves);
    assert Places(s, p) == if 1 <= p <= Taken(s) then 1 else 0;
  }

  /** If only one PRF's key stops the search, every run that ends ends with that PRF's status, whatever the number
      of threads and the order in which derivations complete. */
  lemma OnlyOneStops(c: Config, moves: seq<Move>, q: nat)
    requires FIRST_PRF_ID <= q <= LAST_PRF_ID && c.outcome(q, c.derive(q)).Stop?
    requires forall p: nat :: FIRST_PRF_ID <= p <= LAST_PRF_ID && p != q ==> c.outcome(p, c.derive(p)).GoOn?
    requires Exec(c, moves).pc.Done?
    ensures Exec(c, moves).pc.verdict == Stopped(q, c.outcome(q, c.derive(q)).status)
  {
    hide Exec;
    Always(c, moves);
    var s := Exec(c, moves);
    match s.pc.verdict
    case PasswordWrong => WrongMeansAllTried(c, moves, q);
    case Stopped(p, _) =>
      NeverTwice(c, moves, p);
      assert Tries(s.tried, p) >= 1;
  }

  /** A free item is always found. */
  lemma AlwaysFree(c: Config, moves: seq<Move>)
    requires Exec(c, moves).pc.Find?
    ensures exists j :: 0 <= j < 4 && Exec(c, moves).items[j].Free?
    ensures Exec(c, moves).queued == Taken4(Exec(c, moves).items)
  {
    hide Exec, Verdicts, Tries;
    Always(c, moves);
    var s := Exec(c, moves);
    SomeFree(s);
  }

  // ----- Every run ends -----

  /** Work left for an item: to derive, to be found. */
  function ItemWeight(item: Item): nat { if item.Free? then 0 else if item.ready then 40 else 80 }

  function PcWeight(pc: Pc): nat {
    match pc
    case Top => 13
    case Find(i) => if i <= 4 then 12 - i else 0
    case Scan(i) => if i <= 4 then 6 - i else 0
    case Wait => 1
    case Trial(_, _) => 24
    case Done(_) => 0
  }

  function Items(items: seq<Item>): nat
    requires |items| == 4
  {
    ItemWeight(items[0]) + ItemWeight(items[1]) + ItemWeight(items[2]) + ItemWeight(items[3])
  }

  function Measure(s: State): int
    requires |s.items| == 4
  {
    100 * (4 - Taken(s)) + Items(s.items) + 20 * s.signalling + (if s.event then 10 else 0) + PcWeight(s.pc)
  }

  lemma ItemChanges(items: seq<Item>, i: nat, x: Item)
    requires |items| == 4 && i < 4
    ensures Items(items[i := x]) == Items(items) - ItemWeight(items[i]) + ItemWeight(x)
  {
    hide ItemWeight;
  }

  lemma ReaderDescends(c: Config, s: State)
    requires |s.items| == |s.keys| == 4 && Control(c, s) && (s.pc.Find? ==> s.pc.i < 4)
    requires s.pc.Top? && c.threads > 1 && s.enqPkcs5Prf > LAST_PRF_ID ==> s.enqPkcs5Prf == 5
    ensures ReaderStep(c, s) == s || Measure(ReaderStep(c, s)) < Measure(s)
  {
    hide Items, Taken4;
    match s.pc
    case Top =>
    case Find(i) => ItemChanges(s.items, i, Busy(s.enqPkcs5Prf, false));
    case Scan(i) =>
      if i < 4 {
        ItemChanges(s.items, i, Free);
      }
    case Wait =>
    case Trial(_, _) =>
    case Done(_) =>
  }

  lemma OthersDescend(c: Config, s: State, m: Move)
    requires |s.items| == |s.keys| == 4 && !m.Reader?
    ensures Step(c, s, m) == s || Measure(Step(c, s, m)) < Measure(s)
  {
    hide Items;
    match m
    case Complete(j) =>
      if j < 4 && s.items[j].Busy? {
        ItemChanges(s.items, j, Busy(s.items[j].prf, true));
      }
    case Signal =>
  }

  /** Every step that changes anything makes the measure smaller. */
  lemma StepDescends(c: Config, s: State, m: Move)
    requires |s.items| == |s.keys| == 4 && Inv(c, s)
    ensures Step(c, s, m) == s || Measure(Step(c, s, m)) < Measure(s)
  {
    hide Verdicts, Tries, KeysRight, NoLostWakeUp, QueuedFor, Taken4, ReaderStep, Measure;
    if m.Reader? {
      if s.pc.Find? {
        FreeItemLeft(c, s);
      }
      ReaderDescends(c, s);
    } else {
      OthersDescend(c, s, m);
    }
  }

  /** Until the reading thread is done something can move: no wake-up is lost and no derivation forgotten. */
  lemma NoDeadlock(c: Config, moves: seq<Move>)
    requires !Exec(c, moves).pc.Done?
    ensures exists m :: Step(c, Exec(c, moves), m) != Exec(c, moves)
  {
    hide Exec, Verdicts, Tries;
    Always(c, moves);
    var s := Exec(c, moves);
    assert Step(c, s, Reader) != s || Step(c, s, Signal) != s || Step(c, s, Complete(0)) != s || Step(c, s, Complete(1)) != s
      || Step(c, s, Complete(2)) != s || Step(c, s, Complete(3)) != s;
  }

  function Changes(c: Config, moves: seq<Move>): nat {
    if moves == [] then 0
    else Changes(c, moves[..|moves| - 1]) + if Exec(c, moves) != Exec(c, moves[..|moves| - 1]) then 1 else 0
  }

  /** So every run comes to an end, for every number of threads. */
  lemma {:induction false} RunsAreBounded(c: Config, moves: seq<Move>)
    ensures Changes(c, moves) + Measure(Exec(c, moves)) <= 413
  {
    hide Inv, Step, Measure;
    if moves == [] {
      assert Measure(Init()) == 413 by { InitMeasure(); }
    } else {
      var before := moves[..|moves| - 1];
      RunsAreBounded(c, before);
      Always(c, before);
      StepDescends(c, Exec(c, before), moves[|moves| - 1]);
    }
  }

  lemma InitMeasure()
    ensures Measure(Init()) == 413
  {
  }
}
