// The buffered, encrypting sector writer of Format.c and its writer thread, as an atomic-step machine.
module FormatWriter {
  import opened Words

  /** FormatWriteBufferSize, in data units. */
  const CAPACITY: nat := 2048

  const BYTES_PER_UNIT: nat := 512

  /** What the formatting code asks for: write a sector, flush, or go on under another key. */
  datatype Op = Sector(data: seq<Unit>) | Flush | Rekey(key: nat)

  /** The set-up: start sector, units per sector, key at the start, threaded or not, encryption of a unit
      under a key and an absolute unit number, and the requests made. */
  datatype Config = Config(
    start: nat, perSector: nat, firstKey: nat, threaded: bool, crypt: (nat, nat, Unit) -> Unit, ops: seq<Op>)

  /** The sector size divides the buffer, sectors are whole, and keys change only right after a flush. */
  ghost predicate WellFormed(c: Config) {
    && c.perSector > 0 && CAPACITY % c.perSector == 0
    && (forall i :: 0 <= i < |c.ops| && c.ops[i].Sector? ==> |c.ops[i].data| == c.perSector)
    && (forall i :: 0 < i < |c.ops| && c.ops[i].Rekey? ==> !c.ops[i - 1].Sector?)
  }

  // ----- The machine -----

  /** Where the formatting thread is: between requests; in FlushFormatWriteBuffer (before WriteFile, at the wait,
      with the buffer, filling it, signalling); in StopFormatWriteThread; or returned. */
  datatype Producer =
    | Ready | Direct | AwaitEmpty | CheckResult | Fill | SignalFull
    | StopAwait | StopRequest | StopSignal | Join | Finished | Failed

  datatype Writer = Top | AwaitFull | Recheck | Write | SignalEmpty | Done

  datatype State = State(
    producer: Producer, next: nat, nSecNo: nat, writeBuf: seq<Unit>, writeBufCnt: nat, key: nat,
    writer: Writer, threadBuffer: seq<Unit>,
    emptyEvent: bool, fullEvent: bool, exitRequested: bool, resultOk: bool,
    device: seq<Unit>)

  /** A step of the formatting thread or of the writer; `ok` is the outcome if it is a WriteFile. */
  datatype Move = Format(ok: bool) | Thread(ok: bool)

  function Init(c: Config): State {
    State(Ready, 0, c.start, [], 0, c.firstKey, if c.threaded then Top else Done, [], true, false, false, true, [])
  }

  function Encrypted(c: Config, key: nat, unitNo: nat, data: seq<Unit>): seq<Unit> {
    seq(|data|, i requires 0 <= i < |data| => c.crypt(key, unitNo + i, data[i]))
  }

  /** Into FlushFormatWriteBuffer: nothing to do, or encrypt the buffer in place under its unit numbers. */
  function StartFlush(c: Config, s: State): State {
    if s.writeBufCnt == 0 then s.(producer := Ready)
    else
      var unitNo := (s.nSecNo * (BYTES_PER_UNIT * c.perSector) - s.writeBufCnt) / BYTES_PER_UNIT;
      s.(writeBuf := if unitNo < 0 then s.writeBuf else Encrypted(c, s.key, unitNo, s.writeBuf),
         producer := if c.threaded then AwaitEmpty else Direct)
  }

  /** The next request, or the end of them. */
  function Request(c: Config, s: State): State {
    if s.next >= |c.ops| then s.(producer := if c.threaded then StopAwait else Finished)
    else
      var s1 := s.(next := s.next + 1);
      match c.ops[s.next]
      case Sector(d) =>
        var s2 := s1.(nSecNo := s.nSecNo + 1, writeBuf := s.writeBuf + d,
                      writeBufCnt := s.writeBufCnt + BYTES_PER_UNIT * c.perSector);
        if s2.writeBufCnt == BYTES_PER_UNIT * CAPACITY then StartFlush(c, s2) else s2
      case Flush => StartFlush(c, s1)
      case Rekey(k) => s1.(key := k)
  }

  /** One step; a thread that must wait stays where it is. */
  function Step(c: Config, s: State, m: Move): State {
    match m
    case Format(ok) => (
      match s.producer
      case Ready => Request(c, s)
      case Direct =>
        if ok then s.(device := s.device + s.writeBuf, writeBuf := [], writeBufCnt := 0, producer := Ready)
        else s.(producer := Failed)
      case AwaitEmpty => if s.emptyEvent then s.(emptyEvent := false, producer := CheckResult) else s
      case CheckResult => if s.resultOk then s.(producer := Fill) else s.(emptyEvent := true, producer := Failed)
      case Fill => s.(threadBuffer := s.writeBuf, producer := SignalFull)
      case SignalFull => s.(fullEvent := true, writeBuf := [], writeBufCnt := 0, producer := Ready)
      case StopAwait => if s.emptyEvent then s.(emptyEvent := false, producer := StopRequest) else s
      case StopRequest => s.(exitRequested := true, producer := StopSignal)
      case StopSignal => s.(fullEvent := true, producer := Join)
      case Join => if s.writer.Done? then s.(producer := Finished) else s
      case _ => s
    )
    case Thread(ok) =>
      match s.writer
      case Top => s.(writer := if s.exitRequested then Done else AwaitFull)
      case AwaitFull => if s.fullEvent then s.(fullEvent := false, writer := Recheck) else s
      case Recheck => s.(writer := if s.exitRequested then Done else Write)
      case Write =>
        s.(device := if ok then s.device + s.threadBuffer else s.device, resultOk := ok, writer := SignalEmpty)
      case SignalEmpty => s.(emptyEvent := true, writer := Top)
      case Done => s
  }

  /** The state after any interleaving. */
  function Exec(c: Config, moves: seq<Move>): State {
    if moves == [] then Init(c) else Step(c, Exec(c, moves[..|moves| - 1]), moves[|moves| - 1])
  }

  // ----- What it is for: a plain sequential encrypted write -----

  /** A unit with the key it is to be written under. */
  datatype Keyed = Keyed(key: nat, data: Unit)

  function KeyAt(c: Config, n: nat): nat
    requires n <= |c.ops|
  {
    if n == 0 then c.firstKey else if c.ops[n - 1].Rekey? then c.ops[n - 1].key else KeyAt(c, n - 1)
  }

  function Under(key: nat, d: seq<Unit>): seq<Keyed> { seq(|d|, i requires 0 <= i < |d| => Keyed(key, d[i])) }

  /** The units of the first `n` requests. */
  function Sent(c: Config, n: nat): seq<Keyed>
    requires n <= |c.ops|
  {
    if n == 0 then []
    else Sent(c, n - 1) + if c.ops[n - 1].Sector? then Under(KeyAt(c, n - 1), c.ops[n - 1].data) else []
  }

  /** Each encrypted under its key and its absolute data unit number. */
  function Sequential(c: Config, units: seq<Keyed>): seq<Unit> {
    seq(|units|, i requires 0 <= i < |units| => c.crypt(units[i].key, c.start * c.perSector + i, units[i].data))
  }

  // ----- Invariant -----

  predicate Flushing(p: Producer) { p.Direct? || p.AwaitEmpty? || p.CheckResult? || p.Fill? || p.SignalFull? }

  predicate ProducerOwns(p: Producer) { p.CheckResult? || p.Fill? || p.SignalFull? || p.StopRequest? || p.StopSignal? }

  predicate WriterOwns(w: Writer) { w.Recheck? || w.Write? || w.SignalEmpty? }

  predicate Plain(p: Producer) { p.Ready? || p.Direct? || p.Finished? || p.Failed? }

  function One(b: bool): nat { if b then 1 else 0 }

  /** The hand-off buffer has one owner: one of the events, the formatting thread or the writer. */
  predicate OneOwner(s: State) {
    One(s.emptyEvent) + One(s.fullEvent) + One(ProducerOwns(s.producer)) + One(WriterOwns(s.writer)) == 1
  }

  /** The hand-off buffer holds units that are not (and, after a failure, will not be) on the device. */
  predicate Outstanding(s: State) {
    !s.resultOk || (!s.exitRequested && (s.fullEvent || s.writer.Recheck? || s.writer.Write?))
  }

  function InTransit(s: State): seq<Unit> {
    if Outstanding(s) then s.threadBuffer else []
  }

  /** Units handed over so far. */
  function HandedOver(s: State): nat { |s.device| + |InTransit(s)| }

  ghost predicate Protocol(c: Config, s: State) {
    && (c.threaded ==> !s.producer.Direct?)
    && (c.threaded || (s.writer.Done? && s.resultOk && !s.fullEvent && !s.exitRequested && Plain(s.producer)))
    && (c.threaded && !s.exitRequested ==> OneOwner(s) && !s.writer.Done?)
    && (s.exitRequested ==> s.producer.StopSignal? || s.producer.Join? || s.producer.Finished?)
    && (s.exitRequested ==> !s.writer.Write? && !s.writer.SignalEmpty?)
    && (s.producer.StopSignal? || s.producer.Join? ==> s.exitRequested)
    && (s.producer.Join? && !s.writer.Done? ==> s.writer.Top? || s.writer.Recheck? || s.fullEvent)
    && (c.threaded && s.producer.Finished? ==> s.exitRequested && s.writer.Done?)
    && (s.producer.Fill? || s.producer.SignalFull? ==> s.resultOk)
    && (s.producer.SignalFull? ==> s.threadBuffer == s.writeBuf)
    && (!s.resultOk ==> s.threadBuffer != [])
    && (s.fullEvent && !s.exitRequested ==> s.resultOk && s.threadBuffer != [])
    && ((s.writer.Recheck? || s.writer.Write?) && !s.exitRequested ==> s.resultOk && s.threadBuffer != [])
  }

  /** How much has been taken in: sector count, byte count, buffer below its size. */
  ghost predicate Counts(c: Config, s: State) {
    && c.perSector > 0 && s.next <= |c.ops| && s.key == KeyAt(c, s.next)
    && s.nSecNo >= c.start && |Sent(c, s.next)| == c.perSector * (s.nSecNo - c.start)
    && s.writeBufCnt == BYTES_PER_UNIT * |s.writeBuf| && Multiple(|s.writeBuf|, c.perSector) && |s.writeBuf| <= CAPACITY
  }

  function Times(q: nat, m: nat): nat { q * m }

  ghost predicate Multiple(x: nat, m: nat) { exists q: nat :: Times(q, m) == x }

  /** The buffer is never left full; right after a flush it is empty; the end comes after the last request. */
  ghost predicate Stage(c: Config, s: State)
    requires s.next <= |c.ops|
  {
    && (Flushing(s.producer) ==> s.writeBuf != [])
    && (s.producer.Ready? ==> |s.writeBuf| < CAPACITY)
    && ((s.producer.Ready? || StopSeen(s.producer)) && (s.next == 0 || !c.ops[s.next - 1].Sector?) ==> s.writeBuf == [])
    && (StopSeen(s.producer) ==> s.next == |c.ops|)
  }

  predicate StopSeen(p: Producer) { p.StopAwait? || p.StopRequest? || p.StopSignal? || p.Join? || p.Finished? }

  /** Nothing lost, nothing twice, everything in order: what is on the device, then what is in transit, then
      what is pending, is what was sent. */
  ghost predicate Contents(c: Config, s: State)
    requires s.next <= |c.ops|
  {
    var sent := Sent(c, s.next);
    var n := HandedOver(s);
    && n + |s.writeBuf| == |sent|
    && s.device + InTransit(s) == Sequential(c, sent)[..n]
    && (if Flushing(s.producer) || s.producer.Failed? then s.writeBuf == Sequential(c, sent)[n..]
        else forall i :: 0 <= i < |s.writeBuf| ==> sent[n + i] == Keyed(s.key, s.writeBuf[i]))
  }

  ghost predicate Inv(c: Config, s: State) {
    Protocol(c, s) && Counts(c, s) && Stage(c, s) && Contents(c, s)
  }

  // ----- The formatting thread takes a request -----

  lemma {:induction false} SentGrows(c: Config, n: nat)
    requires WellFormed(c) && n < |c.ops|
    ensures |Sent(c, n + 1)| == |Sent(c, n)| + if c.ops[n].Sector? then c.perSector else 0
    ensures Sent(c, n) <= Sent(c, n + 1)
    ensures c.ops[n].Sector? ==> forall i :: 0 <= i < c.perSector ==>
      Sent(c, n + 1)[|Sent(c, n)| + i] == Keyed(KeyAt(c, n), c.ops[n].data[i])
  {
  }

  lemma UnitNo(nSecNo: nat, per: nat, start: nat, pending: nat, sent: nat)
    requires nSecNo >= start && sent == per * (nSecNo - start) && pending <= sent
    ensures (nSecNo * (BYTES_PER_UNIT * per) - BYTES_PER_UNIT * pending) / BYTES_PER_UNIT == start * per + (sent - pending)
  {
    assert nSecNo * (BYTES_PER_UNIT * per) == BYTES_PER_UNIT * (nSecNo * per);
    assert nSecNo * per == start * per + per * (nSecNo - start);
  }

  lemma Encrypts(c: Config, s: State)
    requires Counts(c, s) && Contents(c, s) && s.producer.Ready?
    ensures var n := HandedOver(s); Encrypted(c, s.key, c.start * c.perSector + n, s.writeBuf) == Sequential(c, Sent(c, s.next))[n..]
  {
    var sent, n := Sent(c, s.next), HandedOver(s);
    var e := Encrypted(c, s.key, c.start * c.perSector + n, s.writeBuf);
    forall i | 0 <= i < |e|
      ensures e[i] == Sequential(c, sent)[n..][i]
    {
      assert sent[n + i] == Keyed(s.key, s.writeBuf[i]);
    }
  }

  /** A flush encrypts exactly what is pending, under the right numbers. */
  lemma StartFlushIs(c: Config, s: State)
    requires Counts(c, s) && Contents(c, s) && s.producer.Ready? && s.writeBufCnt > 0
    ensures StartFlush(c, s) == s.(
      writeBuf := Sequential(c, Sent(c, s.next))[HandedOver(s)..], producer := if c.threaded then AwaitEmpty else Direct)
  {
    Encrypts(c, s);
    UnitNo(s.nSecNo, c.perSector, c.start, |s.writeBuf|, |Sent(c, s.next)|);
  }

  lemma StartFlushKeeps(c: Config, s: State)
    requires Protocol(c, s) && Counts(c, s) && Contents(c, s) && s.producer.Ready?
    ensures Inv(c, StartFlush(c, s))
    ensures s.writeBufCnt == 0 ==> StartFlush(c, s) == s
  {
    hide Sent, Sequential, Multiple;
    if s.writeBufCnt > 0 {
      StartFlushIs(c, s);
    }
  }

  lemma SequentialPrefix(c: Config, a: seq<Keyed>, b: seq<Keyed>, n: nat)
    requires a <= b && n <= |a|
    ensures Sequential(c, b)[..n] == Sequential(c, a)[..n]
  {
  }

  lemma MultipleNext(x: nat, m: nat)
    requires Multiple(x, m)
    ensures Multiple(x + m, m)
  {
    var q: nat :| Times(q, m) == x;
    assert Times(q + 1, m) == x + m;
  }

  lemma FitsWhole(x: nat, m: nat)
    requires m > 0 && Multiple(x, m) && CAPACITY % m == 0 && x < CAPACITY
    ensures x + m <= CAPACITY
  {
    var a: nat :| Times(a, m) == x;
    var b := CAPACITY / m;
    assert Times(b, m) == CAPACITY;
    Ordered(a, b, m);
  }

  lemma TimesMono(a: nat, b: nat, m: nat)
    requires a <= b
    ensures Times(a, m) <= Times(b, m)
  {
    assert (b - a) * m >= 0;
  }

  lemma Ordered(a: nat, b: nat, m: nat)
    requires Times(a, m) < Times(b, m)
    ensures Times(a + 1, m) <= Times(b, m)
  {
    if a >= b {
      TimesMono(b, a, m);
    } else {
      TimesMono(a + 1, b, m);
    }
  }

  /** A sector is appended to the buffer. */
  function Append(c: Config, s: State, d: seq<Unit>): State {
    s.(next := s.next + 1, nSecNo := s.nSecNo + 1, writeBuf := s.writeBuf + d,
       writeBufCnt := s.writeBufCnt + BYTES_PER_UNIT * c.perSector)
  }

  lemma AppendCounts(c: Config, s: State)
    requires WellFormed(c) && Counts(c, s) && s.next < |c.ops| && c.ops[s.next].Sector? && |s.writeBuf| < CAPACITY
    ensures Counts(c, Append(c, s, c.ops[s.next].data))
  {
    SentGrows(c, s.next);
    FitsWhole(|s.writeBuf|, c.perSector);
    MultipleNext(|s.writeBuf|, c.perSector);
    assert c.perSector * (s.nSecNo + 1 - c.start) == c.perSector * (s.nSecNo - c.start) + c.perSector;
  }

  lemma AppendContents(c: Config, s: State)
    requires WellFormed(c) && Counts(c, s) && s.producer.Ready? && Contents(c, s) && s.next < |c.ops| && c.ops[s.next].Sector?
    ensures Contents(c, Append(c, s, c.ops[s.next].data))
  {
    var sent, sent', n := Sent(c, s.next), Sent(c, s.next + 1), HandedOver(s);
    var s2 := Append(c, s, c.ops[s.next].data);
    SentGrows(c, s.next);
    SequentialPrefix(c, sent, sent', n);
    assert InTransit(s2) == InTransit(s);
    forall i | 0 <= i < |s2.writeBuf|
      ensures sent'[n + i] == Keyed(s2.key, s2.writeBuf[i])
    {
      if i < |s.writeBuf| {
        assert sent'[n + i] == sent[n + i];
      } else {
        assert n + i == |sent| + (i - |s.writeBuf|);
      }
    }
  }

  lemma OtherContents(c: Config, s: State, s1: State)
    requires WellFormed(c) && Counts(c, s) && s.producer.Ready? && Contents(c, s) && s.next < |c.ops| && !c.ops[s.next].Sector?
    requires s1 == s.(next := s.next + 1) || (c.ops[s.next].Rekey? && s1 == s.(next := s.next + 1, key := c.ops[s.next].key) && s.writeBuf == [])
    ensures Contents(c, s1) && Sent(c, s1.next) == Sent(c, s.next)
  {
    SentGrows(c, s.next);
    assert Sent(c, s.next + 1) == Sent(c, s.next);
    assert InTransit(s1) == InTransit(s);
  }

  lemma RequestKeeps(c: Config, s: State)
    requires WellFormed(c) && Inv(c, s) && s.producer.Ready?
    ensures Inv(c, Request(c, s))
  {
    hide Sequential, Multiple, StartFlush, Protocol, Sent, Contents;
    if s.next == |c.ops| {
      EndKeeps(c, s);
    } else {
      match c.ops[s.next]
      case Sector(d) =>
        var s2 := Append(c, s, d);
        AppendCounts(c, s);
        AppendContents(c, s);
        SameProtocol(c, s, s2);
        StartFlushKeeps(c, s2);
      case Flush =>
        var s1 := s.(next := s.next + 1);
        OtherContents(c, s, s1);
        SameProtocol(c, s, s1);
        StartFlushKeeps(c, s1);
      case Rekey(k) =>
        var s1 := s.(next := s.next + 1, key := k);
        OtherContents(c, s, s1);
        SameProtocol(c, s, s1);
    }
  }

  lemma SameProtocol(c: Config, s: State, s': State)
    requires Protocol(c, s) && s.producer.Ready?
    requires s' == s.(next := s'.next, nSecNo := s'.nSecNo, writeBuf := s'.writeBuf, writeBufCnt := s'.writeBufCnt, key := s'.key)
    ensures Protocol(c, s')
  {
  }

  lemma EndKeeps(c: Config, s: State)
    requires Inv(c, s) && s.producer.Ready? && s.next == |c.ops|
    ensures Inv(c, Request(c, s))
  {
    hide Sequential, Multiple, Sent;
  }

  // ----- Every step keeps the invariant -----

  lemma HandOver(c: Config, s: State)
    requires Inv(c, s) && s.producer.SignalFull?
    ensures Inv(c, Step(c, s, Format(true))) && Inv(c, Step(c, s, Format(false)))
  {
    hide Sequential, Sent;
    var s' := Step(c, s, Format(true));
    assert Times(0, c.perSector) == 0;
    assert InTransit(s) == [] && InTransit(s') == s.writeBuf;
    var all := Sequential(c, Sent(c, s.next));
    SequentialLength(c, Sent(c, s.next));
    assert all == all[..HandedOver(s)] + all[HandedOver(s)..];
  }

  lemma SequentialLength(c: Config, a: seq<Keyed>)
    ensures |Sequential(c, a)| == |a|
  {
  }

  lemma DirectKeeps(c: Config, s: State, ok: bool)
    requires Inv(c, s) && s.producer.Direct?
    ensures Inv(c, Step(c, s, Format(ok)))
  {
    hide Sequential, Sent;
    assert Times(0, c.perSector) == 0;
    assert InTransit(s) == [];
    var all := Sequential(c, Sent(c, s.next));
    SequentialLength(c, Sent(c, s.next));
    assert all == all[..HandedOver(s)] + all[HandedOver(s)..];
  }

  /** The steps that only pass the hand-off buffer on, or fill it. */
  predicate Passing(p: Producer) { !p.Ready? && !p.SignalFull? && !p.Direct? }

  lemma PassingProtocol(c: Config, s: State)
    requires Protocol(c, s) && Passing(s.producer) && (Flushing(s.producer) ==> s.writeBuf != [])
    ensures Protocol(c, Step(c, s, Format(true)))
  {
  }

  lemma PassingTransit(c: Config, s: State)
    requires Protocol(c, s) && Passing(s.producer)
    ensures InTransit(Step(c, s, Format(true))) == InTransit(s)
  {
  }

  lemma PassingFrame(c: Config, s: State)
    requires Passing(s.producer)
    ensures var s' := Step(c, s, Format(true));
      && s'.next == s.next && s'.nSecNo == s.nSecNo && s'.key == s.key && s'.device == s.device
      && s'.writeBuf == s.writeBuf && s'.writeBufCnt == s.writeBufCnt
      && (Flushing(s'.producer) || s'.producer.Failed? <==> Flushing(s.producer) || s.producer.Failed?)
      && (Flushing(s'.producer) ==> Flushing(s.producer)) && !s'.producer.Ready?
      && (StopSeen(s'.producer) ==> StopSeen(s.producer))
  {
  }

  /** Contents depend on what is on the device, in transit and pending only. */
  lemma SameContents(c: Config, s: State, s': State)
    requires s.next <= |c.ops| && Contents(c, s) && InTransit(s') == InTransit(s)
    requires s'.next == s.next && s'.key == s.key && s'.device == s.device && s'.writeBuf == s.writeBuf
    requires Flushing(s'.producer) || s'.producer.Failed? <==> Flushing(s.producer) || s.producer.Failed?
    ensures Contents(c, s')
  {
  }

  lemma PassingKeeps(c: Config, s: State, ok: bool)
    requires Inv(c, s) && Passing(s.producer)
    ensures Inv(c, Step(c, s, Format(ok)))
  {
    hide Protocol, InTransit, Contents, Multiple;
    PassingProtocol(c, s);
    PassingTransit(c, s);
    PassingFrame(c, s);
    SameContents(c, s, Step(c, s, Format(true)));
    OutcomeUnused(c, s, ok);
  }

  lemma OutcomeUnused(c: Config, s: State, ok: bool)
    requires Passing(s.producer)
    ensures Step(c, s, Format(ok)) == Step(c, s, Format(true))
  {
  }

  lemma FormatKeeps(c: Config, s: State, ok: bool)
    requires WellFormed(c) && Inv(c, s)
    ensures Inv(c, Step(c, s, Format(ok)))
  {
    hide Inv, Request;
    if s.producer.Ready? {
      RequestKeeps(c, s);
    } else if s.producer.SignalFull? {
      HandOver(c, s);
    } else if s.producer.Direct? {
      DirectKeeps(c, s, ok);
    } else {
      PassingKeeps(c, s, ok);
    }
  }

  lemma ThreadProtocol(c: Config, s: State, ok: bool)
    requires Protocol(c, s)
    ensures Protocol(c, Step(c, s, Thread(ok)))
  {
  }

  lemma ThreadTransit(c: Config, s: State, ok: bool)
    requires Protocol(c, s)
    ensures var s' := Step(c, s, Thread(ok)); s'.device + InTransit(s') == s.device + InTransit(s)
  {
  }

  lemma ThreadKeeps(c: Config, s: State, ok: bool)
    requires Inv(c, s)
    ensures Inv(c, Step(c, s, Thread(ok)))
  {
    hide Sequential, Sent, Multiple, Protocol, InTransit;
    ThreadProtocol(c, s, ok);
    ThreadTransit(c, s, ok);
    var s' := Step(c, s, Thread(ok));
    assert HandedOver(s') == |s'.device + InTransit(s')|;
    assert HandedOver(s) == |s.device + InTransit(s)|;
  }

  lemma InitHolds(c: Config)
    requires WellFormed(c)
    ensures Inv(c, Init(c))
  {
    assert Times(0, c.perSector) == 0;
  }

  /** In every interleaving of the two threads the invariant holds. */
  lemma {:induction false} Always(c: Config, moves: seq<Move>)
    requires WellFormed(c)
    ensures Inv(c, Exec(c, moves))
  {
    hide Inv, Step, Init;
    if moves == [] {
      InitHolds(c);
    } else {
      var before := moves[..|moves| - 1];
      Always(c, before);
      match moves[|moves| - 1]
      case Format(ok) => FormatKeeps(c, Exec(c, before), ok);
      case Thread(ok) => ThreadKeeps(c, Exec(c, before), ok);
    }
  }

  // ----- Results -----

  lemma FinishedState(c: Config, s: State)
    requires Inv(c, s) && s.producer.Finished? && (c.ops == [] || !c.ops[|c.ops| - 1].Sector?)
    ensures s.device == Sequential(c, Sent(c, |c.ops|)) <==> s.resultOk
  {
    hide Sequential, Sent, Multiple;
    var all := Sequential(c, Sent(c, |c.ops|));
    SequentialLength(c, Sent(c, |c.ops|));
    assert s.next == |c.ops| && s.writeBuf == [];
    assert all[..HandedOver(s)] == all;
    if !s.resultOk {
      assert |s.device| < |all|;
    }
  }

  /** The outcome of the writer's last WriteFile. */
  function LastWriteOk(c: Config, moves: seq<Move>): bool {
    if moves == [] then true
    else
      var before, m := moves[..|moves| - 1], moves[|moves| - 1];
      if m.Thread? && Exec(c, before).writer.Write? then m.ok else LastWriteOk(c, before)
  }

  lemma {:induction false} ResultIsLastWrite(c: Config, moves: seq<Move>)
    ensures Exec(c, moves).resultOk == LastWriteOk(c, moves)
  {
    if moves != [] {
      var before := moves[..|moves| - 1];
      ResultIsLastWrite(c, before);
      StepResult(c, Exec(c, before), moves[|moves| - 1]);
    }
  }

  lemma StepResult(c: Config, s: State, m: Move)
    ensures Step(c, s, m).resultOk == if m.Thread? && s.writer.Write? then m.ok else s.resultOk
  {
    hide Encrypted;
  }

  /** Whenever the formatting thread has finished, its last request a flush, joined if threaded, the device holds the
      plain sequential encrypted write of every sector, complete and in order, exactly if the writer's last WriteFile
      did not fail.  (No later flush reads its result.) */
  lemma FinishedWrite(c: Config, moves: seq<Move>)
    requires WellFormed(c) && Exec(c, moves).producer.Finished? && (c.ops == [] || !c.ops[|c.ops| - 1].Sector?)
    ensures Exec(c, moves).device == Sequential(c, Sent(c, |c.ops|)) <==> LastWriteOk(c, moves)
  {
    hide Exec, Inv, LastWriteOk;
    Always(c, moves);
    ResultIsLastWrite(c, moves);
    FinishedState(c, Exec(c, moves));
  }

  /** A run with one move more. */
  lemma After(c: Config, moves: seq<Move>, m: Move) returns (longer: seq<Move>)
    ensures Exec(c, longer) == Step(c, Exec(c, moves), m)
  {
    longer := moves + [m];
    assert longer[..|moves|] == moves;
  }

  /** One sector sent and flushed: the hand-off. */
  lemma HandedOff(c: Config, u: Unit) returns (moves: seq<Move>)
    requires c.perSector == 1 && c.threaded && c.ops == [Sector([u]), Flush]
    ensures var s := Exec(c, moves);
      s.producer.Ready? && s.next == 2 && s.writeBuf == [] && s.writer.Top? && s.fullEvent && !s.emptyEvent
      && !s.exitRequested && s.resultOk && s.device == []
  {
    hide Encrypted, Exec;
    moves := [];
    Begun(c);
    moves := After(c, moves, Format(true));
    assert Exec(c, moves).producer.Ready? && Exec(c, moves).writeBuf == [u] && Exec(c, moves).writeBufCnt == 512;
    moves := After(c, moves, Format(true));
    assert Exec(c, moves).producer.AwaitEmpty?;
    moves := After(c, moves, Format(true));
    moves := After(c, moves, Format(true));
    moves := After(c, moves, Format(true));
    moves := After(c, moves, Format(true));
  }

  lemma Begun(c: Config)
    ensures Exec(c, []) == Init(c)
  {
  }

  /** A WriteFile of the writer fails after the last hand-off, and the formatting thread finishes all the same. */
  lemma LastWriteLost(c: Config, u: Unit) returns (moves: seq<Move>)
    requires c.perSector == 1 && c.threaded && c.ops == [Sector([u]), Flush]
    ensures WellFormed(c) && Exec(c, moves).producer.Finished? && !LastWriteOk(c, moves)
    ensures Exec(c, moves).device == [] && |Sequential(c, Sent(c, |c.ops|))| == 1
  {
    hide Exec, LastWriteOk;
    moves := HandedOff(c, u);
    moves := After(c, moves, Thread(true));
    moves := After(c, moves, Thread(true));
    moves := After(c, moves, Thread(true));
    moves := After(c, moves, Thread(false));
    moves := After(c, moves, Thread(true));
    moves := After(c, moves, Format(true));
    moves := After(c, moves, Format(true));
    moves := After(c, moves, Format(true));
    moves := After(c, moves, Format(true));
    moves := After(c, moves, Thread(true));
    moves := After(c, moves, Format(true));
    ResultIsLastWrite(c, moves);
    assert Sent(c, 2) == Sent(c, 1) == Sent(c, 0) + Under(c.firstKey, [u]);
  }

  lemma {:induction false} SentPrefix(c: Config, m: nat, n: nat)
    requires m <= n <= |c.ops|
    ensures Sent(c, m) <= Sent(c, n)
  {
    if m < n {
      SentPrefix(c, m, n - 1);
    }
  }

  /** At any moment of any run, even one that fails, the device holds a prefix of that write. */
  lemma DeviceIsPrefix(c: Config, moves: seq<Move>)
    requires WellFormed(c)
    ensures Exec(c, moves).device <= Sequential(c, Sent(c, |c.ops|))
  {
    hide Exec, Protocol, Stage;
    Always(c, moves);
    var s := Exec(c, moves);
    SentPrefix(c, s.next, |c.ops|);
    SequentialPrefix(c, Sent(c, s.next), Sent(c, |c.ops|), HandedOver(s));
    assert s.device <= s.device + InTransit(s);
  }

  /** Until the end the hand-off buffer has exactly one owner: it is never filled while the writer writes it. */
  lemma OneOwnerAlways(c: Config, moves: seq<Move>)
    requires WellFormed(c) && c.threaded && !Exec(c, moves).exitRequested
    ensures OneOwner(Exec(c, moves))
  {
    hide Exec, Counts, Stage, Contents;
    Always(c, moves);
  }

  // ----- Every run ends -----

  function ProducerWeight(p: Producer): nat {
    match p
    case AwaitEmpty => 22
    case CheckResult => 21
    case Fill => 20
    case SignalFull => 19
    case Direct => 17
    case Ready => 12
    case StopAwait => 11
    case StopRequest => 10
    case StopSignal => 9
    case Join => 1
    case _ => 0
  }

  function WriterWeight(w: Writer): nat {
    match w
    case Recheck => 4
    case Write => 3
    case SignalEmpty => 2
    case Top => 1
    case _ => 0
  }

  function Measure(c: Config, s: State): nat
    requires s.next <= |c.ops|
  {
    20 * (|c.ops| - s.next) + ProducerWeight(s.producer) + WriterWeight(s.writer) + (if s.fullEvent then 6 else 0)
  }

  lemma FlushWeight(c: Config, s: State)
    requires s.producer.Ready?
    ensures var s' := StartFlush(c, s);
      s' == s.(producer := s'.producer, writeBuf := s'.writeBuf) && ProducerWeight(s'.producer) <= 22
  {
  }

  lemma RequestDescends(c: Config, s: State)
    requires s.producer.Ready? && s.next <= |c.ops|
    ensures Request(c, s).next <= |c.ops| && Measure(c, Request(c, s)) < Measure(c, s)
  {
    hide StartFlush;
    if s.next < |c.ops| {
      match c.ops[s.next]
      case Sector(d) => FlushWeight(c, Append(c, s, d));
      case Flush => FlushWeight(c, s.(next := s.next + 1));
      case Rekey(_) =>
    }
  }

  lemma FormatDescends(c: Config, s: State, ok: bool)
    requires s.next <= |c.ops|
    ensures var s' := Step(c, s, Format(ok)); s'.next <= |c.ops| && (s' == s || Measure(c, s') < Measure(c, s))
  {
    hide Request;
    match s.producer
    case Ready => RequestDescends(c, s);
    case Direct =>
    case AwaitEmpty =>
    case CheckResult =>
    case Fill =>
    case SignalFull =>
    case StopAwait =>
    case StopRequest =>
    case StopSignal =>
    case Join =>
    case Finished =>
    case Failed =>
  }

  lemma ThreadDescends(c: Config, s: State, ok: bool)
    requires s.next <= |c.ops|
    ensures var s' := Step(c, s, Thread(ok)); s'.next <= |c.ops| && (s' == s || Measure(c, s') < Measure(c, s))
  {
    match s.writer
    case Top =>
    case AwaitFull =>
    case Recheck =>
    case Write =>
    case SignalEmpty =>
    case Done =>
  }

  /** Every step that changes anything makes the measure smaller. */
  lemma StepDescends(c: Config, s: State, m: Move)
    requires s.next <= |c.ops|
    ensures Step(c, s, m).next <= |c.ops|
    ensures Step(c, s, m) != s ==> Measure(c, Step(c, s, m)) < Measure(c, s)
  {
    hide Measure, Step;
    match m
    case Format(ok) => FormatDescends(c, s, ok);
    case Thread(ok) => ThreadDescends(c, s, ok);
  }

  /** No reachable state is stuck before the formatting thread has finished or given up on an error. */
  lemma NoDeadlock(c: Config, moves: seq<Move>)
    requires WellFormed(c)
    requires var s := Exec(c, moves); !s.producer.Finished? && !s.producer.Failed?
    ensures var s := Exec(c, moves); Step(c, s, Format(true)) != s || Step(c, s, Thread(true)) != s
  {
    hide Exec, Contents, Request;
    Always(c, moves);
    var s := Exec(c, moves);
    if s.producer.Ready? {
      RequestMoves(c, s);
    }
  }

  lemma RequestMoves(c: Config, s: State)
    requires s.producer.Ready? && s.next <= |c.ops|
    ensures Request(c, s) != s
  {
  }

  /** Steps that change something. */
  function Changes(c: Config, moves: seq<Move>): nat {
    if moves == [] then 0
    else
      var before := moves[..|moves| - 1];
      Changes(c, before) + if Exec(c, moves) != Exec(c, before) then 1 else 0
  }

  /** So every run comes to an end: no more than this many steps do anything. */
  lemma {:induction false} RunsAreBounded(c: Config, moves: seq<Move>)
    ensures Exec(c, moves).next <= |c.ops|
    ensures Changes(c, moves) + Measure(c, Exec(c, moves)) <= 20 * |c.ops| + 13
  {
    hide Step, Measure;
    if moves == [] {
      Begin(c);
    } else {
      var before := moves[..|moves| - 1];
      RunsAreBounded(c, before);
      StepDescends(c, Exec(c, before), moves[|moves| - 1]);
    }
  }

  lemma Begin(c: Config)
    ensures Measure(c, Init(c)) <= 20 * |c.ops| + 13
  {
  }
}
