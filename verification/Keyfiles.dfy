// How keyfiles are mixed into the keyfile pool (Keyfiles.c).
module Keyfiles {
  import opened Bytes
  import opened Sequences
  import Crc

  type Pool = p: seq<byte> | |p| == KEYFILE_POOL_SIZE witness Blank()

  function Blank(): (p: seq<byte>)
    ensures |p| == KEYFILE_POOL_SIZE
  {
    seq(KEYFILE_POOL_SIZE, _ => 0)
  }

  const KEYFILE_POOL_SIZE: nat := 64
  const KEYFILE_MAX_READ_LEN: nat := 1024 * 1024

  /** A keyfile: the chunks fread delivers, and whether reading failed behind them; or a security token's data. */
  datatype Keyfile = File(chunks: seq<seq<bv8>>, failed: bool) | Token(data: seq<bv8>)

  function ContentsOf(k: Keyfile): seq<bv8> {
    match k
    case File(chunks, _) => Concat(chunks)
    case Token(data) => data
  }

  /** No more than the first megabyte is used. */
  function Used(data: seq<bv8>): seq<bv8> {
    if |data| > KEYFILE_MAX_READ_LEN then data[..KEYFILE_MAX_READ_LEN] else data
  }

  /** Byte `k` of the CRC register, the highest first. */
  function Part(crc: bv32, k: nat): byte
    requires k < 4
  {
    if k == 0 then (crc >> 24) as bv8 as int
    else if k == 1 then ((crc >> 16) & 0xff) as bv8 as int
    else if k == 2 then ((crc >> 8) & 0xff) as bv8 as int
    else (crc & 0xff) as bv8 as int
  }

  /** += on unsigned bytes. */
  function Plus(a: byte, b: byte): byte { (a + b) % 256 }

  function AddPools(p: Pool, q: Pool): Pool { seq(KEYFILE_POOL_SIZE, i requires 0 <= i < KEYFILE_POOL_SIZE => Plus(p[i], q[i])) }

  const ZERO: Pool := Blank()

  function PartAt(crc: bv32, at: nat, i: nat): byte { if at <= i < at + 4 then Part(crc, i - at) else 0 }

  /** What the register adds to the pool at four bytes from `at` on. */
  function Spread(crc: bv32, at: nat): Pool
    requires at + 4 <= KEYFILE_POOL_SIZE
  {
    seq(KEYFILE_POOL_SIZE, i requires 0 <= i < KEYFILE_POOL_SIZE => PartAt(crc, at, i))
  }

  /** What `data` adds to the pool: the running CRC register after every byte, four bytes further on each time. */
  function Delta(data: seq<bv8>): Pool {
    if data == [] then ZERO
    else AddPools(Delta(data[..|data| - 1]), Spread(Crc.Register(data), 4 * ((|data| - 1) % 16)))
  }

  // ----- Pools add up -----

  lemma PlusLaws(a: byte, b: byte, c: byte)
    ensures Plus(a, b) == Plus(b, a) && Plus(Plus(a, b), c) == Plus(a, Plus(b, c)) && Plus(a, 0) == a
  {
    Wrap(a + b);
    Wrap(b + c);
  }

  lemma Wrap(x: nat)
    requires x < 512
    ensures x % 256 == if x < 256 then x else x - 256
  {
  }

  lemma PoolLaws(p: Pool, q: Pool, r: Pool)
    ensures AddPools(p, q) == AddPools(q, p) && AddPools(AddPools(p, q), r) == AddPools(p, AddPools(q, r)) && AddPools(p, ZERO) == p
  {
    hide Plus;
    forall i | 0 <= i < KEYFILE_POOL_SIZE
      ensures Plus(p[i], q[i]) == Plus(q[i], p[i]) && Plus(Plus(p[i], q[i]), r[i]) == Plus(p[i], Plus(q[i], r[i])) && Plus(p[i], 0) == p[i]
    {
      PlusLaws(p[i], q[i], r[i]);
    }
  }

  /** What each keyfile contributes with: its first megabyte. */
  function Datas(files: seq<Keyfile>): seq<seq<bv8>> { seq(|files|, i requires 0 <= i < |files| => Used(ContentsOf(files[i]))) }

  /** Several keyfiles together. */
  function Total(datas: seq<seq<bv8>>): Pool {
    if datas == [] then ZERO
    else AddPools(Total(datas[..|datas| - 1]), Delta(datas[|datas| - 1]))
  }

  lemma {:induction false} TotalAppend(a: seq<seq<bv8>>, b: seq<seq<bv8>>)
    ensures Total(a + b) == AddPools(Total(a), Total(b))
  {
    hide AddPools, Delta;
    if b == [] {
      assert a + b == a;
      PoolLaws(Total(a), Total(a), Total(a));
    } else {
      var c, x := b[..|b| - 1], b[|b| - 1];
      assert (a + b)[..|a + b| - 1] == a + c;
      TotalAppend(a, c);
      PoolLaws(Total(a), Total(c), Delta(x));
    }
  }

  /** A keyfile may be moved to the end. */
  lemma MoveLast(a: seq<seq<bv8>>, x: seq<bv8>, b: seq<seq<bv8>>)
    ensures Total(a + [x] + b) == Total(a + b + [x])
  {
    hide AddPools, Delta;
    TotalAppend(a + [x], b);
    TotalAppend(a, [x]);
    TotalAppend(a + b, [x]);
    TotalAppend(a, b);
    PoolLaws(Total(a), Total([x]), Total(b));
    PoolLaws(Total([x]), Total(b), Total(b));
    PoolLaws(Total(a), Total(b), Total([x]));
  }

  lemma TotalLast(c: seq<seq<bv8>>, x: seq<bv8>)
    ensures Total(c + [x]) == AddPools(Total(c), Delta(x))
  {
    assert (c + [x])[..|c|] == c;
  }

  lemma TakenOut(b: seq<seq<bv8>>, i: nat)
    requires i < |b|
    ensures b == b[..i] + [b[i]] + b[i + 1..]
    ensures multiset(b[..i] + b[i + 1..]) == multiset(b) - multiset{b[i]}
  {
    assert b == b[..i] + [b[i]] + b[i + 1..];
  }

  /** The order of keyfiles does not matter. */
  lemma {:induction false} OrderDoesNotMatter(a: seq<seq<bv8>>, b: seq<seq<bv8>>)
    requires multiset(a) == multiset(b)
    ensures Total(a) == Total(b)
    decreases |a|
  {
    hide Delta, AddPools, Total;
    assert |a| == |multiset(a)| == |multiset(b)| == |b|;
    if a == [] {
      assert b == [];
    } else {
      var n := |a| - 1;
      var x := a[n];
      assert x in multiset(b);
      var i :| 0 <= i < |b| && b[i] == x;
      var c := b[..i] + b[i + 1..];
      TakenOut(a, n);
      TakenOut(b, i);
      assert a[..n] + a[n + 1..] == a[..n] && a == a[..n] + [x];
      OrderDoesNotMatter(a[..n], c);
      MoveLast(b[..i], x, b[i + 1..]);
      TotalLast(a[..n], x);
      TotalLast(c, x);
    }
  }

  // ----- The loops -----

  /** UPDC32 and four additions at the write position, which wraps. */
  method MixByte(keyPool: array<byte>, octet: bv8, crc: bv32, writePos: nat) returns (crc': bv32, writePos': nat)
    requires keyPool.Length == KEYFILE_POOL_SIZE && writePos % 4 == 0 && writePos + 4 <= KEYFILE_POOL_SIZE
    modifies keyPool
    ensures crc' == Crc.TableStep(crc, octet) && writePos' == (if writePos + 4 >= KEYFILE_POOL_SIZE then 0 else writePos + 4)
    ensures keyPool[..] == AddPools(old(keyPool[..]), Spread(crc', writePos))
  {
    hide Crc.TableStep, Part, Plus;
    crc' := Crc.TableStep(crc, octet);
    var w := writePos;
    Zero();
    keyPool[w] := Plus(keyPool[w], Part(crc', 0));
    keyPool[w + 1] := Plus(keyPool[w + 1], Part(crc', 1));
    keyPool[w + 2] := Plus(keyPool[w + 2], Part(crc', 2));
    keyPool[w + 3] := Plus(keyPool[w + 3], Part(crc', 3));
    writePos' := w + 4;
    if writePos' >= KEYFILE_POOL_SIZE {
      writePos' := 0;
    }
  }

  lemma Zero()
    ensures forall a: byte :: Plus(a, 0) == a
  {
  }

  lemma NextDelta(data: seq<bv8>, n: nat, p: Pool)
    requires n < |data|
    ensures AddPools(p, Delta(data[..n + 1])) ==
      AddPools(AddPools(p, Delta(data[..n])), Spread(Crc.Register(data[..n + 1]), 4 * (n % 16)))
    ensures Crc.Register(data[..n + 1]) == Crc.TableStep(Crc.Register(data[..n]), data[n])
  {
    hide AddPools, Crc.TableStep, Crc.Steps, Crc.Xor;
    assert data[..n + 1][..n] == data[..n];
    Crc.RegisterNext(data, n);
    Crc.TableStepIs(Crc.Register(data[..n]), data[n]);
    PoolLaws(p, Delta(data[..n]), Spread(Crc.Register(data[..n + 1]), 4 * (n % 16)));
  }

  /** The state of either loop after `n` bytes. */
  ghost predicate After(pool0: Pool, pool: seq<byte>, data: seq<bv8>, n: nat, crc: bv32, writePos: nat) {
    && n <= |data| && pool == AddPools(pool0, Delta(data[..n]))
    && crc == Crc.Register(data[..n]) && writePos == 4 * (n % 16)
  }

  lemma Begin(pool0: Pool, data: seq<bv8>)
    ensures After(pool0, pool0, data, 0, 0xffff_ffff, 0)
  {
    assert data[..0] == [];
    PoolLaws(pool0, pool0, pool0);
  }

  lemma AfterPlace(pool0: Pool, pool: seq<byte>, data: seq<bv8>, n: nat, crc: bv32, writePos: nat)
    requires After(pool0, pool, data, n, crc, writePos)
    ensures writePos % 4 == 0 && writePos + 4 <= KEYFILE_POOL_SIZE
  {
  }

  lemma AfterIs(pool0: Pool, pool: seq<byte>, data: seq<bv8>, n: nat, crc: bv32, writePos: nat)
    requires After(pool0, pool, data, n, crc, writePos)
    ensures n <= |data| && pool == AddPools(pool0, Delta(data[..n]))
  {
  }

  /** One byte more. */
  lemma AfterNext(pool0: Pool, pool: Pool, pool': seq<byte>, data: seq<bv8>, n: nat, crc: bv32, crc': bv32, writePos: nat, writePos': nat)
    requires After(pool0, pool, data, n, crc, writePos) && n < |data| && writePos + 4 <= KEYFILE_POOL_SIZE
    requires crc' == Crc.TableStep(crc, data[n]) && pool' == AddPools(pool, Spread(crc', writePos))
    requires writePos' == if writePos + 4 >= KEYFILE_POOL_SIZE then 0 else writePos + 4
    ensures After(pool0, pool', data, n + 1, crc', writePos')
  {
    hide AddPools, Crc.TableStep, Crc.Register, Delta;
    NextDelta(data, n, pool0);
  }

  /** Lines 258 to 276: the bytes of a security token. */
  method TokenProcess(keyPool: array<byte>, data: seq<bv8>)
    requires keyPool.Length == KEYFILE_POOL_SIZE
    modifies keyPool
    ensures keyPool[..] == AddPools(old(keyPool[..]), Delta(Used(data)))
  {
    hide AddPools, Delta, Crc.Register, Crc.TableStep;
    var crc: bv32, writePos, totalRead := 0xffff_ffff, 0, 0;
    ghost var pool0 := keyPool[..];
    Begin(pool0, data);
    for i := 0 to |data|
      invariant totalRead == i < KEYFILE_MAX_READ_LEN && After(pool0, keyPool[..], data, i, crc, writePos)
    {
      NextDelta(data, i, pool0);
      crc, writePos := MixByte(keyPool, data[i], crc, writePos);
      totalRead := totalRead + 1;
      if totalRead >= KEYFILE_MAX_READ_LEN {
        UsedUp(data);
        return;
      }
    }
    assert data[..|data|] == data;
  }

  /** KeyFileProcess: the same bytes however they are cut into chunks; FALSE if reading failed or gave nothing. */
  method KeyFileProcess(keyPool: array<byte>, chunks: seq<seq<bv8>>, failed: bool) returns (status: bool)
    requires keyPool.Length == KEYFILE_POOL_SIZE
    modifies keyPool
    ensures keyPool[..] == AddPools(old(keyPool[..]), Delta(Used(Concat(chunks))))
    ensures status <==> |Concat(chunks)| >= KEYFILE_MAX_READ_LEN || (!failed && Concat(chunks) != [])
  {
    hide AddPools, Delta, Spread, Crc.Register, Crc.TableStep, Concat, After;
    var crc: bv32, writePos, totalRead := 0xffff_ffff, 0, 0;
    ghost var data := Concat(chunks);
    ghost var pool0 := keyPool[..];
    Begin(pool0, data);
    ConcatSome(chunks, 0);
    for c := 0 to |chunks|
      invariant totalRead == |Concat(chunks[..c])| < KEYFILE_MAX_READ_LEN
      invariant After(pool0, keyPool[..], data, totalRead, crc, writePos)
    {
      var buffer := chunks[c];
      ConcatSome(chunks, c);
      for i := 0 to |buffer|
        invariant totalRead == |Concat(chunks[..c])| + i < KEYFILE_MAX_READ_LEN
        invariant After(pool0, keyPool[..], data, totalRead, crc, writePos)
      {
        ghost var pool := keyPool[..];
        AfterPlace(pool0, pool, data, totalRead, crc, writePos);
        var crc', writePos' := MixByte(keyPool, buffer[i], crc, writePos);
        AfterNext(pool0, pool, keyPool[..], data, totalRead, crc, crc', writePos, writePos');
        crc, writePos := crc', writePos';
        totalRead := totalRead + 1;
        if totalRead >= KEYFILE_MAX_READ_LEN {
          UsedUp(data);
          AfterIs(pool0, keyPool[..], data, totalRead, crc, writePos);
          return true;
        }
      }
    }
    assert chunks[..|chunks|] == chunks && data[..|data|] == data;
    AfterIs(pool0, keyPool[..], data, totalRead, crc, writePos);
    status := !failed && totalRead != 0;
  }

  lemma UsedUp(data: seq<bv8>)
    requires |data| >= KEYFILE_MAX_READ_LEN
    ensures Used(data) == data[..KEYFILE_MAX_READ_LEN]
  {
    if |data| == KEYFILE_MAX_READ_LEN {
      assert data[..KEYFILE_MAX_READ_LEN] == data;
    }
  }

  lemma {:induction false} ConcatSome(chunks: seq<seq<bv8>>, c: nat)
    requires c <= |chunks|
    ensures Concat(chunks[..c]) <= Concat(chunks)
    ensures c < |chunks| ==> Concat(chunks[..c + 1]) == Concat(chunks[..c]) + chunks[c] && Concat(chunks[..c + 1]) <= Concat(chunks)
    ensures chunks[..0] == [] && Concat(chunks[..0]) == []
    decreases |chunks| - c
  {
    if c < |chunks| {
      ConcatSome(chunks, c + 1);
      assert chunks[..c + 1][..c] == chunks[..c];
    } else {
      assert chunks[..c] == chunks;
    }
  }

  /** A keyfile that could be read. */
  predicate Readable(k: Keyfile) {
    match k
    case File(chunks, failed) => |Concat(chunks)| >= KEYFILE_MAX_READ_LEN || (!failed && Concat(chunks) != [])
    case Token(data) => data != []
  }

  // ----- The list of keyfiles and directories -----

  /** What a directory lists: an entry that cannot be looked at, a directory (not entered), a hidden file (passed
      over), or a file. */
  datatype Entry = NoEntry | SubDirectory | Hidden | Listed(file: Keyfile)

  /** What a path in the list stands for: a token keyfile that can be fetched or not, a file, a directory; or nothing
      that can be looked at, or listed. */
  datatype Path = Single(file: Keyfile) | TokenError | Missing | Unlistable | Directory(entries: seq<Entry>)

  function FilesIn(entries: seq<Entry>): seq<Keyfile> {
    if entries == [] then []
    else FilesIn(entries[..|entries| - 1]) + FileOf(entries[|entries| - 1])
  }

  function FileOf(e: Entry): seq<Keyfile> { if e.Listed? then [e.file] else [] }

  /** The keyfiles a path adds to the pool. */
  function KeyfilesOf(p: Path): seq<Keyfile> {
    match p
    case Single(file) => [file]
    case Directory(entries) => FilesIn(entries)
    case _ => []
  }

  function AllOf(paths: seq<Path>): seq<Keyfile> {
    if paths == [] then [] else AllOf(paths[..|paths| - 1]) + KeyfilesOf(paths[|paths| - 1])
  }

  predicate EntryGood(e: Entry) { !e.NoEntry? && (e.Listed? ==> Readable(e.file)) }

  /** A path all of whose keyfiles could be read; a directory must have some. */
  predicate Good(p: Path) {
    match p
    case Single(file) => Readable(file)
    case Directory(entries) => FilesIn(entries) != [] && forall e :: e in entries ==> EntryGood(e)
    case _ => false
  }

  lemma AddKeyfiles(p: Pool, a: seq<Keyfile>, b: seq<Keyfile>)
    ensures AddPools(AddPools(p, Total(Datas(a))), Total(Datas(b))) == AddPools(p, Total(Datas(a + b)))
    ensures AddPools(p, Total(Datas([]))) == p
  {
    hide AddPools, Total;
    assert Datas(a + b) == Datas(a) + Datas(b);
    TotalAppend(Datas(a), Datas(b));
    PoolLaws(p, Total(Datas(a)), Total(Datas(b)));
    TotalNone();
  }

  method ApplyKeyfile(keyPool: array<byte>, k: Keyfile) returns (status: bool)
    requires keyPool.Length == KEYFILE_POOL_SIZE
    modifies keyPool
    ensures keyPool[..] == AddPools(old(keyPool[..]), Total(Datas([k])))
    ensures status <==> Readable(k)
  {
    hide AddPools, Delta, Used, Concat, Total;
    ghost var p := keyPool[..];
    assert Datas([k]) == [] + [Used(ContentsOf(k))];
    TotalLast([], Used(ContentsOf(k)));
    TotalNone();
    PoolLaws(Delta(Used(ContentsOf(k))), ZERO, ZERO);
    match k {
      case File(chunks, failed) =>
        status := KeyFileProcess(keyPool, chunks, failed);
      case Token(data) =>
        if data == [] {
          NothingAdded(p);
          return false;
        }
        TokenProcess(keyPool, data);
        status := true;
    }
  }

  /** A directory: every file listed in it, until the listing ends. */
  method ApplyDirectory(keyPool: array<byte>, entries: seq<Entry>) returns (status: bool)
    requires keyPool.Length == KEYFILE_POOL_SIZE
    modifies keyPool
    ensures keyPool[..] == AddPools(old(keyPool[..]), Total(Datas(FilesIn(entries))))
    ensures status <==> Good(Directory(entries))
  {
    hide AddPools, Total, Readable, Datas;
    status := true;
    var keyfileCount := 0;
    ghost var p := keyPool[..];
    AddKeyfiles(p, [], []);
    for n := 0 to |entries|
      invariant keyPool[..] == AddPools(p, Total(Datas(FilesIn(entries[..n])))) && keyfileCount == |FilesIn(entries[..n])|
      invariant status <==> forall k :: 0 <= k < n ==> EntryGood(entries[k])
    {
      assert entries[..n + 1][..n] == entries[..n];
      ghost var before := FilesIn(entries[..n]);
      assert FilesIn(entries[..n + 1]) == before + FileOf(entries[n]) && before + [] == before;
      match entries[n] {
        case NoEntry => status := false;
        case SubDirectory =>
        case Hidden =>
        case Listed(file) =>
          AddKeyfiles(p, before, [file]);
          keyfileCount := keyfileCount + 1;
          var ok := ApplyKeyfile(keyPool, file);
          status := status && ok;
      }
    }
    assert entries[..|entries|] == entries;
    if keyfileCount == 0 {
      status := false;
    }
  }

  method ApplyPath(keyPool: array<byte>, path: Path) returns (status: bool)
    requires keyPool.Length == KEYFILE_POOL_SIZE && !path.TokenError?
    modifies keyPool
    ensures keyPool[..] == AddPools(old(keyPool[..]), Total(Datas(KeyfilesOf(path))))
    ensures status <==> Good(path)
  {
    hide AddPools, Total, Readable, Datas;
    AddKeyfiles(keyPool[..], [], []);
    match path {
      case Missing => status := false;
      case Unlistable => status := false;
      case Single(file) => status := ApplyKeyfile(keyPool, file);
      case Directory(entries) => status := ApplyDirectory(keyPool, entries);
    }
  }

  // ----- The password -----

  /** Password: MAX_PASSWORD characters and a terminator, and how many are used. */
  class Password {
    var Text: array<byte>
    var Length: nat

    ghost predicate Valid()
      reads this
    {
      Text.Length == KEYFILE_POOL_SIZE + 1 && Length <= KEYFILE_POOL_SIZE
    }

    constructor ()
      ensures Valid() && fresh(Text)
    {
      Text, Length := new byte[KEYFILE_POOL_SIZE + 1], 0;
    }
  }

  /** The pool added to the characters there are, and put behind them. */
  function Mixed(text: seq<byte>, length: nat, pool: Pool): seq<byte>
    requires |text| >= KEYFILE_POOL_SIZE
  {
    seq(KEYFILE_POOL_SIZE, i requires 0 <= i < KEYFILE_POOL_SIZE => if i < length then Plus(text[i], pool[i]) else pool[i])
      + text[KEYFILE_POOL_SIZE..]
  }

  method MixIntoPassword(password: Password, keyPool: array<byte>)
    requires password.Valid() && keyPool.Length == KEYFILE_POOL_SIZE && password.Text != keyPool
    modifies password`Length, password.Text
    ensures password.Valid() && password.Length == KEYFILE_POOL_SIZE
    ensures password.Text == old(password.Text)
    ensures password.Text[..] == Mixed(old(password.Text[..]), old(password.Length), old(keyPool[..]))
  {
    hide Plus;
    var text := password.Text;
    for i := 0 to KEYFILE_POOL_SIZE
      invariant forall k :: i <= k < text.Length ==> text[k] == old(text[k])
      invariant forall k :: 0 <= k < i ==> text[k] == if k < password.Length then Plus(old(text[k]), keyPool[k]) else keyPool[k]
      modifies text
    {
      text[i] := if i < password.Length then Plus(text[i], keyPool[i]) else keyPool[i];
    }
    assert text[..] == Mixed(old(text[..]), password.Length, keyPool[..]);
    if password.Length < KEYFILE_POOL_SIZE {
      password.Length := KEYFILE_POOL_SIZE;
    }
  }

  /** KeyFilesApply: no keyfiles change nothing; a token that cannot be read fails, and leaves the password alone;
      else the total of all keyfiles is mixed in, and the result is TRUE exactly if all could be read. */
  method KeyFilesApply(password: Password, paths: seq<Path>) returns (status: bool)
    requires password.Valid()
    modifies password`Length, password.Text
    ensures password.Valid() && password.Text == old(password.Text)
    ensures paths == [] || TokenError in paths ==>
      status == (paths == []) && password.Text[..] == old(password.Text[..]) && password.Length == old(password.Length)
    ensures paths != [] && TokenError !in paths ==>
      && password.Length == KEYFILE_POOL_SIZE
      && password.Text[..] == Mixed(old(password.Text[..]), old(password.Length), Total(Datas(AllOf(paths))))
      && (status <==> forall p :: p in paths ==> Good(p))
  {
    hide AddPools, Total, Datas, Good, Mixed, KeyfilesOf;
    if paths == [] {
      return true;
    }
    var keyPool := new byte[KEYFILE_POOL_SIZE](_ => 0);
    assert keyPool[..] == ZERO;
    status := true;
    NoKeyfiles();
    for n := 0 to |paths|
      invariant keyPool[..] == Total(Datas(AllOf(paths[..n]))) && TokenError !in paths[..n]
      invariant status <==> forall k :: 0 <= k < n ==> Good(paths[k])
      modifies keyPool
    {
      assert paths[..n + 1][..n] == paths[..n] && paths[..n + 1] == paths[..n] + [paths[n]];
      if paths[n].TokenError? {
        assert paths[n] in paths;
        return false;
      }
      AddKeyfiles(ZERO, AllOf(paths[..n]), KeyfilesOf(paths[n]));
      FromZero(Total(Datas(AllOf(paths[..n]))));
      FromZero(Total(Datas(AllOf(paths[..n + 1]))));
      var ok := ApplyPath(keyPool, paths[n]);
      status := status && ok;
    }
    assert paths[..|paths|] == paths;
    ghost var pool, text0 := keyPool[..], password.Text[..];
    assert text0 == old(password.Text[..]);
    assert password.Length == old(password.Length);
    MixIntoPassword(password, keyPool);
    assert password.Text[..] == Mixed(text0, old(password.Length), pool);
    assert password.Text[..] == Mixed(old(password.Text[..]), old(password.Length), pool);
  }

  lemma NoKeyfiles()
    ensures forall paths: seq<Path> :: |paths| == 0 ==> Total(Datas(AllOf(paths))) == ZERO
  {
    TotalNone();
  }

  lemma FromZero(p: Pool)
    ensures AddPools(ZERO, p) == p
  {
    PoolLaws(p, ZERO, ZERO);
  }

  lemma TotalNone()
    ensures forall d: seq<seq<bv8>> :: |d| == 0 ==> Total(d) == ZERO
  {
  }

  lemma NothingAdded(p: Pool)
    ensures AddPools(p, Delta(Used([]))) == p
  {
    PoolLaws(p, p, p);
  }

  /** So the pool depends on the multiset of first megabytes only: not on the order of keyfiles, not on how a file
      is cut into chunks, and not on whether the bytes come from a file or a token. */
  lemma PoolIsOfMultiset(a: seq<Keyfile>, b: seq<Keyfile>)
    requires multiset(Datas(a)) == multiset(Datas(b))
    ensures Total(Datas(a)) == Total(Datas(b))
  {
    OrderDoesNotMatter(Datas(a), Datas(b));
  }

  /** And so does the password. */
  lemma PasswordIsOfMultiset(text: seq<byte>, length: nat, a: seq<Path>, b: seq<Path>)
    requires |text| >= KEYFILE_POOL_SIZE && multiset(Datas(AllOf(a))) == multiset(Datas(AllOf(b)))
    ensures Mixed(text, length, Total(Datas(AllOf(a)))) == Mixed(text, length, Total(Datas(AllOf(b))))
  {
    PoolIsOfMultiset(AllOf(a), AllOf(b));
  }
}
