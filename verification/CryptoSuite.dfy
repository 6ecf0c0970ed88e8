// Ciphers, encryption algorithms (cascades of ciphers) and the walks over their key schedules.
module CryptoSuite {
  /** A cipher block: one (8 bytes) or two (16 bytes) 64-bit words. */
  type Data = seq<bv64>

  /** The block ciphers, by number, key-schedule address and block; and the size of each key schedule. */
  datatype Suite = Suite(
    encipher: (nat, nat, Data) -> Data, decipher: (nat, nat, Data) -> Data, ksSize: nat -> nat)

  /** The one assumption about ciphers: deciphering inverts enciphering, and blocks keep their size. */
  ghost predicate Invertible(s: Suite) {
    && (forall c, k, b {:trigger s.encipher(c, k, b)} ::
          |s.encipher(c, k, b)| == |b| && s.decipher(c, k, s.encipher(c, k, b)) == b)
    && (forall c, k, b {:trigger s.decipher(c, k, b)} :: |s.decipher(c, k, b)| == |b|)
  }

  const AES: nat := 1
  const SERPENT: nat := 2
  const TWOFISH: nat := 3
  const BLOWFISH: nat := 4
  const CAST: nat := 5
  const TRIPLEDES: nat := 6

  /** CipherGetBlockSize, in words. */
  function BlockWords(cipher: nat): (n: nat)
    ensures n == 1 || n == 2
  {
    if cipher == BLOWFISH || cipher == CAST || cipher == TRIPLEDES then 1 else 2
  }

  /** EncryptionAlgorithms[].Ciphers: zero-terminated, by encryption algorithm. */
  const EA_CIPHERS: seq<seq<nat>> := [
    [0, 0, 0, 0],
    [AES, 0, 0, 0],
    [SERPENT, 0, 0, 0],
    [TWOFISH, 0, 0, 0],
    [TWOFISH, AES, 0, 0],
    [SERPENT, TWOFISH, AES, 0],
    [AES, SERPENT, 0, 0],
    [AES, TWOFISH, SERPENT, 0],
    [SERPENT, TWOFISH, 0, 0],
    [BLOWFISH, 0, 0, 0],
    [CAST, 0, 0, 0],
    [TRIPLEDES, 0, 0, 0],
    [BLOWFISH, AES, 0, 0],
    [SERPENT, BLOWFISH, AES, 0]]

  /** The ciphers before the terminator. */
  function Before0(row: seq<nat>): (r: seq<nat>)
    ensures |r| <= |row|
  {
    if row == [] || row[0] == 0 then [] else [row[0]] + Before0(row[1..])
  }

  /** A row of the table: its ciphers are `cs`, in order, all different and none 0; then comes a 0. */
  predicate RowIs(row: seq<nat>, cs: seq<nat>) {
    && 1 <= |cs| < |row| && row[..|cs|] == cs && row[|cs|] == 0
    && (forall i :: 0 <= i < |cs| ==> cs[i] != 0)
    && (forall i, j :: 0 <= i < j < |cs| ==> cs[i] != cs[j])
  }

  function CiphersOf(ea: nat): seq<nat>
    requires ea < |EA_CIPHERS|
  {
    Before0(EA_CIPHERS[ea])
  }

  predicate ValidEa(ea: nat) { 1 <= ea < |EA_CIPHERS| }

  lemma RowFacts(ea: nat)
    requires ValidEa(ea)
    ensures var row := EA_CIPHERS[ea];
      && |row| == 4 && row[0] != 0 && row[3] == 0
      && (row[1] == 0 ==> row[2] == 0) && row[1] != row[0]
      && (row[2] != 0 ==> row[2] != row[0] && row[2] != row[1])
  {
  }

  lemma RowCiphers(row: seq<nat>)
    requires |row| == 4 && row[0] != 0 && row[3] == 0 && (row[1] == 0 ==> row[2] == 0)
    ensures Before0(row) == if row[1] == 0 then row[..1] else if row[2] == 0 then row[..2] else row[..3]
  {
    assert row[3..] == [0] && Before0(row[3..]) == [];
    assert row[2..][0] == row[2] && row[2..][1..] == row[3..];
    assert Before0(row[2..]) == if row[2] == 0 then [] else [row[2]];
    assert row[1..][0] == row[1] && row[1..][1..] == row[2..];
    assert Before0(row[1..]) == if row[1] == 0 then [] else [row[1]] + Before0(row[2..]);
  }

  lemma TableRows(ea: nat)
    requires ValidEa(ea)
    ensures RowIs(EA_CIPHERS[ea], CiphersOf(ea))
  {
    RowFacts(ea);
    RowCiphers(EA_CIPHERS[ea]);
  }

  /** EAGetFirstCipher */
  method EAGetFirstCipher(ea: nat) returns (r: nat)
    requires ValidEa(ea)
    ensures CiphersOf(ea) != [] && r == CiphersOf(ea)[0] != 0
  {
    hide CiphersOf;
    TableRows(ea);
    r := EA_CIPHERS[ea][0];
  }

  /** EAGetLastCipher */
  method EAGetLastCipher(ea: nat) returns (r: nat)
    requires ValidEa(ea)
    ensures CiphersOf(ea) != [] && r == CiphersOf(ea)[|CiphersOf(ea)| - 1] != 0
  {
    hide CiphersOf;
    TableRows(ea);
    ghost var cs := CiphersOf(ea);
    var row := EA_CIPHERS[ea];
    var i := 0;
    assert forall k :: 0 <= k < |cs| ==> row[k] == row[..|cs|][k];
    while row[i] != 0
      invariant 0 <= i <= |cs|
      decreases |cs| - i
    {
      i := i + 1;
    }
    r := row[i - 1];
  }

  /** EAGetNextCipher: the cipher after `previous`, or 0 after the last. */
  method EAGetNextCipher(ea: nat, previous: nat, ghost at: nat) returns (r: nat)
    requires ValidEa(ea) && at < |CiphersOf(ea)|
    ensures CiphersOf(ea)[at] == previous ==> r == if at + 1 < |CiphersOf(ea)| then CiphersOf(ea)[at + 1] else 0
    ensures previous !in CiphersOf(ea) ==> r == 0
  {
    hide CiphersOf;
    TableRows(ea);
    ghost var cs := CiphersOf(ea);
    var row := EA_CIPHERS[ea];
    var i := 0;
    assert forall k :: 0 <= k < |cs| ==> row[k] == row[..|cs|][k];
    while row[i] != 0
      invariant 0 <= i <= |cs| && forall k :: 0 <= k < i ==> cs[k] != previous
      decreases |cs| - i
    {
      var c := row[i];
      i := i + 1;
      if c == previous {
        return row[i];
      }
    }
    r := 0;
  }

  /** EAGetPreviousCipher: the cipher before `previous`, or 0 before the first. */
  method EAGetPreviousCipher(ea: nat, previous: nat, ghost at: nat) returns (r: nat)
    requires ValidEa(ea) && at < |CiphersOf(ea)|
    ensures CiphersOf(ea)[at] == previous ==> r == if at > 0 then CiphersOf(ea)[at - 1] else 0
    ensures previous !in CiphersOf(ea) ==> r == 0
  {
    hide CiphersOf;
    TableRows(ea);
    ghost var cs := CiphersOf(ea);
    var row := EA_CIPHERS[ea];
    assert forall k :: 0 <= k < |cs| ==> row[k] == row[..|cs|][k];
    if row[0] == previous {
      return 0;
    }
    var i := 1;
    while row[i] != 0
      invariant 1 <= i <= |cs| && forall k :: 0 <= k < i ==> cs[k] != previous
      decreases |cs| - i
    {
      var c := row[i];
      i := i + 1;
      if c == previous {
        return row[i - 2];
      }
    }
    r := 0;
  }

  /** The key schedules of the first `n` ciphers together. */
  function Offset(s: Suite, cs: seq<nat>, n: nat): nat
    requires n <= |cs|
  {
    if n == 0 then 0 else Offset(s, cs, n - 1) + s.ksSize(cs[n - 1])
  }

  /** EAGetKeyScheduleSize */
  method EAGetKeyScheduleSize(s: Suite, ea: nat) returns (size: nat)
    requires ValidEa(ea)
    ensures size == Offset(s, CiphersOf(ea), |CiphersOf(ea)|)
  {
    hide CiphersOf;
    TableRows(ea);
    ghost var cs := CiphersOf(ea);
    var i := EAGetFirstCipher(ea);
    size := s.ksSize(i);
    ghost var n := 0;
    assert Offset(s, cs, 0) == 0 && cs[0] == i;
    i := EAGetNextCipher(ea, i, 0);
    n := 1;
    while i != 0
      invariant 1 <= n <= |cs| && i == (if n < |cs| then cs[n] else 0) && size == Offset(s, cs, n)
      decreases |cs| - n
    {
      size := size + s.ksSize(i);
      assert cs[n] == i;
      i := EAGetNextCipher(ea, i, n);
      n := n + 1;
    }
  }

  // ----- Names -----

  /** Ciphers[].Name */
  function CipherGetName(cipher: nat): string {
    if cipher == AES then "AES" else if cipher == SERPENT then "Serpent" else if cipher == TWOFISH then "Twofish"
    else if cipher == BLOWFISH then "Blowfish" else if cipher == CAST then "CAST5" else if cipher == TRIPLEDES then "Triple DES"
    else ""
  }

  /** The names of the ciphers, the last one first, with hyphens between them. */
  function Names(cs: seq<nat>): string {
    if cs == [] then "?" else if |cs| == 1 then CipherGetName(cs[0]) else Names(cs[1..]) + "-" + CipherGetName(cs[0])
  }

  /** EAGetName */
  method EAGetName(ea: nat) returns (buf: string)
    requires ValidEa(ea)
    ensures buf == Names(CiphersOf(ea))
  {
    hide CiphersOf, CipherGetName;
    TableRows(ea);
    ghost var cs := CiphersOf(ea);
    ghost var k := |cs| - 1;
    var i := EAGetLastCipher(ea);
    buf := if i != 0 then CipherGetName(i) else "?";
    i := EAGetPreviousCipher(ea, i, k);
    while i != 0
      invariant 0 <= k < |cs| && i == (if k > 0 then cs[k - 1] else 0) && buf == Names(cs[k..])
      decreases k
    {
      k := k - 1;
      buf := buf + "-";
      buf := buf + CipherGetName(i);
      assert cs[k..][1..] == cs[k + 1..];
      i := EAGetPreviousCipher(ea, i, k);
    }
    assert cs[0..] == cs;
  }

  /** The algorithms by their names, as the user knows them. */
  const EA_NAMES: seq<seq<string>> := [
    [],
    ["AES"],
    ["Serpent"],
    ["Twofish"],
    ["AES", "Twofish"],
    ["AES", "Twofish", "Serpent"],
    ["Serpent", "AES"],
    ["Serpent", "Twofish", "AES"],
    ["Twofish", "Serpent"],
    ["Blowfish"],
    ["CAST5"],
    ["Triple DES"],
    ["AES", "Blowfish"],
    ["AES", "Blowfish", "Serpent"]]

  /** The table holds the ciphers of every algorithm in the order of its name, read backwards. */
  lemma NamesAre(ea: nat, i: nat)
    requires ValidEa(ea) && i < |CiphersOf(ea)|
    ensures var cs, names := CiphersOf(ea), EA_NAMES[ea];
      |names| == |cs| && CipherGetName(cs[i]) == names[|cs| - 1 - i]
  {
    hide Before0;
    RowFacts(ea);
    RowCiphers(EA_CIPHERS[ea]);
  }

  // ----- Cascades -----

  /** Ciphers `i` on, each with the key schedule that follows the one before. */
  function Forward(s: Suite, cs: seq<nat>, ks: nat, i: nat, b: Data): Data
    requires i <= |cs|
    decreases |cs| - i
  {
    if i == |cs| then b else Forward(s, cs, ks, i + 1, s.encipher(cs[i], ks + Offset(s, cs, i), b))
  }

  /** Ciphers before `i`, the last one first. */
  function Backward(s: Suite, cs: seq<nat>, ks: nat, i: nat, b: Data): Data
    requires i <= |cs|
  {
    if i == 0 then b else Backward(s, cs, ks, i - 1, s.decipher(cs[i - 1], ks + Offset(s, cs, i - 1), b))
  }

  /** Walking back over the ciphers already applied undoes them. */
  lemma {:induction false} CascadeUndone(s: Suite, cs: seq<nat>, ks: nat, i: nat, b: Data)
    requires Invertible(s) && i <= |cs|
    ensures |Forward(s, cs, ks, i, b)| == |b|
    ensures Backward(s, cs, ks, |cs|, Forward(s, cs, ks, i, b)) == Backward(s, cs, ks, i, b)
    decreases |cs| - i
  {
    if i < |cs| {
      var x := s.encipher(cs[i], ks + Offset(s, cs, i), b);
      CascadeUndone(s, cs, ks, i + 1, x);
      assert s.decipher(cs[i], ks + Offset(s, cs, i), x) == b;
    }
  }

  lemma {:induction false} BackwardSize(s: Suite, cs: seq<nat>, ks: nat, i: nat, b: Data)
    requires Invertible(s) && i <= |cs|
    ensures |Backward(s, cs, ks, i, b)| == |b|
  {
    if i > 0 {
      BackwardSize(s, cs, ks, i - 1, s.decipher(cs[i - 1], ks + Offset(s, cs, i - 1), b));
    }
  }

  /** Encrypting cascade (lines 843 to 850, 1107 to 1112). */
  method EncipherCascade(s: Suite, ea: nat, start: nat, block: Data) returns (b: Data)
    requires ValidEa(ea)
    ensures b == Forward(s, CiphersOf(ea), start, 0, block)
  {
    hide CiphersOf;
    TableRows(ea);
    ghost var cs, i := CiphersOf(ea), 0;
    b := block;
    var ks := start;
    var cipher := EAGetFirstCipher(ea);
    while cipher != 0
      invariant 0 <= i <= |cs| && cipher == (if i < |cs| then cs[i] else 0)
      invariant ks == start + Offset(s, cs, i)
      invariant Forward(s, cs, start, i, b) == Forward(s, cs, start, 0, block)
      decreases |cs| - i
    {
      b := s.encipher(cipher, ks, b);
      ks := ks + s.ksSize(cipher);
      assert CiphersOf(ea)[i] == cipher;
      cipher := EAGetNextCipher(ea, cipher, i);
      i := i + 1;
    }
  }

  /** Decrypting cascade (lines 935 to 943, 1206 to 1211): key-schedule addresses go down. */
  method DecipherCascade(s: Suite, ea: nat, start: nat, block: Data) returns (b: Data)
    requires ValidEa(ea)
    ensures b == Backward(s, CiphersOf(ea), start, |CiphersOf(ea)|, block)
  {
    hide CiphersOf;
    TableRows(ea);
    ghost var cs := CiphersOf(ea);
    ghost var i := |cs|;
    b := block;
    var size := EAGetKeyScheduleSize(s, ea);
    var ks: int := start + size;
    var cipher := EAGetLastCipher(ea);
    while cipher != 0
      invariant 0 <= i <= |cs| && cipher == (if i > 0 then cs[i - 1] else 0)
      invariant ks == start + Offset(s, cs, i)
      invariant Backward(s, cs, start, i, b) == Backward(s, cs, start, |cs|, block)
      decreases i
    {
      ks := ks - s.ksSize(cipher);
      b := s.decipher(cipher, ks, b);
      assert CiphersOf(ea)[i - 1] == cipher;
      cipher := EAGetPreviousCipher(ea, cipher, i - 1);
      i := i - 1;
    }
  }
}
