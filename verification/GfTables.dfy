// The multiplication tables of GfMul.c: built in place, and used.
module GfTables {
  import opened Bytes
  import opened GfField

  /** Row `i` of the least-significant-bit-first table: entry `j` is the sum of a mirrored element times
      the powers of x that the bits of `j` stand for. */
  function RowBase(i: nat): nat { 8 * (i / 2) + if i % 2 == 0 then 4 else 0 }

  ghost function RowEntry<E>(f: Field<E>, am: E, i: nat, j: nat): E {
    var e := RowBase(i);
    Choose(f, PowerM(f, am, e + 3), PowerM(f, am, e + 2), PowerM(f, am, e + 1), PowerM(f, am, e), j)
  }

  ghost predicate RowPowers<E>(f: Field<E>, t: array2<E>, am: E, i: nat)
    reads t
    requires i < t.Length0 && t.Length1 == 16
  {
    var e := RowBase(i);
    && t[i, 0] == f.zero
    && t[i, 8] == PowerM(f, am, e) && t[i, 4] == PowerM(f, am, e + 1)
    && t[i, 2] == PowerM(f, am, e + 2) && t[i, 1] == PowerM(f, am, e + 3)
  }

  ghost predicate RowDone<E>(f: Field<E>, t: array2<E>, am: E, i: nat)
    reads t
    requires i < t.Length0 && t.Length1 == 16
  {
    forall j :: 0 <= j < 16 ==> t[i, j] == RowEntry(f, am, i, j)
  }

  /** Lines 483 to 495: the powers of the first two rows. */
  method FirstRows<E>(f: Field<E>, t: array2<E>, am: E)
    requires t.Length0 >= 2 && t.Length1 == 16 && t[0, 0] == f.zero && t[1, 0] == f.zero
    modifies t
    ensures RowPowers(f, t, am, 0) && RowPowers(f, t, am, 1)
    ensures forall i, j :: 2 <= i < t.Length0 && 0 <= j < 16 ==> t[i, j] == old(t[i, j])
  {
    t[1, 8] := am;
    var j := 4;
    while j > 0
      invariant j == 4 || j == 2 || j == 1 || j == 0
      invariant t[1, 8] == am && t[0, 0] == f.zero && t[1, 0] == f.zero
      invariant j <= 2 ==> t[1, 4] == PowerM(f, am, 1)
      invariant j <= 1 ==> t[1, 2] == PowerM(f, am, 2)
      invariant j == 0 ==> t[1, 1] == PowerM(f, am, 3)
      invariant forall i, j :: 2 <= i < t.Length0 && 0 <= j < 16 ==> t[i, j] == old(t[i, j])
      decreases j
    {
      t[1, j] := t[1, j + j];
      t[1, j] := f.mirrorX(t[1, j]);
      assert PowerM(f, am, 0) == am;
      j := j / 2;
    }
    t[0, 8] := t[1, 1];
    t[0, 8] := f.mirrorX(t[0, 8]);
    j := 4;
    while j > 0
      invariant j == 4 || j == 2 || j == 1 || j == 0
      invariant RowPowers(f, t, am, 1) && t[0, 0] == f.zero && t[0, 8] == PowerM(f, am, 4)
      invariant j <= 2 ==> t[0, 4] == PowerM(f, am, 5)
      invariant j <= 1 ==> t[0, 2] == PowerM(f, am, 6)
      invariant j == 0 ==> t[0, 1] == PowerM(f, am, 7)
      invariant forall i, j :: 2 <= i < t.Length0 && 0 <= j < 16 ==> t[i, j] == old(t[i, j])
      decreases j
    {
      t[0, j] := t[0, j + j];
      t[0, j] := f.mirrorX(t[0, j]);
      j := j / 2;
    }
  }

  lemma NextByte<E(!new)>(f: Field<E>, am: E, n: nat)
    requires Laws(f)
    ensures f.mirrorX8(PowerM(f, am, n)) == PowerM(f, am, n + 8)
  {
    assert MirrorLaw(f, PowerM(f, am, n), am);
    PowerMAdd(f, am, n, 8);
  }

  /** Lines 498 to 502: a later row is eight powers above the row two before. */
  method LaterRow<E(!new)>(f: Field<E>, t: array2<E>, am: E, i: nat)
    requires Laws(f) && 2 <= i < t.Length0 && t.Length1 == 16
    requires t[i, 0] == f.zero && RowPowers(f, t, am, i - 2)
    modifies t
    ensures RowPowers(f, t, am, i)
    ensures forall k, j :: 0 <= k < t.Length0 && 0 <= j < 16 && k != i ==> t[k, j] == old(t[k, j])
  {
    hide Laws, PowerM;
    var e := RowBase(i - 2);
    assert RowBase(i) == e + 8;
    NextByte(f, am, e);
    NextByte(f, am, e + 1);
    NextByte(f, am, e + 2);
    NextByte(f, am, e + 3);
    var j := 8;
    while j > 0
      invariant j == 8 || j == 4 || j == 2 || j == 1 || j == 0
      invariant t[i, 0] == f.zero
      invariant j <= 4 ==> t[i, 8] == PowerM(f, am, e + 8)
      invariant j <= 2 ==> t[i, 4] == PowerM(f, am, e + 9)
      invariant j <= 1 ==> t[i, 2] == PowerM(f, am, e + 10)
      invariant j == 0 ==> t[i, 1] == PowerM(f, am, e + 11)
      invariant forall k, j :: 0 <= k < t.Length0 && 0 <= j < 16 && k != i ==> t[k, j] == old(t[k, j])
      decreases j
    {
      t[i, j] := t[i - 2, j];
      t[i, j] := f.mirrorX8(t[i, j]);
      j := j / 2;
    }
  }

  lemma ChooseStep<E(!new)>(f: Field<E>, e0: E, e1: E, e2: E, e3: E, j: nat, k: nat)
    requires Laws(f) && (j == 2 || j == 4 || j == 8) && k < j
    ensures Choose(f, e0, e1, e2, e3, j + k) == f.add(Choose(f, e0, e1, e2, e3, j), Choose(f, e0, e1, e2, e3, k))
  {
    hide Laws;
    HighBit(j, k);
    var z := f.zero;
    var p0, p1, p2 := Pick(f, NibbleBit(k, 0), e0), Pick(f, NibbleBit(k, 1), e1), Pick(f, NibbleBit(k, 2), e2);
    AddLaws(f, z, z, z);
    AddLaws(f, p0, z, z);
    AddLaws(f, p0, p1, z);
    AddLaws(f, p0, e1, z);
    AddLaws(f, z, e1, z);
    AddLaws(f, z, e2, z);
    AddLaws(f, z, e3, z);
    AddLaws(f, e1, z, z);
    AddLaws(f, e2, z, z);
    AddLaws(f, e1, p0, z);
    AddLaws(f, e2, f.add(p0, p1), z);
    AddLaws(f, e3, f.add(f.add(p0, p1), p2), z);
    AddLaws(f, e2, z, z);
    AddLaws(f, f.add(p0, p1), z, z);
    AddLaws(f, f.add(f.add(p0, p1), p2), z, z);
    AddLaws(f, f.add(p0, p1), e2, z);
    AddLaws(f, p0, z, z);
  }

  /** A power of two and a smaller number have no bit in common. */
  lemma HighBit(j: nat, k: nat)
    requires (j == 2 || j == 4 || j == 8) && k < j
    ensures NibbleBit(j, 0) == false && NibbleBit(j, 1) == (j == 2) && NibbleBit(j, 2) == (j == 4) && NibbleBit(j, 3) == (j == 8)
    ensures NibbleBit(j + k, 0) == NibbleBit(k, 0) && NibbleBit(j + k, 1) == (NibbleBit(k, 1) || j == 2)
    ensures NibbleBit(j + k, 2) == (NibbleBit(k, 2) || j == 4) && NibbleBit(j + k, 3) == (NibbleBit(k, 3) || j == 8)
    ensures (j == 2 ==> !NibbleBit(k, 1)) && (j <= 4 ==> !NibbleBit(k, 2)) && !NibbleBit(k, 3)
  {
  }

  lemma ChooseOne<E(!new)>(f: Field<E>, e0: E, e1: E, e2: E, e3: E)
    requires Laws(f)
    ensures Choose(f, e0, e1, e2, e3, 0) == f.zero && Choose(f, e0, e1, e2, e3, 1) == e0
    ensures Choose(f, e0, e1, e2, e3, 2) == e1 && Choose(f, e0, e1, e2, e3, 4) == e2 && Choose(f, e0, e1, e2, e3, 8) == e3
  {
    hide Laws;
    AddLaws(f, f.zero, f.zero, f.zero);
    AddLaws(f, f.zero, e1, f.zero);
    AddLaws(f, f.zero, e2, f.zero);
    AddLaws(f, f.zero, e3, f.zero);
    AddLaws(f, e0, f.zero, f.zero);
    AddLaws(f, e1, f.zero, f.zero);
    AddLaws(f, e2, f.zero, f.zero);
    AddLaws(f, e3, f.zero, f.zero);
  }

  /** Lines 504 to 517: the sums of the powers. */
  method FillRow<E(!new)>(f: Field<E>, t: array2<E>, am: E, i: nat)
    requires Laws(f) && i < t.Length0 && t.Length1 == 16 && RowPowers(f, t, am, i)
    modifies t
    ensures RowDone(f, t, am, i) && RowPowers(f, t, am, i)
    ensures forall k, j :: 0 <= k < t.Length0 && 0 <= j < 16 && k != i ==> t[k, j] == old(t[k, j])
  {
    hide Laws, PowerM, Choose;
    var e := RowBase(i);
    ChooseOne(f, PowerM(f, am, e + 3), PowerM(f, am, e + 2), PowerM(f, am, e + 1), PowerM(f, am, e));
    var j := 2;
    while j < 16
      invariant j == 2 || j == 4 || j == 8 || j == 16
      invariant RowPowers(f, t, am, i)
      invariant forall n :: 0 <= n < j ==> t[i, n] == RowEntry(f, am, i, n)
      invariant forall k, j :: 0 <= k < t.Length0 && 0 <= j < 16 && k != i ==> t[k, j] == old(t[k, j])
      decreases 16 - j
    {
      for k := 1 to j
        invariant RowPowers(f, t, am, i)
        invariant forall n :: 0 <= n < j ==> t[i, n] == RowEntry(f, am, i, n)
        invariant forall n :: j <= n < j + k ==> t[i, n] == RowEntry(f, am, i, n)
        invariant forall k, j :: 0 <= k < t.Length0 && 0 <= j < 16 && k != i ==> t[k, j] == old(t[k, j])
      {
        ChooseStep(f, PowerM(f, am, e + 3), PowerM(f, am, e + 2), PowerM(f, am, e + 1), PowerM(f, am, e), j, k);
        t[i, j + k] := f.add(t[i, j], t[i, k]);
      }
      j := j + j;
    }
  }

  /** compile_8k_table (32 rows) and compile_4k_table64 (16 rows) */
  method CompileTable<E(!new)>(f: Field<E>, am: E, t: array2<E>)
    requires Laws(f) && t.Length0 >= 2 && t.Length1 == 16
    modifies t
    ensures forall i :: 0 <= i < t.Length0 ==> RowDone(f, t, am, i)
  {
    hide Laws, PowerM, Choose, RowEntry;
    forall i, j | 0 <= i < t.Length0 && 0 <= j < 16 { t[i, j] := f.zero; }
    var i := 0;
    while i < t.Length0
      invariant 0 <= i <= t.Length0
      invariant forall k :: 0 <= k < i ==> RowDone(f, t, am, k) && RowPowers(f, t, am, k)
      invariant i == 1 ==> RowPowers(f, t, am, 1)
      invariant forall k :: i <= k < t.Length0 ==> t[k, 0] == f.zero
    {
      if i == 0 {
        FirstRows(f, t, am);
      } else if i > 1 {
        label Later:
        LaterRow(f, t, am, i);
        forall k | 0 <= k < i
          ensures RowDone(f, t, am, k) && RowPowers(f, t, am, k)
        {
          assert old@Later(RowDone(f, t, am, k) && RowPowers(f, t, am, k));
        }
      }
      label Filling:
      FillRow(f, t, am, i);
      forall k | 0 <= k < i
        ensures RowDone(f, t, am, k) && RowPowers(f, t, am, k)
      {
        assert old@Filling(RowDone(f, t, am, k) && RowPowers(f, t, am, k));
      }
      i := i + 1;
    }
  }
}
