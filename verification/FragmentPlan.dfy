// How EncryptionThreadPoolDoWork cuts a buffer of data units into fragments.
module FragmentPlan {
  import opened Words

  /** Units that fit below 2^32 bytes: the byte step `unitsPerFragment * 512` is a 32-bit product. */
  const POINTER_STEP_UNITS: nat := 0x80_0000

  function Count(units: nat, threads: nat): nat {
    if units <= threads then units else threads
  }

  /** Length of fragment `k`: the first `units % threads` fragments take one unit more. */
  function Len(units: nat, threads: nat, k: nat): nat
    requires threads > 0
  {
    if units <= threads then 1
    else units / threads + (if k < units % threads then 1 else 0)
  }

  /** First unit of fragment `k`. */
  function Off(units: nat, threads: nat, k: nat): nat
    requires threads > 0
  {
    if k == 0 then 0 else Off(units, threads, k - 1) + Len(units, threads, k - 1)
  }

  lemma {:induction false} OffClosed(units: nat, threads: nat, k: nat)
    requires threads > 0 && units > threads
    ensures Off(units, threads, k) == k * (units / threads) + (if k < units % threads then k else units % threads)
  {
    if k > 0 {
      OffClosed(units, threads, k - 1);
      assert k * (units / threads) == (k - 1) * (units / threads) + units / threads;
    }
  }

  lemma {:induction false} OffSmall(units: nat, threads: nat, k: nat)
    requires threads > 0 && units <= threads
    ensures Off(units, threads, k) == k
  {
    if k > 0 {
      OffSmall(units, threads, k - 1);
    }
  }

  /** The fragments end exactly where the buffer ends. */
  lemma OffTotal(units: nat, threads: nat)
    requires threads > 0
    ensures Off(units, threads, Count(units, threads)) == units
  {
    if units <= threads {
      OffSmall(units, threads, units);
    } else {
      OffClosed(units, threads, threads);
      assert units == threads * (units / threads) + units % threads;
    }
  }

  lemma {:induction false} OffMonotone(units: nat, threads: nat, j: nat, k: nat)
    requires threads > 0 && j <= k
    ensures Off(units, threads, j) <= Off(units, threads, k)
    ensures j < k ==> Off(units, threads, j) + Len(units, threads, j) <= Off(units, threads, k)
    decreases k - j
  {
    if j < k {
      OffMonotone(units, threads, j + 1, k);
    }
  }

  lemma FragmentFits(units: nat, threads: nat, k: nat)
    requires threads > 0 && k < Count(units, threads)
    ensures Off(units, threads, k) + Len(units, threads, k) <= units
  {
    OffTotal(units, threads);
    OffMonotone(units, threads, k, Count(units, threads));
  }

  /** Every unit lies in exactly one fragment: this returns the fragment that holds `u`. */
  lemma {:induction false} FragmentOf(units: nat, threads: nat, u: nat, k: nat) returns (f: nat)
    requires threads > 0 && u < Off(units, threads, k)
    ensures f < k && Off(units, threads, f) <= u < Off(units, threads, f) + Len(units, threads, f)
  {
    if Off(units, threads, k - 1) <= u {
      f := k - 1;
    } else {
      f := FragmentOf(units, threads, u, k - 1);
    }
  }

  /** Where the code's data pointer stands at fragment `k`: each step is taken modulo 2^32 bytes. */
  function CodeOff(units: nat, threads: nat, k: nat): nat
    requires threads > 0
  {
    if k == 0 then 0 else CodeOff(units, threads, k - 1) + Len(units, threads, k - 1) % POINTER_STEP_UNITS
  }

  lemma {:induction false} CodeOffSame(units: nat, threads: nat, k: nat)
    requires threads > 0 && Len(units, threads, 0) < POINTER_STEP_UNITS
    ensures CodeOff(units, threads, k) == Off(units, threads, k)
  {
    if k > 0 {
      CodeOffSame(units, threads, k - 1);
    }
  }

  /** The code's pointer is where each fragment starts if and only if the largest fragment is
      shorter than 2^32 bytes. */
  lemma PointerExactWhen(units: nat, threads: nat)
    requires threads >= 2 && units >= 2
    ensures (forall k :: 0 <= k < Count(units, threads) ==> CodeOff(units, threads, k) == Off(units, threads, k))
      <==> Len(units, threads, 0) < POINTER_STEP_UNITS
  {
    if Len(units, threads, 0) < POINTER_STEP_UNITS {
      forall k | 0 <= k < Count(units, threads)
        ensures CodeOff(units, threads, k) == Off(units, threads, k)
      {
        CodeOffSame(units, threads, k);
      }
    } else {
      assert CodeOff(units, threads, 1) == CodeOff(units, threads, 0) + Len(units, threads, 0) % POINTER_STEP_UNITS;
      assert Off(units, threads, 1) == Off(units, threads, 0) + Len(units, threads, 0);
    }
  }

  /** Two threads and 2^33 bytes: the step is 0, and the second fragment is taken from the start of the buffer. */
  lemma PointerStandsStill()
    ensures Len(0x100_0000, 2, 0) == POINTER_STEP_UNITS
    ensures Off(0x100_0000, 2, 1) == 0x80_0000 && CodeOff(0x100_0000, 2, 1) == 0
  {
    assert Off(0x100_0000, 2, 0) == 0 && CodeOff(0x100_0000, 2, 0) == 0;
  }
}
