/**
 * Index arithmetic of the viewer's previous/next controls: both wrap around
 * the ends of the album rather than stopping there.
 */
module Navigation {

  /**
   * JavaScript's `%` on whole numbers: the remainder truncates toward zero, so
   * it takes the sign of the dividend (Dafny's own `%` never goes negative).
   */
  function JsRemainder(a: int, n: int): (r: int)
    requires n > 0
    ensures a >= 0 ==> 0 <= r < n && r == a % n
    ensures a < 0 ==> -n < r <= 0
    ensures a < 0 ==> r == if a % n == 0 then 0 else a % n - n
  {
    NegativeRemainder(a, n);
    if a >= 0 then a % n else -((-a) % n)
  }

  /** Truncated and Euclidean remainders of a negative dividend differ by `n` unless both are 0. */
  lemma NegativeRemainder(a: int, n: int)
    requires n > 0
    ensures a < 0 ==> -((-a) % n) == if a % n == 0 then 0 else a % n - n
  {
    if a < 0 {
      var q, m := (-a) / n, (-a) % n;
      assert -a == q * n + m;
      if m == 0 {
        assert a == (-q) * n + 0;
        ModOfMultiplePlus(-q, n, 0);
      } else {
        assert a == (-q - 1) * n + (n - m);
        ModOfMultiplePlus(-q - 1, n, n - m);
      }
    }
  }

  /** The index `next` moves to in an album of `n` images. */
  function NextIndex(i: int, n: int): (r: int)
    requires 0 <= i < n
    ensures 0 <= r < n
    ensures r == if i == n - 1 then 0 else i + 1
  {
    ModOfSmall(i + 1, n);
    JsRemainder(i + 1, n)
  }

  /** The index `prev` moves to in an album of `n` images. */
  function PrevIndex(i: int, n: int): (r: int)
    requires 0 <= i < n
    ensures 0 <= r < n
    ensures r == if i == 0 then n - 1 else i - 1
  {
    ModOfSmall(i - 1 + n, n);
    JsRemainder(i - 1 + n, n)
  }

  lemma PrevUndoesNext(i: int, n: int)
    requires 0 <= i < n
    ensures PrevIndex(NextIndex(i, n), n) == i
  {
  }

  lemma NextUndoesPrev(i: int, n: int)
    requires 0 <= i < n
    ensures NextIndex(PrevIndex(i, n), n) == i
  {
  }

  /** The index reached from `i` by `k` successive `next` steps. */
  function NextTimes(i: int, n: int, k: nat): (r: int)
    requires 0 <= i < n
    ensures 0 <= r < n
  {
    if k == 0 then i else NextIndex(NextTimes(i, n, k - 1), n)
  }

  /** The index reached from `i` by `k` successive `prev` steps. */
  function PrevTimes(i: int, n: int, k: nat): (r: int)
    requires 0 <= i < n
    ensures 0 <= r < n
  {
    if k == 0 then i else PrevIndex(PrevTimes(i, n, k - 1), n)
  }

  lemma MulAtLeast(x: int, n: int)
    requires x >= 1 && n > 0
    ensures x * n >= n
  {
  }

  /** Division by `n` recovers the quotient and remainder `a` was built from. */
  lemma ModOfMultiplePlus(q: int, n: int, r: int)
    requires n > 0 && 0 <= r < n
    ensures (q * n + r) % n == r
    ensures (q * n + r) / n == q
  {
    var a := q * n + r;
    var q', r' := a / n, a % n;
    assert a == q' * n + r';
    if q' < q {
      MulAtLeast(q - q', n);
      assert false;
    } else if q' > q {
      MulAtLeast(q' - q, n);
      assert false;
    }
  }

  /** The remainder of a dividend below `2 * n`: at most one `n` comes off. */
  lemma ModOfSmall(a: int, n: int)
    requires n > 0 && 0 <= a < 2 * n
    ensures a % n == if a < n then a else a - n
  {
    if a < n {
      ModOfMultiplePlus(0, n, a);
    } else {
      ModOfMultiplePlus(1, n, a - n);
    }
  }

  /** One `next` step from `a mod n` lands on `(a + 1) mod n`. */
  lemma NextOfMod(a: int, n: int)
    requires n > 0
    ensures NextIndex(a % n, n) == (a + 1) % n
  {
    var q, x := a / n, a % n;
    assert a == q * n + x;
    if x == n - 1 {
      assert (q + 1) * n == q * n + n;
      ModOfMultiplePlus(q + 1, n, 0);
    } else {
      ModOfMultiplePlus(q, n, x + 1);
    }
  }

  /** One `prev` step from `a mod n` lands on `(a - 1) mod n`. */
  lemma PrevOfMod(a: int, n: int)
    requires n > 0
    ensures PrevIndex(a % n, n) == (a - 1) % n
  {
    var q, x := a / n, a % n;
    assert a == q * n + x;
    if x == 0 {
      assert (q - 1) * n == q * n - n;
      ModOfMultiplePlus(q - 1, n, n - 1);
    } else {
      ModOfMultiplePlus(q, n, x - 1);
    }
  }

  /** `k` steps forward land on `(i + k) mod n`. */
  lemma {:induction false} NextTimesShift(i: int, n: int, k: nat)
    requires 0 <= i < n
    ensures NextTimes(i, n, k) == (i + k) % n
  {
    if k == 0 {
      ModOfMultiplePlus(0, n, i);
    } else {
      NextTimesShift(i, n, k - 1);
      NextOfMod(i + k - 1, n);
    }
  }

  /** `k` steps back land on `(i - k) mod n`, the non-negative remainder. */
  lemma {:induction false} PrevTimesShift(i: int, n: int, k: nat)
    requires 0 <= i < n
    ensures PrevTimes(i, n, k) == (i - k) % n
  {
    if k == 0 {
      ModOfMultiplePlus(0, n, i);
    } else {
      PrevTimesShift(i, n, k - 1);
      PrevOfMod(i - k + 1, n);
    }
  }

  /** Pressing `next` once per image brings the viewer back to where it started. */
  lemma NextFullCycle(i: int, n: int)
    requires 0 <= i < n
    ensures NextTimes(i, n, n) == i
  {
    NextTimesShift(i, n, n);
    ModOfMultiplePlus(1, n, i);
  }

  /** Pressing `prev` once per image brings the viewer back to where it started. */
  lemma PrevFullCycle(i: int, n: int)
    requires 0 <= i < n
    ensures PrevTimes(i, n, n) == i
  {
    PrevTimesShift(i, n, n);
    ModOfMultiplePlus(-1, n, i);
  }

  /** Taking `k` back off `(i + k) mod n` leaves `i`, for `i` already in range. */
  lemma ModCancel(i: int, k: int, n: int)
    requires 0 <= i < n
    ensures ((i + k) % n - k) % n == i
  {
    var q, j := (i + k) / n, (i + k) % n;
    assert i + k == q * n + j;
    assert j - k == (-q) * n + i;
    ModOfMultiplePlus(-q, n, i);
  }

  /** `k` steps back undo `k` steps forward. */
  lemma PrevTimesUndoesNextTimes(i: int, n: int, k: nat)
    requires 0 <= i < n
    ensures PrevTimes(NextTimes(i, n, k), n, k) == i
  {
    NextTimesShift(i, n, k);
    PrevTimesShift(NextTimes(i, n, k), n, k);
    ModCancel(i, k, n);
  }
}
