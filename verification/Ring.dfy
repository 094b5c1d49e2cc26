/** Positions in an endless sequence, kept in a ring of n slots and counted by counters that wrap. */
module Ring {
  function Slot(k: nat, n: nat): (s: nat)
    requires n > 0
    ensures s < n
  {
    k % n
  }

  /** Quotient and remainder are the only numbers that fit. */
  lemma Divided(k: nat, n: nat, q: nat, r: nat)
    requires r < n && k == q * n + r
    ensures k / n == q && k % n == r
  {
    var p, t := k / n, k % n;
    assert k == p * n + t;
    if p < q {
      Row(p, q, n);
    } else if q < p {
      Row(q, p, n);
    }
  }

  lemma Times(a: nat, b: nat, n: nat)
    requires a <= b
    ensures a * n <= b * n
  {
  }

  lemma Row(a: nat, b: nat, n: nat)
    requires a < b
    ensures a * n + n <= b * n
  {
    Times(a + 1, b, n);
    assert (a + 1) * n == a * n + n;
  }

  lemma NextSlot(k: nat, n: nat)
    requires n > 0
    ensures (k % n + 1) % n == (k + 1) % n && (Slot(k, n) + 1) % n == Slot(k + 1, n)
  {
    var q, r := k / n, k % n;
    assert k == q * n + r;
    if r + 1 < n {
      Divided(k + 1, n, q, r + 1);
    } else {
      assert k + 1 == (q + 1) * n + 0;
      Divided(k + 1, n, q + 1, 0);
      Divided(n, n, 1, 0);
    }
  }

  lemma PreviousSlot(k: nat, n: nat)
    requires k > 0 && n > 0
    ensures (Slot(k, n) + n - 1) % n == Slot(k - 1, n)
  {
    var q, r := (k - 1) / n, (k - 1) % n;
    assert k - 1 == q * n + r;
    if r + 1 < n {
      Divided(k, n, q, r + 1);
      Divided(r + n, n, 1, r);
    } else {
      assert k == (q + 1) * n + 0;
      Divided(k, n, q + 1, 0);
    }
  }

  /** Fewer than n positions in a row have different slots, and a wrapping counter tells them apart. */
  lemma Apart(j: nat, k: nat, n: nat)
    requires j < k < j + n
    ensures j % n != k % n && Slot(j, n) != Slot(k, n)
  {
    var p, q := j / n, k / n;
    assert j == p * n + j % n && k == q * n + k % n;
    if j % n == k % n {
      if p < q {
        Row(p, q, n);
      } else {
        Times(q, p, n);
      }
    }
  }

  /** A counter that wraps at a multiple of n picks the same slot as one that does not. */
  lemma WrapKeepsSlot(k: nat, n: nat, m: nat, w: nat)
    requires n > 0 && m > 0 && w == m * n > 0
    ensures Slot(k % w, n) == Slot(k, n)
  {
    var q, r := k / w, k % w;
    var p, t := r / n, r % n;
    Regroup(q, m, n, p);
    assert k == q * w + r && r == p * n + t;
    Divided(k, n, q * m + p, t);
  }

  lemma Regroup(q: nat, m: nat, n: nat, p: nat)
    ensures q * (m * n) + p * n == (q * m + p) * n
  {
  }
}
