/** Facts about remainders: slots of a ring, and turns of a round. */
module Modular {

  lemma Multiples(d: int, n: int)
    requires n > 0
    ensures d == 0 || d * n >= n || d * n <= -n
  {
    if d >= 1 {
      assert d * n == (d - 1) * n + n;
    } else if d <= -1 {
      assert d * n == (d + 1) * n - n;
    }
  }

  lemma ModUnique(x: int, q: int, r: int, n: nat)
    requires n > 0 && x == q * n + r && 0 <= r < n
    ensures x % n == r
  {
    DivModUnique(x, q, r, n);
  }

  lemma DivModUnique(x: int, q: int, r: int, n: nat)
    requires n > 0 && x == q * n + r && 0 <= r < n
    ensures x / n == q && x % n == r
  {
    var d := x / n - q;
    assert x == (x / n) * n + x % n;
    assert d * n == (x / n) * n - q * n;
    Multiples(d, n);
  }

  // Two values less than a lap apart lie in different slots.
  lemma SlotsDistinct(i: nat, j: nat, n: nat)
    requires n > 0 && i < j < i + n
    ensures i % n != j % n
  {
    var d := j / n - i / n;
    assert i == (i / n) * n + i % n && j == (j / n) * n + j % n;
    assert d * n == (j / n) * n - (i / n) * n;
    Multiples(d, n);
  }

  // Incrementing and then reducing an index reaches the next slot.
  lemma NextSlot(i: nat, n: nat)
    requires n > 0
    ensures (i % n + 1) % n == (i + 1) % n
  {
    var q, r := i / n, i % n;
    assert i == q * n + r;
    if r + 1 == n {
      assert i + 1 == (q + 1) * n + 0;
      ModUnique(i + 1, q + 1, 0, n);
      ModUnique(n, 1, 0, n);
    } else {
      ModUnique(i + 1, q, r + 1, n);
      ModUnique(r + 1, 0, r + 1, n);
    }
  }

  lemma ShiftSlot(i: nat, k: nat, n: nat)
    requires n > 0
    ensures (i % n + k) % n == (i + k) % n
  {
    var r := i % n + k;
    assert i == (i / n) * n + i % n && r == (r / n) * n + r % n;
    assert i + k == (i / n + r / n) * n + r % n;
    ModUnique(i + k, i / n + r / n, r % n, n);
  }

  // What one more step of a round does to the number of whole rounds and to the position in it.
  lemma RoundStep(k: nat, n: nat)
    requires n > 0
    ensures if k % n + 1 == n then (k + 1) / n == k / n + 1 && (k + 1) % n == 0
            else (k + 1) / n == k / n && (k + 1) % n == k % n + 1
  {
    var q, r := k / n, k % n;
    assert k == q * n + r;
    if r + 1 == n {
      assert k + 1 == (q + 1) * n + 0;
      DivModUnique(k + 1, q + 1, 0, n);
    } else {
      DivModUnique(k + 1, q, r + 1, n);
    }
  }
}
