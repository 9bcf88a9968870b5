/**
  Counting over the threads of a program.

  A machine with any number of threads keeps one control state per thread in a sequence, and
  its invariants say how many threads stand in which states. `Total` adds up a weight over that
  sequence, `Bag` unions the values the threads carry; the lemmas say what one thread's move
  does to either.
*/
module Tally {

  datatype Option<+T> = None | Some(value: T)

  lemma Pick<A>(s: set<A>) returns (x: A)
    requires s != {}
    ensures x in s
  {
    x :| x in s;
  }

  function Total<A>(s: seq<A>, w: A -> nat): (n: nat)
  {
    if s == [] then 0 else Total(s[..|s| - 1], w) + w(s[|s| - 1])
  }

  // Moving element i to x changes the total by the difference of the two weights.
  lemma {:induction false} TotalUpdate<A>(s: seq<A>, i: nat, x: A, w: A -> nat)
    requires i < |s|
    ensures Total(s[i := x], w) == Total(s, w) - w(s[i]) + w(x)
  {
    var n := |s| - 1;
    if i == n {
      assert s[i := x][..n] == s[..n];
    } else {
      assert s[i := x][..n] == s[..n][i := x];
      TotalUpdate(s[..n], i, x, w);
    }
  }

  lemma {:induction false} TotalAtLeast<A>(s: seq<A>, i: nat, w: A -> nat)
    requires i < |s|
    ensures w(s[i]) <= Total(s, w)
  {
    var n := |s| - 1;
    if i < n {
      TotalAtLeast(s[..n], i, w);
    }
  }

  // Two threads are counted separately.
  lemma {:induction false} TotalAtLeastTwo<A>(s: seq<A>, i: nat, j: nat, w: A -> nat)
    requires i < j < |s|
    ensures w(s[i]) + w(s[j]) <= Total(s, w)
  {
    var n := |s| - 1;
    if j < n {
      TotalAtLeastTwo(s[..n], i, j, w);
    } else {
      TotalAtLeast(s[..n], i, w);
    }
  }

  lemma {:induction false} TotalZero<A>(s: seq<A>, w: A -> nat)
    requires forall i | 0 <= i < |s| :: w(s[i]) == 0
    ensures Total(s, w) == 0
  {
    if s != [] {
      TotalZero(s[..|s| - 1], w);
    }
  }

  // A positive total has a witness.
  lemma {:induction false} TotalWitness<A>(s: seq<A>, w: A -> nat) returns (i: nat)
    requires Total(s, w) > 0
    ensures i < |s| && w(s[i]) > 0
  {
    var n := |s| - 1;
    if w(s[n]) > 0 {
      i := n;
    } else {
      i := TotalWitness(s[..n], w);
    }
  }

  // Element by element: what never decreases does not decrease in total ...
  lemma {:induction false} TotalMonotone<A>(s: seq<A>, t: seq<A>, v: A -> nat, w: A -> nat)
    requires |s| == |t| && forall i | 0 <= i < |s| :: v(s[i]) <= w(t[i])
    ensures Total(s, v) <= Total(t, w)
  {
    if s != [] {
      TotalMonotone(s[..|s| - 1], t[..|t| - 1], v, w);
    }
  }

  // ... and increases if one element does.
  lemma {:induction false} TotalIncreases<A>(s: seq<A>, t: seq<A>, w: A -> nat, k: nat)
    requires |s| == |t| && forall i | 0 <= i < |s| :: w(s[i]) <= w(t[i])
    requires k < |s| && w(s[k]) < w(t[k])
    ensures Total(s, w) < Total(t, w)
  {
    var n := |s| - 1;
    if k == n {
      TotalMonotone(s[..n], t[..n], w, w);
    } else {
      TotalIncreases(s[..n], t[..n], w, k);
    }
  }

  function One<B>(o: Option<B>): multiset<B>
  {
    if o.Some? then multiset{o.value} else multiset{}
  }

  // The values the elements of s carry, each at most one.
  function Bag<A, B>(s: seq<A>, f: A -> Option<B>): multiset<B>
  {
    if s == [] then multiset{} else Bag(s[..|s| - 1], f) + One(f(s[|s| - 1]))
  }

  lemma AddToBoth<B>(a: multiset<B>, x: multiset<B>, b: multiset<B>, y: multiset<B>, z: multiset<B>)
    requires a + x == b + y
    ensures (a + z) + x == (b + z) + y
  {
    assert (a + z) + x == (a + x) + z;
    assert (b + z) + y == (b + y) + z;
  }

  lemma Swap<B>(a: multiset<B>, x: multiset<B>, y: multiset<B>)
    ensures (a + x) + y == (a + y) + x
  {
  }

  lemma {:induction false} BagUpdate<A, B>(s: seq<A>, i: nat, x: A, f: A -> Option<B>)
    requires i < |s|
    ensures Bag(s[i := x], f) + One(f(s[i])) == Bag(s, f) + One(f(x))
  {
    var n := |s| - 1;
    var r, u := s[..n], s[i := x];
    if i == n {
      assert u[..n] == r;
      Swap(Bag(r, f), One(f(x)), One(f(s[i])));
    } else {
      assert u[..n] == r[i := x] && r[i] == s[i] && u[n] == s[n];
      BagUpdate(r, i, x, f);
      AddToBoth(Bag(r[i := x], f), One(f(s[i])), Bag(r, f), One(f(x)), One(f(s[n])));
    }
  }

  lemma BagSame<A, B>(s: seq<A>, i: nat, x: A, f: A -> Option<B>)
    requires i < |s| && f(x) == f(s[i])
    ensures Bag(s[i := x], f) == Bag(s, f)
  {
    BagUpdate(s, i, x, f);
    Cancel(Bag(s[i := x], f), Bag(s, f), One(f(x)));
  }

  lemma Cancel<B>(a: multiset<B>, b: multiset<B>, x: multiset<B>)
    requires a + x == b + x
    ensures a == b
  {
    assert (a + x) - x == a && (b + x) - x == b;
  }

  lemma BagGain<A, B>(s: seq<A>, i: nat, x: A, f: A -> Option<B>)
    requires i < |s| && f(s[i]) == None && f(x).Some?
    ensures Bag(s[i := x], f) == Bag(s, f) + multiset{f(x).value}
  {
    BagUpdate(s, i, x, f);
    Cancel(Bag(s[i := x], f), Bag(s, f) + multiset{f(x).value}, multiset{});
  }

  lemma BagLose<A, B>(s: seq<A>, i: nat, x: A, f: A -> Option<B>)
    requires i < |s| && f(s[i]).Some? && f(x) == None
    ensures Bag(s[i := x], f) + multiset{f(s[i]).value} == Bag(s, f)
  {
    BagUpdate(s, i, x, f);
    Cancel(Bag(s[i := x], f) + multiset{f(s[i]).value}, Bag(s, f), multiset{});
  }

  lemma {:induction false} BagEmpty<A, B>(s: seq<A>, f: A -> Option<B>)
    requires forall i | 0 <= i < |s| :: f(s[i]) == None
    ensures Bag(s, f) == multiset{}
  {
    if s != [] {
      BagEmpty(s[..|s| - 1], f);
    }
  }

  lemma {:induction false} BagPointwise<A, B>(s: seq<A>, t: seq<A>, f: A -> Option<B>)
    requires |s| == |t| && forall i | 0 <= i < |s| :: f(s[i]) == f(t[i])
    ensures Bag(s, f) == Bag(t, f)
  {
    if s != [] {
      BagPointwise(s[..|s| - 1], t[..|t| - 1], f);
    }
  }

  // A value moves from the carried ones to the end of a list.
  lemma Handled<B>(all: multiset<B>, done: seq<B>, rest: multiset<B>, rest': multiset<B>, x: B)
    requires all == multiset(done) + rest && rest' + multiset{x} == rest
    ensures all == multiset(done + [x]) + rest'
  {
    assert multiset(done + [x]) == multiset(done) + multiset{x};
    assert all == multiset(done) + (rest' + multiset{x});
  }

  // A new value joins a list and the carried ones.
  lemma Joined<B>(done: seq<B>, out: multiset<B>, rest: multiset<B>, rest': multiset<B>, x: B)
    requires multiset(done) == out + rest && rest' == rest + multiset{x}
    ensures multiset(done + [x]) == out + rest'
  {
    assert multiset(done + [x]) == multiset(done) + multiset{x};
  }
}
