/** Small facts about sequences that the other modules share. */
module Basics {

  type byte = bv8

  datatype Option<+T> = None | Some(value: T)

  lemma TakeNext<T>(s: seq<T>, i: nat)
    requires i < |s|
    ensures s[..i + 1] == s[..i] + [s[i]]
  {
  }

  /** `q` without every element that is `x`. */
  function Without<T(==, !new)>(q: seq<T>, x: T): (r: seq<T>)
    ensures forall y :: y in r <==> y in q && y != x
    ensures forall i | 0 <= i < |r| :: r[i] in q
  {
    if q == [] then []
    else if q[0] == x then Without(q[1..], x)
    else [q[0]] + Without(q[1..], x)
  }

  /** Everything held by a sequence of queues, with multiplicity. */
  function Gather<T>(queues: seq<seq<T>>): multiset<T> {
    if queues == [] then multiset{} else multiset(queues[0]) + Gather(queues[1..])
  }

  lemma {:induction false} GatherUpdate<T>(queues: seq<seq<T>>, i: nat, q: seq<T>)
    requires i < |queues|
    ensures Gather(queues[i := q]) + multiset(queues[i]) == Gather(queues) + multiset(q)
  {
    if i == 0 {
      assert queues[i := q][1..] == queues[1..];
    } else {
      var after := queues[i := q];
      assert after[1..] == queues[1..][i - 1 := q] && after[0] == queues[0];
      GatherUpdate(queues[1..], i - 1, q);
      assert queues[1..][i - 1] == queues[i];
      var head, rest, rest' := multiset(queues[0]), Gather(queues[1..]), Gather(after[1..]);
      assert head + rest' + multiset(queues[i]) == head + (rest' + multiset(queues[i]));
      assert head + (rest + multiset(q)) == head + rest + multiset(q);
    }
  }

  /** The number of elements held by a sequence of queues. */
  function Load<T>(queues: seq<seq<T>>): nat {
    if queues == [] then 0 else |queues[0]| + Load(queues[1..])
  }

  lemma {:induction false} LoadUpdate<T>(queues: seq<seq<T>>, i: nat, q: seq<T>)
    requires i < |queues|
    ensures Load(queues[i := q]) + |queues[i]| == Load(queues) + |q|
  {
    if i == 0 {
      assert queues[i := q][1..] == queues[1..];
    } else {
      assert queues[i := q][1..] == queues[1..][i - 1 := q];
      LoadUpdate(queues[1..], i - 1, q);
    }
  }

  lemma {:induction false} AllEmpty<T>(queues: seq<seq<T>>)
    requires forall i :: 0 <= i < |queues| ==> queues[i] == []
    ensures Gather(queues) == multiset{} && Load(queues) == 0
  {
    if queues != [] {
      assert queues[0] == [];
      AllEmpty(queues[1..]);
    }
  }

  lemma SplitMultiset<T>(q: seq<T>, n: nat)
    requires n <= |q|
    ensures multiset(q) == multiset(q[..n]) + multiset(q[n..])
  {
    assert q == q[..n] + q[n..];
  }

  /** A set of naturals below `n` has at most `n` elements. */
  lemma {:induction false} BoundedCard(s: set<nat>, n: nat)
    requires forall x | x in s :: x < n
    ensures |s| <= n
  {
    if n == 0 {
      assert s == {};
    } else {
      BoundedCard(s - {n - 1}, n - 1);
    }
  }

  lemma Cancel<T>(a: multiset<T>, b: multiset<T>, c: multiset<T>, d: multiset<T>)
    requires a + c == b + (c + d)
    ensures a == b + d
  {
    forall x ensures a[x] == (b + d)[x] {
      assert (a + c)[x] == a[x] + c[x];
      assert (b + (c + d))[x] == b[x] + c[x] + d[x];
    }
  }

  /** The elements of a queue of `queues` grow by `x`. */
  lemma GatherAdd<T>(queues: seq<seq<T>>, i: nat, q: seq<T>, x: T)
    requires i < |queues| && multiset(q) == multiset(queues[i]) + multiset{x}
    ensures Gather(queues[i := q]) == Gather(queues) + multiset{x}
  {
    GatherUpdate(queues, i, q);
    Cancel(Gather(queues[i := q]), Gather(queues), multiset(queues[i]), multiset{x});
  }

  /** The first `n` elements leave a queue of `queues`. */
  lemma {:induction false} GatherDrop<T>(queues: seq<seq<T>>, i: nat, n: nat)
    requires i < |queues| && n <= |queues[i]|
    ensures Gather(queues) == Gather(queues[i := queues[i][n..]]) + multiset(queues[i][..n])
  {
    var rest := queues[i][n..];
    GatherUpdate(queues, i, rest);
    SplitMultiset(queues[i], n);
    var a, b := Gather(queues), Gather(queues[i := rest]);
    assert multiset(queues[i]) == multiset(rest) + multiset(queues[i][..n]);
    Cancel(a, b, multiset(rest), multiset(queues[i][..n]));
  }

  /** An empty queue of `queues` is filled. */
  lemma GatherFill<T>(queues: seq<seq<T>>, i: nat, q: seq<T>)
    requires i < |queues| && queues[i] == []
    ensures Gather(queues[i := q]) == Gather(queues) + multiset(q)
  {
    GatherUpdate(queues, i, q);
  }

  lemma GatherEmpty<T>(queues: seq<seq<T>>, i: nat)
    requires i < |queues|
    ensures Gather(queues) == Gather(queues[i := []]) + multiset(queues[i])
  {
    GatherUpdate(queues, i, []);
  }
}
