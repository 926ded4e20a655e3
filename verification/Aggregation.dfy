/** What the aggregation loop amounts to: the longest prefix of the pending queue that may travel together. */
module Aggregation {
  import opened TxConfig
  import opened Bounce
  import opened TxModel

  /** `n` frames are the batch: as many as meet the criteria, but at least one. */
  ghost predicate IsBatch(c: Config, legacy: bool, q: seq<Frame>, n: nat) {
    && 1 <= n <= |q|
    && (n == 1 || Aggregable(c, legacy, q, n))
    && (forall m | 0 <= m <= |q| && Aggregable(c, legacy, q, m) :: m <= n)
  }

  lemma AggregablePrefix(c: Config, legacy: bool, q: seq<Frame>, m: nat, n: nat)
    requires m <= n <= |q| && Aggregable(c, legacy, q, n)
    ensures Aggregable(c, legacy, q, m)
  {
    assert q[..n][..m] == q[..m];
    PrefixBytes(c, q[..n], m);
  }

  lemma {:induction false} AggLenIs(c: Config, legacy: bool, q: seq<Frame>, m: nat)
    requires m <= |q| && Aggregable(c, legacy, q, m)
    ensures Aggregable(c, legacy, q, AggLen(c, legacy, q, m))
    ensures forall j | 0 <= j <= |q| && Aggregable(c, legacy, q, j) :: j <= AggLen(c, legacy, q, m)
    decreases |q| - m
  {
    if m < |q| && Aggregable(c, legacy, q, m + 1) {
      AggLenIs(c, legacy, q, m + 1);
    } else {
      forall j | 0 <= j <= |q| && Aggregable(c, legacy, q, j) ensures j <= m {
        if j > m { AggregablePrefix(c, legacy, q, m + 1, j); }
      }
    }
  }

  /** The batch length is determined by the criteria. */
  lemma BatchLenIff(c: Config, legacy: bool, q: seq<Frame>, n: nat)
    requires q != []
    ensures BatchLen(c, legacy, q) == n <==> IsBatch(c, legacy, q, n)
  {
    var m := AggLen(c, legacy, q, 0);
    AggLenIs(c, legacy, q, 0);
    var b := BatchLen(c, legacy, q);
    assert IsBatch(c, legacy, q, b);
    if IsBatch(c, legacy, q, n) {
      if n != 1 { assert n <= m; }
      assert m <= n;
    }
  }

  /**
   The first `m` frames leave in the next command exactly when the peer is no legacy peer, they are no
   more than the limit and stay below the budget, and all have the twelve address bytes of the first; a
   single frame always leaves.
   */
  lemma {:induction false} LeavesTogetherIff(c: Config, legacy: bool, q: seq<Frame>, m: nat)
    requires 1 <= m <= |q|
    ensures m <= BatchLen(c, legacy, q) <==>
              || m == 1
              || (&& !legacy && m <= c.maxAgg
                  && BatchBytes(c, q[..m]) < c.tokenLen - 6 * c.maxAgg
                  && forall i | 0 <= i < m :: q[i].data[0..12] == q[0].data[0..12])
  {
    var n := BatchLen(c, legacy, q);
    BatchLenIff(c, legacy, q, n);
    AggregableIff(c, legacy, q, m);
    if 1 < m <= n { AggregablePrefix(c, legacy, q, m, n); }
  }

  lemma {:induction false} AggregableIff(c: Config, legacy: bool, q: seq<Frame>, m: nat)
    requires 1 <= m <= |q|
    ensures Aggregable(c, legacy, q, m) <==>
              && !legacy && m <= c.maxAgg
              && BatchBytes(c, q[..m]) < c.tokenLen - 6 * c.maxAgg
              && forall i | 0 <= i < m :: q[i].data[0..12] == q[0].data[0..12]
  {
    forall i | 0 <= i < m ensures SameAddrs(q[i], q[0]) <==> q[i].data[0..12] == q[0].data[0..12] {
      AddrBytes(q[i], q[0]);
    }
    if Aggregable(c, legacy, q, m) {
      forall i | 0 <= i < m ensures q[i].data[0..12] == q[0].data[0..12] { assert SameAddrs(q[i], q[0]); }
    }
  }

  /** The bytes of a batch are those of its frames and a headroom for each. */
  lemma {:induction false} BatchBytesIs(c: Config, q: seq<Frame>)
    ensures BatchBytes(c, q) == |q| * c.headroom + DataBytes(q)
  {
    if q != [] {
      var n := |q| - 1;
      BatchBytesIs(c, q[..n]);
      assert (n + 1) * c.headroom == n * c.headroom + c.headroom;
    }
  }

  /** The bytes of some frames. */
  function DataBytes(q: seq<Frame>): nat {
    if q == [] then 0 else DataBytes(q[..|q| - 1]) + |q[|q| - 1].data|
  }

  lemma LegacyAlone(c: Config, q: seq<Frame>)
    requires q != []
    ensures BatchLen(c, true, q) == 1
  {
    BatchLenIff(c, true, q, 1);
  }

  /** What the aggregator takes fits in the region of a token. */
  lemma BatchFits(c: Config, legacy: bool, q: seq<Frame>)
    requires c.Valid() && q != [] && (forall f | f in q :: c.Mappable(f))
    ensures Fits(c, q[..BatchLen(c, legacy, q)])
  {
    BatchLenIff(c, legacy, q, BatchLen(c, legacy, q));
  }

  /** Frames that travel together have the same two addresses. */
  lemma BatchAddrs(c: Config, legacy: bool, q: seq<Frame>, f: Frame)
    requires q != [] && f in q[..BatchLen(c, legacy, q)]
    ensures SameAddrs(f, q[0])
  {
    BatchLenIff(c, legacy, q, BatchLen(c, legacy, q));
  }
}
