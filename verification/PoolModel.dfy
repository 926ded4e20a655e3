/**
 The pool of TX descriptors ("tokens") as a mathematical object.  The first `Reserved()` tokens
 belong to the access category equal to their number modulo AC_MAX; the rest are spares, whose
 current owner is a set bit in a packed map of nibbles.
 */
module PoolModel {
  import opened Basics
  import opened TxConfig

  /** `busy`: set bits of buf_pool_bmp_p; `spare`: set bits of spare_desc_queue_map; `out`: outstanding_descs. */
  datatype Pool = Pool(busy: set<nat>, spare: set<nat>, out: seq<nat>)

  const SPARE_Q_MAP_SIZE: nat := 4

  function Inc(x: nat): nat { if x == UINT_MAX then 0 else x + 1 }
  function Dec(x: nat): nat { if x == 0 then UINT_MAX else x - 1 }

  ghost predicate Shaped(c: Config, p: Pool) {
    && c.Valid()
    && |p.out| == AC_MAX
    && (forall d | d in p.busy :: d < c.numTokens)
  }

  /** The position in the map of the bit that gives spare `d` to queue `q`. */
  function SpareBit(c: Config, d: nat, q: nat): nat
    requires 0 < c.Reserved()
  {
    d % c.Reserved() * SPARE_Q_MAP_SIZE + q
  }

  // -------------------------------------------------------------- operations

  /** The reserved tokens of queue `q`, numbered. */
  function Nth(q: nat, cnt: nat): nat { q + AC_MAX * cnt }

  /** The first free reserved token of `q`, counting from the `cnt`-th one. */
  function FreeReserved(c: Config, busy: set<nat>, q: nat, cnt: nat): Option<nat>
    decreases c.PerAc() - cnt
  {
    if cnt >= c.PerAc() then None
    else if Nth(q, cnt) !in busy then Some(Nth(q, cnt))
    else FreeReserved(c, busy, q, cnt + 1)
  }

  function FreeSpare(c: Config, busy: set<nat>, d: nat): Option<nat>
    decreases c.numTokens - d
  {
    if d >= c.numTokens then None
    else if d !in busy then Some(d)
    else FreeSpare(c, busy, d + 1)
  }

  function FindFree(c: Config, busy: set<nat>, q: nat): Option<nat> {
    match FreeReserved(c, busy, q, 0)
    case Some(d) => Some(d)
    case None => FreeSpare(c, busy, c.Reserved())
  }

  /** Hand token `d` to queue `q`. */
  function Assign(c: Config, p: Pool, q: nat, d: nat): Pool
    requires 0 < c.Reserved() && q < |p.out|
  {
    Pool(p.busy + {d},
         if d >= c.Reserved() then p.spare + {SpareBit(c, d, q)} else p.spare,
         p.out[q := Inc(p.out[q])])
  }

  function Release(c: Config, p: Pool, d: nat, q: nat): Pool
    requires 0 < c.Reserved() && q < |p.out|
  {
    if d !in p.busy then p
    else Pool(p.busy - {d},
              if d >= c.Reserved() then p.spare - {SpareBit(c, d, q)} else p.spare,
              p.out[q := Dec(p.out[q])])
  }

  /** The queue that TX-done works out for a token. */
  function Owner(c: Config, p: Pool, d: nat): (q: nat)
    requires 0 < c.Reserved()
    ensures q < AC_MAX
    ensures d >= c.Reserved() ==> q < AC_MC
  {
    if d < c.Reserved() then d % AC_MAX
    else if SpareBit(c, d, AC_BK) in p.spare then AC_BK
    else if SpareBit(c, d, AC_BE) in p.spare then AC_BE
    else if SpareBit(c, d, AC_VI) in p.spare then AC_VI
    else if SpareBit(c, d, AC_VO) in p.spare then AC_VO
    else AC_BK
  }

  /** TX-done found work for the token in `to`: a spare changes hands. */
  function Reown(c: Config, p: Pool, d: nat, from: nat, to: nat): Pool
    requires 0 < c.Reserved() && from < |p.out| && to < |p.out|
  {
    if from == to then p
    else
      var out := p.out[from := Dec(p.out[from])];
      Pool(p.busy,
           p.spare - {SpareBit(c, d, from)} + {SpareBit(c, d, to)},
           out[to := Inc(out[to])])
  }

  // -------------------------------------------------------------- allocation

  lemma {:induction false} FreeReservedIs(c: Config, busy: set<nat>, q: nat, cnt: nat)
    requires q < AC_MAX
    ensures match FreeReserved(c, busy, q, cnt)
      case Some(d) => d < c.Reserved() && d % AC_MAX == q && d !in busy
                   && (forall i | cnt <= i && Nth(q, i) < d :: Nth(q, i) in busy)
      case None => forall i | cnt <= i < c.PerAc() :: Nth(q, i) in busy
    decreases c.PerAc() - cnt
  {
    if cnt < c.PerAc() && Nth(q, cnt) in busy {
      FreeReservedIs(c, busy, q, cnt + 1);
    }
  }

  lemma {:induction false} FreeSpareIs(c: Config, busy: set<nat>, d: nat)
    ensures match FreeSpare(c, busy, d)
      case Some(e) => d <= e < c.numTokens && e !in busy && (forall i | d <= i < e :: i in busy)
      case None => forall i | d <= i < c.numTokens :: i in busy
    decreases c.numTokens - d
  {
    if d < c.numTokens && d in busy {
      FreeSpareIs(c, busy, d + 1);
    }
  }

  /**
   The allocation order: the lowest free reserved token of the queue; failing that the lowest free
   spare; and nothing only when all of these are in use.
   */
  lemma FindFreeIs(c: Config, busy: set<nat>, q: nat)
    requires q < AC_MAX && c.Valid()
    ensures match FindFree(c, busy, q)
      case Some(d) => d < c.numTokens && d !in busy
                   && (d < c.Reserved() ==> d % AC_MAX == q && (forall e: nat | e < d && e % AC_MAX == q :: e in busy))
                   && (d >= c.Reserved() ==> ReservedBusy(c, busy, q) && (forall e: nat | c.Reserved() <= e < d :: e in busy))
      case None => ReservedBusy(c, busy, q) && (forall e: nat | c.Reserved() <= e < c.numTokens :: e in busy)
  {
    FreeReservedIs(c, busy, q, 0);
    FreeSpareIs(c, busy, c.Reserved());
    TokenSplit(c);
    match FreeReserved(c, busy, q, 0)
    case Some(d) =>
      forall e: nat | e < d && e % AC_MAX == q ensures e in busy {
        assert Nth(q, e / AC_MAX) == e;
      }
    case None =>
      forall e: nat | e < c.Reserved() && e % AC_MAX == q ensures e in busy {
        assert Nth(q, e / AC_MAX) == e;
      }
  }

  ghost predicate ReservedBusy(c: Config, busy: set<nat>, q: nat) {
    forall e: nat | e < c.Reserved() && e % AC_MAX == q :: e in busy
  }

  // -------------------------------------------------------------- accounting

  /** The tokens in use on behalf of queue `q`, read off the bitmap and the nibble map. */
  ghost function Owned(c: Config, p: Pool, q: nat): set<nat>
    requires 0 < c.Reserved()
  {
    set d | d in p.busy && OwnedBy(c, p, d, q)
  }

  ghost predicate OwnedBy(c: Config, p: Pool, d: nat, q: nat)
    requires 0 < c.Reserved()
  {
    if d < c.Reserved() then d % AC_MAX == q else q < AC_MC && SpareBit(c, d, q) in p.spare
  }

  /** The redundant records agree. */
  ghost predicate Accounted(c: Config, p: Pool) {
    && Shaped(c, p)
    && (forall q | 0 <= q < AC_MAX :: p.out[q] == |Owned(c, p, q)|)
    && (forall d | c.Reserved() <= d < c.numTokens :: NibbleFits(c, p, d))
  }

  /** A spare in use has exactly one bit in its nibble; a free one has none. */
  ghost predicate NibbleFits(c: Config, p: Pool, d: nat)
    requires 0 < c.Reserved()
  {
    if d in p.busy then
      exists q :: 0 <= q < AC_MC && OneBit(c, p, d, q)
    else
      forall q | 0 <= q < AC_MC :: SpareBit(c, d, q) !in p.spare
  }

  ghost predicate OneBit(c: Config, p: Pool, d: nat, q: nat)
    requires 0 < c.Reserved()
  {
    && SpareBit(c, d, q) in p.spare
    && (forall r | 0 <= r < AC_MC && r != q :: SpareBit(c, d, r) !in p.spare)
  }

  lemma SpareBitDistinct(c: Config, d: nat, q: nat, e: nat, r: nat)
    requires c.Valid() && c.Reserved() <= d < c.numTokens && c.Reserved() <= e < c.numTokens
    requires q < AC_MC && r < AC_MC && (d != e || q != r)
    ensures SpareBit(c, d, q) != SpareBit(c, e, r)
  {
    SpareIndex(c, d);
    SpareIndex(c, e);
  }

  lemma SpareIndex(c: Config, d: nat)
    requires c.Valid() && c.Reserved() <= d < c.numTokens
    ensures d % c.Reserved() == d - c.Reserved() < AC_MC
  {
    TokenSplit(c);
    var m := c.Reserved();
    assert d - m < m;
    SmallMod(d, m);
  }

  lemma SmallMod(d: nat, m: nat)
    requires m <= d < 2 * m
    ensures d % m == d - m
  {
    assert d == m * 1 + (d - m);
  }

  lemma OwnerOfOneBit(c: Config, p: Pool, d: nat, q: nat)
    requires c.Valid() && c.Reserved() <= d < c.numTokens && q < AC_MC && OneBit(c, p, d, q)
    ensures Owner(c, p, d) == q
  {
  }

  /** In an accounted pool the owner that TX-done works out is the queue the token is in use for. */
  lemma OwnerIsTrue(c: Config, p: Pool, d: nat)
    requires Accounted(c, p) && d in p.busy
    ensures OwnedBy(c, p, d, Owner(c, p, d))
    ensures forall q | 0 <= q < AC_MAX && OwnedBy(c, p, d, q) :: q == Owner(c, p, d)
  {
    if d >= c.Reserved() {
      assert NibbleFits(c, p, d);
      var q :| 0 <= q < AC_MC && OneBit(c, p, d, q);
      OwnerOfOneBit(c, p, d, q);
    }
  }
}
