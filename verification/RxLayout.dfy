/**
 The receive pools: descriptors are numbered through all pools, and every buffer has a slot in device
 memory, the header first and then room for a frame.
 */
module RxLayout {
  import opened TxConfig

  const RX_BUF_HEADROOM: nat := 4

  datatype RxPool = RxPool(numBufs: nat, bufSz: nat) {
    /** What the HAL calls the buffer size of the pool. */
    function SlotLen(): nat { bufSz + RX_BUF_HEADROOM }
  }

  /** `start`: where the first pool begins, counted from the start of data RAM. */
  datatype RxConfig = RxConfig(pools: seq<RxPool>, start: nat)

  /** rx_desc: the number of the first descriptor of pool `p`; for the number of pools, num_rx_bufs. */
  function FirstDesc(c: RxConfig, p: nat): nat
    requires p <= |c.pools|
  {
    if p == 0 then 0 else FirstDesc(c, p - 1) + c.pools[p - 1].numBufs
  }

  function Total(c: RxConfig): nat { FirstDesc(c, |c.pools|) }

  /** addr_rpu_pktram_base_rx_pool. */
  function PoolBase(c: RxConfig, p: nat): nat
    requires p <= |c.pools|
  {
    if p == 0 then c.start else PoolBase(c, p - 1) + c.pools[p - 1].numBufs * c.pools[p - 1].SlotLen()
  }

  /** The end of the receive memory. */
  function RxEnd(c: RxConfig): nat { PoolBase(c, |c.pools|) }

  predicate InPool(c: RxConfig, p: nat, b: nat) { p < |c.pools| && b < c.pools[p].numBufs }

  function Slot(c: RxConfig, p: nat, b: nat): nat
    requires p < |c.pools|
  {
    PoolBase(c, p) + b * c.pools[p].SlotLen()
  }

  predicate IsDesc(c: RxConfig, p: nat, b: nat, d: nat)
    requires p < |c.pools|
  {
    FirstDesc(c, p) <= d < FirstDesc(c, p) + c.pools[p].numBufs && b == d - FirstDesc(c, p)
  }

  // ------------------------------------------------------------ descriptors

  lemma {:induction false} FirstDescGrows(c: RxConfig, p: nat, q: nat)
    requires p <= q <= |c.pools|
    ensures FirstDesc(c, p) <= FirstDesc(c, q)
    decreases q
  {
    if p < q { FirstDescGrows(c, p, q - 1); }
  }

  /** The pool of a descriptor and its place there. */
  function Where(c: RxConfig, d: nat, p: nat): (r: (nat, nat))
    requires p <= |c.pools| && d < FirstDesc(c, p)
    ensures r.0 < p && IsDesc(c, r.0, r.1, d) && InPool(c, r.0, r.1)
  {
    if d >= FirstDesc(c, p - 1) then (p - 1, d - FirstDesc(c, p - 1)) else Where(c, d, p - 1)
  }

  function PoolOf(c: RxConfig, d: nat): (p: nat)
    requires d < Total(c)
    ensures p < |c.pools|
  {
    Where(c, d, |c.pools|).0
  }

  function BufOf(c: RxConfig, d: nat): (b: nat)
    requires d < Total(c)
    ensures InPool(c, PoolOf(c, d), b)
  {
    Where(c, d, |c.pools|).1
  }

  /** A pair of pool and buffer is that of one descriptor: the numbering is a bijection. */
  lemma {:induction false} DescBijection(c: RxConfig, p: nat, b: nat, d: nat)
    requires InPool(c, p, b)
    ensures d == FirstDesc(c, p) + b <==> d < Total(c) && PoolOf(c, d) == p && BufOf(c, d) == b
  {
    if d == FirstDesc(c, p) + b {
      FirstDescGrows(c, p + 1, |c.pools|);
      DescUnique(c, p, b, d);
    }
  }

  lemma DescUnique(c: RxConfig, p: nat, b: nat, d: nat)
    requires d < Total(c) && p < |c.pools| && IsDesc(c, p, b, d)
    ensures PoolOf(c, d) == p && BufOf(c, d) == b
  {
    var q := PoolOf(c, d);
    if p < q { FirstDescGrows(c, p + 1, q); } else if q < p { FirstDescGrows(c, q + 1, p); }
  }

  lemma DescsDiffer(c: RxConfig, d: nat, e: nat)
    requires d < Total(c) && e < Total(c) && d != e
    ensures PoolOf(c, d) != PoolOf(c, e) || BufOf(c, d) != BufOf(c, e)
  {
  }

  // ----------------------------------------------------------------- memory

  lemma {:induction false} PoolBaseGrows(c: RxConfig, p: nat, q: nat)
    requires p <= q <= |c.pools|
    ensures PoolBase(c, p) <= PoolBase(c, q)
    decreases q
  {
    if p < q { PoolBaseGrows(c, p, q - 1); }
  }

  lemma SlotInPool(c: RxConfig, p: nat, b: nat)
    requires InPool(c, p, b)
    ensures PoolBase(c, p) <= Slot(c, p, b)
    ensures Slot(c, p, b) + c.pools[p].SlotLen() <= PoolBase(c, p + 1) <= RxEnd(c)
  {
    var n := c.pools[p].SlotLen();
    Scale(n, b + 1, c.pools[p].numBufs);
    assert n * (b + 1) == n * b + n;
    PoolBaseGrows(c, p + 1, |c.pools|);
  }

  /** Slots do not overlap. */
  lemma SlotsDisjoint(c: RxConfig, p: nat, b: nat, q: nat, a: nat)
    requires InPool(c, p, b) && InPool(c, q, a) && (p < q || (p == q && b < a))
    ensures Slot(c, p, b) + c.pools[p].SlotLen() <= Slot(c, q, a)
  {
    SlotInPool(c, p, b);
    SlotInPool(c, q, a);
    if p < q {
      PoolBaseGrows(c, p + 1, q);
    } else {
      var n := c.pools[p].SlotLen();
      Scale(n, b + 1, a);
      assert n * (b + 1) == n * b + n;
    }
  }

  ghost predicate SlotsInside(c: RxConfig, ramSize: nat) {
    forall p: nat, b: nat | InPool(c, p, b) :: Slot(c, p, b) + c.pools[p].SlotLen() <= ramSize
  }

  /** The last slot of the pools before `q` ends where those pools end. */
  lemma {:induction false} LastSlot(c: RxConfig, q: nat) returns (p: nat, b: nat)
    requires q <= |c.pools| && c.start < PoolBase(c, q)
    ensures p < q && InPool(c, p, b) && Slot(c, p, b) + c.pools[p].SlotLen() == PoolBase(c, q)
    decreases q
  {
    var n := c.pools[q - 1].numBufs;
    if n == 0 {
      p, b := LastSlot(c, q - 1);
    } else {
      p, b := q - 1, n - 1;
      var len := c.pools[p].SlotLen();
      assert n * len == (n - 1) * len + len;
    }
  }

  /** The slots lie in data RAM exactly when the pools, headers included, fit behind `start`. */
  lemma SlotsInsideIff(c: RxConfig, ramSize: nat)
    requires c.start <= ramSize
    ensures SlotsInside(c, ramSize) <==> RxEnd(c) <= ramSize
  {
    if RxEnd(c) <= ramSize {
      forall p: nat, b: nat | InPool(c, p, b) ensures Slot(c, p, b) + c.pools[p].SlotLen() <= ramSize {
        SlotInPool(c, p, b);
      }
    } else {
      var p, b := LastSlot(c, |c.pools|);
    }
  }

  /**
   What nrf_wifi_hal_rpu_pktram_buf_map_init reserves counts frames without their headers.  With the
   sizes that the driver ships the last slot reaches 252 bytes past the end of data RAM.
   */
  lemma ShippedPoolsOverrun(ramSize: nat)
    requires ramSize >= 63 * 1600
    ensures var c := RxConfig([RxPool(21, 1600), RxPool(21, 1600), RxPool(21, 1600)], ramSize - 63 * 1600);
            RxEnd(c) == ramSize + 252 && !SlotsInside(c, ramSize)
  {
    var c := RxConfig([RxPool(21, 1600), RxPool(21, 1600), RxPool(21, 1600)], ramSize - 63 * 1600);
    assert PoolBase(c, 1) == c.start + 21 * 1604;
    assert PoolBase(c, 2) == c.start + 42 * 1604;
    assert PoolBase(c, 3) == c.start + 63 * 1604;
    SlotsInsideIff(c, ramSize);
  }
}
