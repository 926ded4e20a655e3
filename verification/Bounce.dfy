/**
 The bounce buffers in the data RAM of the RPU.  Each token owns a region; the frames of a batch are
 laid out in it one behind the other, every start and every length rounded up to a word.
 */
module Bounce {
  import opened Basics
  import opened TxConfig

  function Align4(x: nat): (r: nat)
    ensures x <= r <= x + 3 && r % 4 == 0
    ensures x % 4 == 0 ==> r == x
  {
    (x + 3) / 4 * 4
  }

  function Room(f: Frame): nat { Align4(|f.data|) }

  /** The bytes that mapping a frame copies. */
  function Burst(f: Frame): (b: seq<byte>)
    ensures |b| == Room(f) && f.data <= b
  {
    (f.data + f.slack)[..Room(f)]
  }

  /** tx_frame_offset after mapping a batch from `start`, as an offset in data RAM. */
  function EndOffset(c: Config, start: nat, batch: seq<Frame>): nat {
    if batch == [] then start
    else
      var last := batch[|batch| - 1];
      Align4(EndOffset(c, start, batch[..|batch| - 1])) + Room(last) + c.headroom
  }

  /** Where frame `i` of the batch of token `d` lands in data RAM. */
  function Place(c: Config, d: nat, batch: seq<Frame>, i: nat): nat
    requires i <= |batch|
  {
    Align4(EndOffset(c, c.TokenBase(d), batch[..i]))
  }

  /** The size of a batch as the aggregator counts it: every frame with its headroom. */
  function BatchBytes(c: Config, batch: seq<Frame>): nat {
    if batch == [] then 0
    else BatchBytes(c, batch[..|batch| - 1]) + c.headroom + |batch[|batch| - 1].data|
  }

  /** What the aggregator promises of the batch that it hands to a token. */
  ghost predicate Fits(c: Config, batch: seq<Frame>) {
    && (forall f | f in batch :: c.Mappable(f))
    && |batch| <= c.maxAgg
    && (|batch| <= 1 || BatchBytes(c, batch) < c.Avail())
  }

  function Write(ram: seq<byte>, a: nat, bytes: seq<byte>): (r: seq<byte>)
    ensures |r| == |ram|
  {
    if a + |bytes| <= |ram| then ram[..a] + bytes + ram[a + |bytes|..] else ram
  }

  /** Data RAM after the batch has been copied in, in order. */
  function WriteBatch(c: Config, ram: seq<byte>, d: nat, batch: seq<Frame>, n: nat): (r: seq<byte>)
    requires n <= |batch|
    ensures |r| == |ram|
  {
    if n == 0 then ram
    else Write(WriteBatch(c, ram, d, batch, n - 1), Place(c, d, batch, n - 1), Burst(batch[n - 1]))
  }

  /** The RPU finds every frame of the batch, byte for byte, at its place. */
  ghost predicate Intact(c: Config, ram: seq<byte>, d: nat, batch: seq<Frame>) {
    forall i | 0 <= i < |batch| :: IntactAt(ram, Place(c, d, batch, i), batch[i])
  }

  ghost predicate IntactAt(ram: seq<byte>, a: nat, f: Frame) {
    a + |f.data| <= |ram| && ram[a..a + |f.data|] == f.data
  }

  // ------------------------------------------------------------------ layout

  lemma {:induction false} OffsetBound(c: Config, start: nat, batch: seq<Frame>)
    ensures start <= EndOffset(c, start, batch)
    ensures EndOffset(c, start, batch) <= start + BatchBytes(c, batch) + ALIGN_OVERHEAD * |batch|
  {
    if batch != [] {
      OffsetBound(c, start, batch[..|batch| - 1]);
    }
  }

  lemma {:induction false} PrefixBytes(c: Config, batch: seq<Frame>, i: nat)
    requires i <= |batch|
    ensures BatchBytes(c, batch[..i]) <= BatchBytes(c, batch)
    decreases |batch|
  {
    if i == |batch| {
      assert batch[..i] == batch;
    } else {
      assert batch[..|batch| - 1][..i] == batch[..i];
      PrefixBytes(c, batch[..|batch| - 1], i);
    }
  }

  lemma {:induction false} EndAfter(c: Config, d: nat, batch: seq<Frame>, i: nat)
    requires i < |batch|
    ensures EndOffset(c, c.TokenBase(d), batch[..i + 1])
         == Place(c, d, batch, i) + Room(batch[i]) + c.headroom
  {
    assert batch[..i + 1][..i] == batch[..i];
  }

  /**
   Memory safety of one mapping: word aligned, inside the region of the token, below the RX pools.
   The six bytes per frame that main.c takes off the budget pay for the two roundings.
   */
  lemma PlaceInRegion(c: Config, d: nat, batch: seq<Frame>, i: nat)
    requires c.Valid() && d < c.numTokens && Fits(c, batch) && i < |batch|
    ensures Place(c, d, batch, i) % 4 == 0
    ensures c.TokenBase(d) <= Place(c, d, batch, i)
    ensures Place(c, d, batch, i) + Room(batch[i]) <= c.TokenBase(d) + c.tokenLen <= c.rxStart
  {
    TokenRegionInRam(c, d);
    var start := c.TokenBase(d);
    assert c.Mappable(batch[i]);
    if |batch| == 1 {
      assert Place(c, d, batch, i) == start;
    } else {
      OffsetBound(c, start, batch[..i]);
      PrefixBytes(c, batch, i + 1);
      assert batch[..i + 1][..i] == batch[..i];
      OverheadPaid(c, batch, i);
    }
  }

  lemma OverheadPaid(c: Config, batch: seq<Frame>, i: nat)
    requires i < |batch| <= c.maxAgg
    ensures ALIGN_OVERHEAD * i + ALIGN_OVERHEAD <= ALIGN_OVERHEAD * c.maxAgg
  {
  }

  lemma {:induction false} OffsetMonotone(c: Config, start: nat, batch: seq<Frame>, i: nat)
    requires i <= |batch|
    ensures EndOffset(c, start, batch[..i]) <= EndOffset(c, start, batch)
    decreases |batch|
  {
    if i == |batch| {
      assert batch[..i] == batch;
    } else {
      assert batch[..|batch| - 1][..i] == batch[..i];
      OffsetMonotone(c, start, batch[..|batch| - 1], i);
    }
  }

  /** Frames of one batch do not overlap. */
  lemma PlacesDisjoint(c: Config, d: nat, batch: seq<Frame>, i: nat, j: nat)
    requires i < j <= |batch|
    ensures Place(c, d, batch, i) + Room(batch[i]) <= Place(c, d, batch, j)
  {
    EndAfter(c, d, batch, i);
    assert batch[..j][..i + 1] == batch[..i + 1];
    OffsetMonotone(c, c.TokenBase(d), batch[..j], i + 1);
  }

  /** The first frame of a batch lies at the start of its token's region, the next behind its padded bytes and the headroom, rounded up to a word. */
  lemma PlacesAre(c: Config, d: nat, batch: seq<Frame>, i: nat)
    requires c.Valid() && d < c.numTokens && i < |batch|
    ensures Place(c, d, batch, 0) == d * c.tokenLen
    ensures var used := Place(c, d, batch, i) + (|batch[i].data| + 3) / 4 * 4 + c.headroom;
            Place(c, d, batch, i + 1) == (used + 3) / 4 * 4
  {
    TokenRegionInRam(c, d);
    EndAfter(c, d, batch, i);
  }

  // ---------------------------------------------------------------- contents

  lemma WriteKeeps(ram: seq<byte>, a: nat, bytes: seq<byte>, p: nat, q: nat)
    requires p <= q <= |ram|
    requires q <= a || a + |bytes| <= p
    ensures Write(ram, a, bytes)[p..q] == ram[p..q]
  {
    forall i | p <= i < q ensures Write(ram, a, bytes)[i] == ram[i] {}
  }

  /** Copying a batch of `d` changes nothing outside the region of `d`. */
  lemma {:induction false} BatchKeeps(c: Config, ram: seq<byte>, d: nat, batch: seq<Frame>, n: nat, p: nat, q: nat)
    requires c.Valid() && d < c.numTokens && Fits(c, batch) && n <= |batch|
    requires p <= q <= |ram|
    requires q <= c.TokenBase(d) || c.TokenBase(d) + c.tokenLen <= p
    ensures WriteBatch(c, ram, d, batch, n)[p..q] == ram[p..q]
  {
    if n > 0 {
      BatchKeeps(c, ram, d, batch, n - 1, p, q);
      PlaceInRegion(c, d, batch, n - 1);
      WriteKeeps(WriteBatch(c, ram, d, batch, n - 1), Place(c, d, batch, n - 1), Burst(batch[n - 1]), p, q);
    }
  }

  lemma WriteHits(ram: seq<byte>, a: nat, f: Frame)
    requires a + Room(f) <= |ram|
    ensures IntactAt(Write(ram, a, Burst(f)), a, f)
  {
    var after := Write(ram, a, Burst(f));
    forall i | 0 <= i < |f.data| ensures after[a + i] == f.data[i] {
      assert after[a + i] == Burst(f)[i];
    }
  }

  lemma WriteMisses(ram: seq<byte>, a: nat, bytes: seq<byte>, p: nat, f: Frame)
    requires IntactAt(ram, p, f)
    requires p + |f.data| <= a || a + |bytes| <= p
    ensures IntactAt(Write(ram, a, bytes), p, f)
  {
    WriteKeeps(ram, a, bytes, p, p + |f.data|);
  }

  lemma {:induction false} LastIntact(c: Config, ram: seq<byte>, d: nat, batch: seq<Frame>, n: nat)
    requires c.Valid() && d < c.numTokens && Fits(c, batch) && 0 < n <= |batch|
    requires |ram| == c.ramSize
    ensures IntactAt(WriteBatch(c, ram, d, batch, n), Place(c, d, batch, n - 1), batch[n - 1])
  {
    PlaceInRegion(c, d, batch, n - 1);
    WriteHits(WriteBatch(c, ram, d, batch, n - 1), Place(c, d, batch, n - 1), batch[n - 1]);
  }

  lemma {:induction false} BatchIntact(c: Config, ram: seq<byte>, d: nat, batch: seq<Frame>, n: nat, i: nat)
    requires c.Valid() && d < c.numTokens && Fits(c, batch) && i < n <= |batch|
    requires |ram| == c.ramSize
    ensures IntactAt(WriteBatch(c, ram, d, batch, n), Place(c, d, batch, i), batch[i])
  {
    if i == n - 1 {
      LastIntact(c, ram, d, batch, n);
    } else {
      BatchIntact(c, ram, d, batch, n - 1, i);
      LaterFrameMisses(c, WriteBatch(c, ram, d, batch, n - 1), d, batch, i, n - 1);
    }
  }

  lemma LaterFrameMisses(c: Config, ram: seq<byte>, d: nat, batch: seq<Frame>, i: nat, j: nat)
    requires i < j < |batch|
    requires IntactAt(ram, Place(c, d, batch, i), batch[i])
    ensures IntactAt(Write(ram, Place(c, d, batch, j), Burst(batch[j])), Place(c, d, batch, i), batch[i])
  {
    PlacesDisjoint(c, d, batch, i, j);
    WriteMisses(ram, Place(c, d, batch, j), Burst(batch[j]), Place(c, d, batch, i), batch[i]);
  }

  lemma {:induction false} WriteBatchIntact(c: Config, ram: seq<byte>, d: nat, batch: seq<Frame>)
    requires c.Valid() && d < c.numTokens && Fits(c, batch) && |ram| == c.ramSize
    ensures Intact(c, WriteBatch(c, ram, d, batch, |batch|), d, batch)
  {
    forall i | 0 <= i < |batch|
      ensures IntactAt(WriteBatch(c, ram, d, batch, |batch|), Place(c, d, batch, i), batch[i])
    {
      BatchIntact(c, ram, d, batch, |batch|, i);
    }
  }

  lemma {:induction false} OtherIntactAt(c: Config, ram: seq<byte>, d: nat, batch: seq<Frame>, e: nat, p: nat, f: Frame)
    requires c.Valid() && d < c.numTokens && e < c.numTokens && d != e && Fits(c, batch)
    requires c.TokenBase(e) <= p && p + |f.data| <= c.TokenBase(e) + c.tokenLen
    requires IntactAt(ram, p, f)
    ensures IntactAt(WriteBatch(c, ram, d, batch, |batch|), p, f)
  {
    if d < e { TokenRegions(c, d, e); } else { TokenRegions(c, e, d); }
    BatchKeeps(c, ram, d, batch, |batch|, p, p + |f.data|);
  }

  /** A live batch survives the mapping of another token's batch. */
  lemma {:induction false} OtherIntact(c: Config, ram: seq<byte>, d: nat, batch: seq<Frame>, e: nat, live: seq<Frame>)
    requires c.Valid() && d < c.numTokens && e < c.numTokens && d != e
    requires Fits(c, batch) && Fits(c, live)
    requires Intact(c, ram, e, live)
    ensures Intact(c, WriteBatch(c, ram, d, batch, |batch|), e, live)
  {
    forall i | 0 <= i < |live|
      ensures IntactAt(WriteBatch(c, ram, d, batch, |batch|), Place(c, e, live, i), live[i])
    {
      PlaceInRegion(c, e, live, i);
      OtherIntactAt(c, ram, d, batch, e, Place(c, e, live, i), live[i]);
    }
  }
}
