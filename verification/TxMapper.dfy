/**
 The two tables of mapped transmit buffers, of the FMAC layer and of the HAL, and the coalesce
 counts.  `live` is what they record: for each token the frames that are mapped for it.
 */
module TxMapper {
  import opened Basics
  import opened TxConfig
  import opened Bounce
  import opened CmdRing
  import HalTx
  import opened TxModel

  /** One entry of the FMAC's tx_buf_info. */
  datatype FmacBuf = FmacBuf(mapped: bool, nwb: Option<Frame>)

  /** These two entries are right for frame `f` of a token `d` that holds `batch`. */
  ghost predicate Records(c: Config, fmac: FmacBuf, buf: HalTx.BufInfo, d: nat, batch: seq<Frame>, f: nat) {
    if f < |batch| then
      fmac == FmacBuf(true, Some(batch[f])) && buf == HalTx.Mapped(batch[f], c.base + Place(c, d, batch, f))
    else
      fmac == FmacBuf(false, None) && buf == HalTx.NO_BUF
  }

  /** One more frame at the end of a batch changes nothing for the frames before it. */
  lemma RecordsPrefix(c: Config, fmac: FmacBuf, buf: HalTx.BufInfo, d: nat, batch: seq<Frame>, x: Frame, f: nat)
    requires Records(c, fmac, buf, d, batch, f) && f != |batch|
    ensures Records(c, fmac, buf, d, batch + [x], f)
  {
    if f < |batch| { assert (batch + [x])[..f] == batch[..f]; }
  }

  /** What mapping frame `i` of a batch needs to know about the frames before it. */
  lemma BatchStep(c: Config, d: nat, batch: seq<Frame>, i: nat)
    requires Fits(c, batch) && i < |batch|
    ensures Fits(c, batch[..i] + [batch[i]])
    ensures batch[..i + 1] == batch[..i] + [batch[i]]
    ensures Place(c, d, batch[..i + 1], i) == Place(c, d, batch, i)
  {
    assert batch[..i] + [batch[i]] == batch[..i + 1];
    PrefixBytes(c, batch, i + 1);
    assert batch[..i + 1][..i] == batch[..i];
  }

  class TxMapper {
    const c: Config
    const hal: HalTx.HalTx
    const txBufInfo: array<FmacBuf>
    const coalesceCount: array<nat>
    ghost var live: seq<seq<Frame>>

    /** The number of the buffer of frame `f` of token `d`. */
    function DescId(d: nat, f: nat): nat { d * c.maxAgg + f }

    ghost predicate Wired() {
      && hal.c == c
      && (txBufInfo as object) != (coalesceCount as object)
      && (txBufInfo as object) != (hal.txBufInfo as object)
      && (txBufInfo as object) != (hal.ram as object)
      && (coalesceCount as object) != (hal.txBufInfo as object)
      && (coalesceCount as object) != (hal.ram as object)
    }

    ghost function Repr(): set<object> {
      {this, hal, hal.txBufInfo, hal.ram, txBufInfo, coalesceCount}
    }

    /** Buffer `f` of token `d` is mapped, in both tables, exactly when the token has a frame for it. */
    ghost predicate Agree(d: nat, f: nat)
      requires d < |live| && DescId(d, f) < txBufInfo.Length == hal.txBufInfo.Length
      reads this, txBufInfo, hal.txBufInfo
    {
      Records(c, txBufInfo[DescId(d, f)], hal.txBufInfo[DescId(d, f)], d, live[d], f)
    }

    ghost predicate Sized()
      reads this, hal, hal.txBufInfo, hal.ram
    {
      && Wired() && hal.Valid()
      && txBufInfo.Length == c.numTokens * c.maxAgg
      && coalesceCount.Length == |live| == c.numTokens
      && (forall d, f | 0 <= d < c.numTokens && 0 <= f < c.maxAgg :: DescId(d, f) < txBufInfo.Length)
    }

    ghost predicate Tables()
      reads this, hal, hal.txBufInfo, hal.ram, txBufInfo, coalesceCount
    {
      && Sized()
      && (forall d | 0 <= d < c.numTokens :: |live[d]| <= c.maxAgg)
      && (forall d, f | 0 <= d < c.numTokens && 0 <= f < c.maxAgg :: Agree(d, f))
    }

    ghost predicate Valid()
      reads this, hal, hal.txBufInfo, hal.ram, txBufInfo, coalesceCount
    {
      && Tables()
      && (forall d | 0 <= d < c.numTokens && live[d] != [] :: coalesceCount[d] == |live[d]|)
    }

    /** Both tables have buffer `f` of token `d` mapped exactly when the token holds frames and `f` is below its coalesce count. */
    lemma FlagsAgree(d: nat, f: nat)
      requires Valid() && d < c.numTokens && f < c.maxAgg
      ensures var i := d * c.maxAgg + f;
              && i < txBufInfo.Length == hal.txBufInfo.Length
              && (txBufInfo[i].mapped <==> live[d] != [] && f < coalesceCount[d])
              && (hal.txBufInfo[i].mapped <==> txBufInfo[i].mapped)
    {
      DescIdBound(d, f);
      assert Agree(d, f);
    }

    lemma DescIdBound(d: nat, f: nat)
      requires d < c.numTokens && f < c.maxAgg
      ensures DescId(d, f) < c.numTokens * c.maxAgg
    {
      Scale(c.maxAgg, d + 1, c.numTokens);
      assert c.maxAgg * (d + 1) == c.maxAgg * d + c.maxAgg;
    }

    /** The buffers of different tokens have different numbers. */
    lemma DescIdInjective(d: nat, f: nat, e: nat, g: nat)
      requires f < c.maxAgg && g < c.maxAgg && (d != e || f != g)
      ensures DescId(d, f) != DescId(e, g)
    {
      var m := c.maxAgg;
      assert m * (d + 1) == m * d + m && m * (e + 1) == m * e + m;
      if d < e { Scale(m, d + 1, e); } else if e < d { Scale(m, e + 1, d); }
    }

    constructor (c: Config)
      requires c.Valid()
      ensures Valid() && this.c == c && fresh(Repr() - {this})
      ensures live == seq(c.numTokens, _ => [])
      ensures forall d | 0 <= d < c.numTokens :: coalesceCount[d] == 0
    {
      this.c := c;
      hal := new HalTx.HalTx(c);
      txBufInfo := new FmacBuf[c.numTokens * c.maxAgg](_ => FmacBuf(false, None));
      coalesceCount := new nat[c.numTokens](_ => 0);
      live := seq(c.numTokens, _ => []);
      new;
      forall d, f | 0 <= d < c.numTokens && 0 <= f < c.maxAgg ensures DescId(d, f) < txBufInfo.Length {
        DescIdBound(d, f);
      }
    }

    lemma AlignBase(x: nat)
      requires c.base % 4 == 0
      ensures Align4(c.base + x) == c.base + Align4(x)
    {
    }

    /** The offset that the HAL keeps is the end of what has been mapped for the token so far. */
    ghost predicate Offset(desc: nat)
      requires desc < |live|
      reads this, hal
    {
      live[desc] == [] || hal.txFrameOffset == c.base + EndOffset(c, c.TokenBase(desc), live[desc])
    }

    lemma TargetIsPlace(desc: nat, f: Frame)
      requires c.Valid() && hal.c == c && desc < |live| && Offset(desc)
      ensures var batch := live[desc] + [f];
              hal.Target(desc, |live[desc]|) == c.base + Place(c, desc, batch, |live[desc]|)
    {
      var batch := live[desc] + [f];
      assert batch[..|live[desc]|] == live[desc];
      AlignBase(EndOffset(c, c.TokenBase(desc), live[desc]));
    }

    /** Copy frame `f` to its bounce buffer at offset `a` of data RAM and enter it in both tables. */
    method MapBuffer(f: Frame, descId: nat, desc: nat, frameIndx: nat, ghost a: nat) returns (phy: nat)
      requires Sized() && descId < txBufInfo.Length
      requires txBufInfo[descId] == FmacBuf(false, None) && hal.txBufInfo[descId] == HalTx.NO_BUF
      requires c.Mappable(f) && hal.Target(desc, frameIndx) == c.base + a && a + Room(f) <= c.ramSize
      modifies hal`txFrameOffset, hal.txBufInfo, hal.ram, txBufInfo
      ensures Sized()
      ensures phy == c.base + a
      ensures hal.ram[..] == Write(old(hal.ram[..]), a, Burst(f))
      ensures hal.txFrameOffset == phy + Room(f) + c.headroom
      ensures txBufInfo[descId] == FmacBuf(true, Some(f))
      ensures hal.txBufInfo[descId] == HalTx.Mapped(f, phy)
      ensures forall i | 0 <= i < txBufInfo.Length && i != descId ::
                txBufInfo[i] == old(txBufInfo[i]) && hal.txBufInfo[i] == old(hal.txBufInfo[i])
    {
      if txBufInfo[descId].mapped {
        assert false;  // "already mapped" is never reported
      }
      phy := hal.BufMapTx(f, descId, desc, frameIndx);
      txBufInfo[descId] := FmacBuf(true, Some(f));
    }

    /** tx_cmd_prep_callbk_fn: one more frame of the batch of token `desc` is copied and mapped. */
    method PrepCallback(f: Frame, desc: nat, frameIndx: nat) returns (phy: nat)
      requires Tables() && desc < c.numTokens && frameIndx == |live[desc]|
      requires Fits(c, live[desc] + [f]) && Offset(desc)
      modifies this`live, hal`txFrameOffset, hal.txBufInfo, hal.ram, txBufInfo
      ensures Tables() && Offset(desc)
      ensures live == old(live)[desc := old(live[desc]) + [f]]
      ensures phy == c.base + Place(c, desc, live[desc], frameIndx)
      ensures hal.ram[..] == Write(old(hal.ram[..]), Place(c, desc, live[desc], frameIndx), Burst(f))
    {
      ghost var batch := live[desc];
      ghost var a := Place(c, desc, batch + [f], frameIndx);
      var descId := desc * c.maxAgg + frameIndx;
      assert descId == DescId(desc, frameIndx) && Agree(desc, frameIndx);
      TargetIsPlace(desc, f);
      PlaceInRegion(c, desc, batch + [f], frameIndx);
      phy := MapBuffer(f, descId, desc, frameIndx, a);
      live := live[desc := batch + [f]];
      forall d, g | 0 <= d < c.numTokens && 0 <= g < c.maxAgg && (d != desc || g != frameIndx) ensures Agree(d, g) {
        assert old(Agree(d, g));
        DescIdInjective(d, g, desc, frameIndx);
        if d == desc {
          RecordsPrefix(c, txBufInfo[DescId(d, g)], hal.txBufInfo[DescId(d, g)], d, batch, f, g);
        }
      }
    }

    /** PrepCallback for the frame of the batch whose turn it is. */
    method MapNext(desc: nat, batch: seq<Frame>, frameIndx: nat) returns (buf: BufRef)
      requires Tables() && desc < c.numTokens && frameIndx < |batch| && Fits(c, batch)
      requires live[desc] == batch[..frameIndx] && Offset(desc)
      modifies this`live, hal`txFrameOffset, hal.txBufInfo, hal.ram, txBufInfo
      ensures Tables() && Offset(desc)
      ensures live == old(live)[desc := batch[..frameIndx + 1]]
      ensures hal.ram[..] == Write(old(hal.ram[..]), Place(c, desc, batch, frameIndx), Burst(batch[frameIndx]))
      ensures buf == BufRefs(c, desc, batch)[frameIndx]
    {
      BatchStep(c, desc, batch, frameIndx);
      var phy := PrepCallback(batch[frameIndx], desc, frameIndx);
      buf := BufRef(phy, |batch[frameIndx].data|);
    }

    /** tx_cmd_prepare's traversal: the whole batch of token `desc` is copied and mapped, in order. */
    method MapFrames(desc: nat, batch: seq<Frame>) returns (bufs: seq<BufRef>)
      requires Tables() && desc < c.numTokens && live[desc] == [] && Fits(c, batch)
      modifies this`live, hal`txFrameOffset, hal.txBufInfo, hal.ram, txBufInfo
      ensures Tables()
      ensures live == old(live)[desc := batch]
      ensures hal.ram[..] == WriteBatch(c, old(hal.ram[..]), desc, batch, |batch|)
      ensures bufs == BufRefs(c, desc, batch)
    {
      bufs := [];
      ghost var refs := BufRefs(c, desc, batch);
      for frameIndx := 0 to |batch|
        invariant Tables() && Offset(desc)
        invariant live == old(live)[desc := batch[..frameIndx]]
        invariant hal.ram[..] == WriteBatch(c, old(hal.ram[..]), desc, batch, frameIndx)
        invariant bufs == refs[..frameIndx]
      {
        var buf := MapNext(desc, batch, frameIndx);
        bufs := bufs + [buf];
        TakeNext(refs, frameIndx);
      }
      assert batch[..|batch|] == batch;
    }

    /** The part of tx_cmd_prepare that maps: the coalesce count is set, then the frames are mapped. */
    method MapBatch(desc: nat, batch: seq<Frame>) returns (bufs: seq<BufRef>)
      requires Valid() && desc < c.numTokens && live[desc] == [] && Fits(c, batch)
      modifies this`live, hal`txFrameOffset, hal.txBufInfo, hal.ram, txBufInfo, coalesceCount
      ensures Valid()
      ensures live == old(live)[desc := batch]
      ensures hal.ram[..] == WriteBatch(c, old(hal.ram[..]), desc, batch, |batch|)
      ensures bufs == BufRefs(c, desc, batch)
      ensures coalesceCount[desc] == |batch|
      ensures forall d | 0 <= d < c.numTokens && d != desc :: coalesceCount[d] == old(coalesceCount[d])
    {
      coalesceCount[desc] := |batch|;
      bufs := MapFrames(desc, batch);
    }

    /** The entries of buffer `f` of token `d` while the first `n` buffers of `desc` have been unmapped. */
    ghost predicate Left(desc: nat, n: nat, d: nat, f: nat)
      requires d < |live| && DescId(d, f) < txBufInfo.Length == hal.txBufInfo.Length
      reads this, txBufInfo, hal.txBufInfo
    {
      Records(c, txBufInfo[DescId(d, f)], hal.txBufInfo[DescId(d, f)], d, if d == desc && f < n then [] else live[d], f)
    }

    ghost predicate Unmapping(desc: nat, n: nat)
      reads this, hal, hal.txBufInfo, hal.ram, txBufInfo, coalesceCount
    {
      && Sized()
      && (forall d | 0 <= d < c.numTokens :: |live[d]| <= c.maxAgg)
      && (forall d, f | 0 <= d < c.numTokens && 0 <= f < c.maxAgg :: Left(desc, n, d, f))
    }

    method UnmapNext(desc: nat, frame: nat)
      requires desc < c.numTokens && Unmapping(desc, frame) && frame < |live[desc]|
      modifies hal.txBufInfo, txBufInfo
      ensures Unmapping(desc, frame + 1)
    {
      var descId := desc * c.maxAgg + frame;
      assert descId == DescId(desc, frame) && Left(desc, frame, desc, frame);
      var virt := hal.BufUnmapTx(descId);
      if virt.None? {
        assert false;  // the unmapping never fails
      }
      txBufInfo[descId] := FmacBuf(false, None);
      ghost var n := frame + 1;
      forall d, g | 0 <= d < c.numTokens && 0 <= g < c.maxAgg ensures Left(desc, n, d, g) {
        assert old(Left(desc, frame, d, g));
        if d != desc || g != frame { DescIdInjective(d, g, desc, frame); }
      }
    }

    lemma StartUnmapping(desc: nat)
      requires Tables() && desc < c.numTokens
      ensures Unmapping(desc, 0)
    {
      forall d, f | 0 <= d < c.numTokens && 0 <= f < c.maxAgg ensures Left(desc, 0, d, f) {
        assert Agree(d, f);
      }
    }

    lemma NextMapped(desc: nat, frame: nat)
      requires desc < c.numTokens && Unmapping(desc, frame)
      requires frame < |live[desc]| || frame == 0
      ensures DescId(desc, frame) < txBufInfo.Length
      ensures txBufInfo[DescId(desc, frame)].mapped <==> live[desc] != []
    {
      assert Left(desc, frame, desc, frame);
    }

    /**
     The first loop of tx_done_process: unmap the buffers of a token.  A completion for a token that
     holds nothing fails at its first buffer, unless the token has never held anything.
     */
    method UnmapFrames(desc: nat) returns (ok: bool)
      requires Valid() && desc < c.numTokens
      modifies hal.txBufInfo, txBufInfo
      ensures ok <==> live[desc] != [] || coalesceCount[desc] == 0
      ensures Unmapping(desc, |live[desc]|)
    {
      var n := coalesceCount[desc];
      StartUnmapping(desc);
      for frame := 0 to n
        invariant Unmapping(desc, frame) && (live[desc] == [] ==> frame == 0)
      {
        NextMapped(desc, frame);
        if !txBufInfo[desc * c.maxAgg + frame].mapped {
          return false;
        }
        UnmapNext(desc, frame);
      }
      ok := true;
    }

    method UnmapBatch(desc: nat) returns (ok: bool)
      requires Valid() && desc < c.numTokens
      modifies this`live, hal.txBufInfo, txBufInfo
      ensures Valid()
      ensures ok <==> old(live[desc]) != [] || coalesceCount[desc] == 0
      ensures live == old(live)[desc := []]
    {
      ok := UnmapFrames(desc);
      ghost var n := |live[desc]|;
      label done:
      live := live[desc := []];
      forall d, f | 0 <= d < c.numTokens && 0 <= f < c.maxAgg ensures Agree(d, f) {
        assert old@done(Left(desc, n, d, f));
      }
    }
  }
}
