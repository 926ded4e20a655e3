/** nrf_wifi_hal_buf_map_tx and nrf_wifi_hal_buf_unmap_tx over the table of mapped buffers and data RAM. */
module HalTx {
  import opened Basics
  import opened TxConfig
  import opened Bounce

  /** One entry of tx_buf_info; all zero when nothing is mapped. */
  datatype BufInfo = BufInfo(mapped: bool, virt: Option<Frame>, phy: nat, len: nat)
  const NO_BUF: BufInfo := BufInfo(false, None, 0, 0)

  /** The entry that maps `f` at address `a`. */
  function Mapped(f: Frame, a: nat): BufInfo { BufInfo(true, Some(f), a, Room(f)) }

  class HalTx {
    const c: Config
    const txBufInfo: array<BufInfo>
    const ram: array<byte>
    var txFrameOffset: nat

    ghost predicate Valid()
      reads this, txBufInfo, ram
    {
      && c.Valid()
      && txBufInfo.Length == c.numTokens * c.maxAgg
      && ram.Length == c.ramSize
      && (txBufInfo as object) != (ram as object)
    }

    constructor (c: Config)
      requires c.Valid()
      ensures Valid() && this.c == c && fresh(txBufInfo) && fresh(ram)
      ensures forall i | 0 <= i < txBufInfo.Length :: txBufInfo[i] == NO_BUF
    {
      this.c := c;
      Scale(c.maxAgg, 0, c.numTokens);
      var n := c.numTokens * c.maxAgg;
      txBufInfo := new BufInfo[n](_ => NO_BUF);
      ram := new byte[c.ramSize](_ => 0);
      txFrameOffset := 0;
    }

    /** The address at which frame `index` of the batch of `token` will be placed. */
    ghost function Target(token: nat, index: nat): nat
      reads this
    {
      Align4(if index == 0 then c.base + c.TokenBase(token) else txFrameOffset)
    }

    method MemWrite(a: nat, bytes: seq<byte>)
      requires a + |bytes| <= ram.Length
      modifies ram
      ensures ram[..] == Write(old(ram[..]), a, bytes)
    {
      for i := 0 to |bytes|
        invariant forall j | 0 <= j < ram.Length ::
          ram[j] == if a <= j < a + i then bytes[j - a] else old(ram[j])
      {
        ram[a + i] := bytes[i];
      }
    }

    /**
     Copy a frame to its bounce buffer and map it.  `0` reports failure.  The code does not check
     that the bounce buffer lies in data RAM: that is the caller's to ensure.
     */
    method BufMapTx(f: Frame, descId: nat, token: nat, index: nat) returns (phy: nat)
      requires Valid() && descId < txBufInfo.Length
      requires !txBufInfo[descId].mapped && c.Mappable(f) ==>
                 c.base <= Target(token, index) && Target(token, index) - c.base + Room(f) <= c.ramSize
      modifies this`txFrameOffset, txBufInfo, ram
      ensures Valid()
      ensures forall i | 0 <= i < txBufInfo.Length && i != descId :: txBufInfo[i] == old(txBufInfo[i])
      ensures old(txBufInfo[descId].mapped) ==>
                phy == old(txBufInfo[descId].phy) && ram[..] == old(ram[..]) && txFrameOffset == old(txFrameOffset)
      ensures old(txBufInfo[descId]) == NO_BUF && !c.Mappable(f) ==>
                phy == 0 && !txBufInfo[descId].mapped && ram[..] == old(ram[..]) && txFrameOffset == old(txFrameOffset)
      ensures !old(txBufInfo[descId].mapped) && c.Mappable(f) ==>
                var a := old(Target(token, index));
                && phy == a > 0
                && txBufInfo[descId] == Mapped(f, a)
                && ram[..] == Write(old(ram[..]), a - c.base, Burst(f))
                && txFrameOffset == a + Room(f) + c.headroom
    {
      var info := txBufInfo[descId];
      if info.mapped {
        return info.phy;
      }
      txBufInfo[descId] := txBufInfo[descId].(virt := Some(f));
      if |f.data| + c.headroom > c.maxFrm {
        phy := txBufInfo[descId].phy;
        if phy != 0 { txBufInfo[descId] := txBufInfo[descId].(mapped := true); }
        return;
      }
      if index == 0 {
        txFrameOffset := c.base + token * c.tokenLen;
      }
      var bounce := Align4(txFrameOffset);
      var len := Align4(|f.data|);
      txFrameOffset := txFrameOffset + (bounce - txFrameOffset) + len + c.headroom;
      MemWrite(bounce - c.base, (f.data + f.slack)[..len]);
      txBufInfo[descId] := txBufInfo[descId].(phy := bounce, len := len, mapped := true);
      phy := bounce;
    }

    method BufUnmapTx(descId: nat) returns (virt: Option<Frame>)
      requires Valid() && descId < txBufInfo.Length
      modifies txBufInfo
      ensures Valid()
      ensures old(txBufInfo[descId].mapped) ==> virt == old(txBufInfo[descId].virt) && txBufInfo[descId] == NO_BUF
      ensures !old(txBufInfo[descId].mapped) ==> virt == None && txBufInfo[descId] == old(txBufInfo[descId])
      ensures forall i | 0 <= i < txBufInfo.Length && i != descId :: txBufInfo[i] == old(txBufInfo[i])
    {
      if !txBufInfo[descId].mapped {
        return None;
      }
      virt := txBufInfo[descId].virt;
      txBufInfo[descId] := NO_BUF;
    }
  }
}
