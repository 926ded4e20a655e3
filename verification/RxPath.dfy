/** The receive path: rx.c over the receive half of hal_api.c. */
module RxPath {
  import opened Basics
  import opened Bounce
  import opened RxLayout

  /** An entry of the FMAC's rx_buf_info, and one of the HAL's; a network buffer is known by its number. */
  datatype FmacRx = FmacRx(mapped: bool, nwb: nat)
  datatype HalRx = HalRx(mapped: bool, virt: nat, phy: nat)
  const NO_FMAC: FmacRx := FmacRx(false, 0)
  const NO_HAL: HalRx := HalRx(false, 0, 0)

  /** What the event says of one packet; `kind`: MPDU, MSDU with MAC header, MSDU, or nothing that is known. */
  datatype RxPkt = RxPkt(desc: nat, len: nat, kind: nat)
  datatype FrameType = DataFrame | Beacon | OtherFrame

  /** A frame handed to the network stack, before it is converted. */
  datatype Delivery = Delivery(nwb: nat, kind: nat, payload: seq<byte>)
  datatype Refill = Refill(addr: nat, desc: nat)

  /** Where a network buffer is. */
  datatype Place = Mapped(desc: nat) | Handed(i: nat) | Freed(i: nat) | Lost

  predicate GoodType(ty: FrameType, kind: nat) { ty == Beacon || (ty == DataFrame && kind <= 2) }

  function ByteOf(x: nat): byte
    requires x < 256
  {
    x as byte
  }

  /** The header that is written in front of a slot. */
  function Header(d: nat): (h: seq<byte>)
    ensures |h| == RX_BUF_HEADROOM
  {
    [ByteOf(d % 256), ByteOf(d / 256 % 256), ByteOf(d / 65536 % 256), ByteOf(d / 16777216 % 256)]
  }

  lemma Digits(d: nat, a0: nat, a1: nat, a2: nat, a3: nat)
    requires a0 < 256 && a1 < 256 && a2 < 256 && a3 < 256
    requires d == a0 + 256 * (a1 + 256 * (a2 + 256 * a3))
    ensures d % 256 == a0 && d / 256 % 256 == a1 && d / 65536 % 256 == a2 && d / 16777216 % 256 == a3
  {
    assert d / 256 == a1 + 256 * (a2 + 256 * a3);
    assert d / 65536 == a2 + 256 * a3;
    assert d / 16777216 == a3;
  }

  /** It is the number of the descriptor, the lowest byte first. */
  lemma HeaderBytes(d: nat, a0: nat, a1: nat, a2: nat, a3: nat)
    requires a0 < 256 && a1 < 256 && a2 < 256 && a3 < 256
    requires d == a0 + 256 * (a1 + 256 * (a2 + 256 * a3))
    ensures Header(d) == [ByteOf(a0), ByteOf(a1), ByteOf(a2), ByteOf(a3)]
  {
    Digits(d, a0, a1, a2, a3);
  }

  function SlotOf(c: RxConfig, d: nat): nat
    requires d < Total(c)
  {
    Slot(c, PoolOf(c, d), BufOf(c, d))
  }

  function SizeOf(c: RxConfig, d: nat): nat
    requires d < Total(c)
  {
    c.pools[PoolOf(c, d)].bufSz
  }

  /** The part of device memory that the RPU writes for descriptor `d`. */
  function Payload(c: RxConfig, mem: seq<byte>, d: nat): (bytes: seq<byte>)
    requires d < Total(c) && RxEnd(c) <= |mem|
    ensures |bytes| == SizeOf(c, d)
  {
    SlotInPool(c, PoolOf(c, d), BufOf(c, d));
    mem[SlotOf(c, d) + RX_BUF_HEADROOM..SlotOf(c, d) + RX_BUF_HEADROOM + SizeOf(c, d)]
  }

  /** What is handed up for a packet: the bytes that are in its slot. */
  function DeliveryOf(c: RxConfig, mem: seq<byte>, nwb: nat, pkt: RxPkt): Delivery
    requires pkt.desc < Total(c) && RxEnd(c) <= |mem| && pkt.len <= SizeOf(c, pkt.desc)
  {
    Delivery(nwb, pkt.kind, Payload(c, mem, pkt.desc)[..pkt.len])
  }

  lemma HeaderKeepsPayload(c: RxConfig, mem: seq<byte>, d: nat, e: nat)
    requires d < Total(c) && e < Total(c) && RxEnd(c) <= |mem|
    ensures Payload(c, Write(mem, SlotOf(c, d), Header(d)), e) == Payload(c, mem, e)
  {
    var p, b, q, a := PoolOf(c, d), BufOf(c, d), PoolOf(c, e), BufOf(c, e);
    SlotInPool(c, p, b);
    SlotInPool(c, q, a);
    if p < q || (p == q && b < a) {
      SlotsDisjoint(c, p, b, q, a);
    } else if q < p || (p == q && a < b) {
      SlotsDisjoint(c, q, a, p, b);
    }
    var at := SlotOf(c, e) + RX_BUF_HEADROOM;
    WriteKeeps(mem, SlotOf(c, d), Header(d), at, at + SizeOf(c, e));
  }

  ghost predicate SamePayloads(c: RxConfig, a: seq<byte>, b: seq<byte>) {
    && RxEnd(c) <= |a| && RxEnd(c) <= |b|
    && forall e | 0 <= e < Total(c) :: Payload(c, b, e) == Payload(c, a, e)
  }

  lemma HeaderKeepsPayloads(c: RxConfig, mem: seq<byte>, d: nat)
    requires d < Total(c) && RxEnd(c) <= |mem|
    ensures SamePayloads(c, mem, Write(mem, SlotOf(c, d), Header(d)))
  {
    forall e | 0 <= e < Total(c) ensures Payload(c, Write(mem, SlotOf(c, d), Header(d)), e) == Payload(c, mem, e) {
      HeaderKeepsPayload(c, mem, d, e);
    }
  }

  datatype Outcome = Received | NoSuchDesc | NotMapped | Unknown

  /** What becomes of a packet when the descriptors in `ready` are mapped. */
  function Judge(c: RxConfig, ready: set<nat>, ty: FrameType, pkt: RxPkt): Outcome {
    if pkt.desc >= Total(c) then NoSuchDesc
    else if pkt.desc !in ready then NotMapped
    else if GoodType(ty, pkt.kind) then Received
    else Unknown
  }

  /** The first packet that cannot be received. */
  function Stop(c: RxConfig, ready: set<nat>, ty: FrameType, pkts: seq<RxPkt>, i: nat): (n: nat)
    requires i <= |pkts|
    ensures i <= n <= |pkts|
    ensures forall j | i <= j < n :: Judge(c, ready, ty, pkts[j]) == Received
    ensures n < |pkts| ==> Judge(c, ready, ty, pkts[n]) != Received
    decreases |pkts| - i
  {
    if i < |pkts| && Judge(c, ready, ty, pkts[i]) == Received then Stop(c, ready, ty, pkts, i + 1) else i
  }

  function RefillOf(c: RxConfig, d: nat): Refill
    requires d < Total(c)
  {
    Refill(SlotOf(c, d) + RX_BUF_HEADROOM, d)
  }

  /** A refill names its descriptor and the place from which its next payload will be read, behind the header of the slot. */
  lemma RefillIs(c: RxConfig, mem: seq<byte>, d: nat)
    requires d < Total(c) && RxEnd(c) <= |mem|
    ensures var r := RefillOf(c, d);
            && r.desc == d && r.addr == SlotOf(c, d) + 4
            && r.addr + SizeOf(c, d) <= |mem| && Payload(c, mem, d) == mem[r.addr..r.addr + SizeOf(c, d)]
  {
    SlotInPool(c, PoolOf(c, d), BufOf(c, d));
  }

  /** With pools of one buffer size the slots lie one behind the other in the order of the descriptors. */
  lemma UniformSlot(c: RxConfig, sz: nat, d: nat)
    requires d < Total(c) && forall p | 0 <= p < |c.pools| :: c.pools[p].bufSz == sz
    ensures SlotOf(c, d) == c.start + d * (sz + 4) && SizeOf(c, d) == sz
  {
    var p, b := PoolOf(c, d), BufOf(c, d);
    UniformBase(c, sz, p);
    DescBijection(c, p, b, FirstDesc(c, p) + b);
    assert (FirstDesc(c, p) + b) * (sz + 4) == FirstDesc(c, p) * (sz + 4) + b * (sz + 4);
    DescsSame(c, d, FirstDesc(c, p) + b);
  }

  lemma DescsSame(c: RxConfig, d: nat, e: nat)
    requires d < Total(c) && e < Total(c) && PoolOf(c, d) == PoolOf(c, e) && BufOf(c, d) == BufOf(c, e)
    ensures d == e
  {
    if d != e { DescsDiffer(c, d, e); }
  }

  lemma {:induction false} UniformBase(c: RxConfig, sz: nat, p: nat)
    requires p <= |c.pools| && forall q | 0 <= q < |c.pools| :: c.pools[q].bufSz == sz
    ensures PoolBase(c, p) == c.start + FirstDesc(c, p) * (sz + 4)
  {
    if p > 0 {
      UniformBase(c, sz, p - 1);
      var a, n := FirstDesc(c, p - 1), c.pools[p - 1].numBufs;
      assert (a + n) * (sz + 4) == a * (sz + 4) + n * (sz + 4);
    }
  }

  function RefillsOf(c: RxConfig, pkts: seq<RxPkt>): seq<Refill>
    requires forall i | 0 <= i < |pkts| :: pkts[i].desc < Total(c)
  {
    seq(|pkts|, i requires 0 <= i < |pkts| => RefillOf(c, pkts[i].desc))
  }

  ghost predicate RefillsSoFar(c: RxConfig, refill: seq<Refill>, pkts: seq<RxPkt>, n: nat) {
    |refill| == n <= |pkts| && forall j | 0 <= j < n :: pkts[j].desc < Total(c) && refill[j] == RefillOf(c, pkts[j].desc)
  }

  lemma RefillsGrow(c: RxConfig, refill: seq<Refill>, pkts: seq<RxPkt>, n: nat)
    requires RefillsSoFar(c, refill, pkts, n) && n < |pkts| && pkts[n].desc < Total(c)
    ensures RefillsSoFar(c, refill + [RefillOf(c, pkts[n].desc)], pkts, n + 1)
  {
  }

  lemma RefillsAll(c: RxConfig, refill: seq<Refill>, pkts: seq<RxPkt>)
    requires RefillsSoFar(c, refill, pkts, |pkts|)
    ensures (forall i | 0 <= i < |pkts| :: pkts[i].desc < Total(c)) && refill == RefillsOf(c, pkts)
  {
  }

  function Below(n: nat): (s: set<nat>)
    ensures forall d: nat :: d in s <==> d < n
  {
    if n == 0 then {} else Below(n - 1) + {n - 1}
  }

  function AllDescs(c: RxConfig): set<nat> { Below(Total(c)) }

  /** The descriptors that are mapped after an event, when those in `ready` were before. */
  function Left(c: RxConfig, ready: set<nat>, ty: FrameType, pkts: seq<RxPkt>): set<nat> {
    var n := Stop(c, ready, ty, pkts, 0);
    if n < |pkts| && Judge(c, ready, ty, pkts[n]) == Unknown then ready - {pkts[n].desc} else ready
  }

  /**
   Every descriptor is mapped again after an event exactly when all were mapped before and no packet
   of a type that nobody knows comes before a descriptor that does not exist.
   */
  lemma AllMappedAgainIff(c: RxConfig, ready: set<nat>, ty: FrameType, pkts: seq<RxPkt>)
    requires ready <= AllDescs(c)
    ensures Left(c, ready, ty, pkts) == AllDescs(c) <==> ready == AllDescs(c) && StopsClean(c, ty, pkts)
  {
    var n := Stop(c, ready, ty, pkts, 0);
    if ready == AllDescs(c) {
      assert forall i | 0 <= i < n :: Judge(c, ready, ty, pkts[i]) == Received;
      if n < |pkts| && pkts[n].desc < Total(c) {
        assert pkts[n].desc in ready && !GoodType(ty, pkts[n].kind);
        assert pkts[n].desc !in Left(c, ready, ty, pkts);
      }
    } else {
      var d :| d in AllDescs(c) && d !in ready;
      assert d !in Left(c, ready, ty, pkts);
    }
  }

  /** A packet for a mapped descriptor is received exactly when it is a beacon or probe response, or data of one of the three types (0 to 2). */
  lemma ReceivedIff(c: RxConfig, ready: set<nat>, ty: FrameType, pkt: RxPkt)
    requires pkt.desc < Total(c) && pkt.desc in ready
    ensures Judge(c, ready, ty, pkt) == Received <==> ty.Beacon? || (ty.DataFrame? && pkt.kind in {0, 1, 2})
    ensures Judge(c, ready, ty, pkt) in {Received, Unknown}
  {
  }

  /** A packet for any other descriptor is not received, and the two reasons are kept apart. */
  lemma NotReceived(c: RxConfig, ready: set<nat>, ty: FrameType, pkt: RxPkt)
    ensures Judge(c, ready, ty, pkt) == NoSuchDesc <==> pkt.desc >= Total(c)
    ensures Judge(c, ready, ty, pkt) == NotMapped <==> pkt.desc < Total(c) && pkt.desc !in ready
  {
  }

  /** Packets that are all received. */
  predicate AllGood(c: RxConfig, ready: set<nat>, ty: FrameType, pkts: seq<RxPkt>) {
    forall i | 0 <= i < |pkts| ::
      pkts[i].desc < Total(c) && pkts[i].desc in ready && (ty.Beacon? || (ty.DataFrame? && pkts[i].kind in {0, 1, 2}))
  }

  /** An event of such packets is received to the end, and every descriptor stays mapped. */
  lemma {:induction false} AllGoodReceived(c: RxConfig, ready: set<nat>, ty: FrameType, pkts: seq<RxPkt>)
    requires AllGood(c, ready, ty, pkts)
    ensures Stop(c, ready, ty, pkts, 0) == |pkts| && Left(c, ready, ty, pkts) == ready
  {
    var n := Stop(c, ready, ty, pkts, 0);
    if n < |pkts| { ReceivedIff(c, ready, ty, pkts[n]); }
  }

  /** For instance, a single packet of type 3 for a mapped descriptor leaves that descriptor unmapped. */
  lemma UnknownTypeUnmaps(c: RxConfig, d: nat, len: nat)
    requires d < Total(c)
    ensures Left(c, AllDescs(c), DataFrame, [RxPkt(d, len, 3)]) == AllDescs(c) - {d} != AllDescs(c)
  {
    assert d in AllDescs(c);
  }

  /** What a caller can see of an event: the first packet that is not good names no descriptor. */
  predicate StopsClean(c: RxConfig, ty: FrameType, pkts: seq<RxPkt>) {
    forall i | 0 <= i < |pkts| && pkts[i].desc < Total(c) && !GoodType(ty, pkts[i].kind) ::
      exists j :: 0 <= j < i && pkts[j].desc >= Total(c)
  }

  function ReadyOf(table: seq<FmacRx>): set<nat> {
    set d: nat | 0 <= d < |table| && table[d].mapped
  }

  lemma ReadyUpdate(table: seq<FmacRx>, d: nat, x: FmacRx)
    requires d < |table|
    ensures ReadyOf(table[d := x]) == if x.mapped then ReadyOf(table) + {d} else ReadyOf(table) - {d}
  {
  }

  lemma BackIn(ready: set<nat>, d: nat)
    requires d in ready
    ensures ready - {d} + {d} == ready
  {
  }

  ghost predicate DeliveredOne(c: RxConfig, mem0: seq<byte>, h: Delivery, pkt: RxPkt)
    requires RxEnd(c) <= |mem0|
  {
    && pkt.desc < Total(c) && pkt.len <= SizeOf(c, pkt.desc)
    && h.kind == pkt.kind && h.payload == Payload(c, mem0, pkt.desc)[..pkt.len]
  }

  /**
   Since memory was `mem0` and the two lists were `handed0` and `freed0`, the first `n` packets have
   been received: each was handed up, with the bytes that were in its slot, or freed.
   */
  ghost predicate SoFar(c: RxConfig, mem0: seq<byte>, handed0: seq<Delivery>, handed: seq<Delivery>,
                        freed0: seq<nat>, freed: seq<nat>, ty: FrameType, pkts: seq<RxPkt>, n: nat)
    requires RxEnd(c) <= |mem0|
  {
    && n <= |pkts|
    && |handed| == |handed0| + (if ty == DataFrame then n else 0) && handed0 <= handed
    && (ty == DataFrame ==> forall j | 0 <= j < n :: DeliveredOne(c, mem0, handed[|handed0| + j], pkts[j]))
    && |freed| == |freed0| + (if ty == Beacon then n else 0) && freed0 <= freed
  }

  lemma SoFarGrows(c: RxConfig, mem0: seq<byte>, handed0: seq<Delivery>, handed: seq<Delivery>,
                   freed0: seq<nat>, freed: seq<nat>, ty: FrameType, pkts: seq<RxPkt>, n: nat, h: Delivery, f: nat)
    requires RxEnd(c) <= |mem0| && SoFar(c, mem0, handed0, handed, freed0, freed, ty, pkts, n) && n < |pkts|
    requires ty != OtherFrame && (ty == DataFrame ==> DeliveredOne(c, mem0, h, pkts[n]))
    ensures SoFar(c, mem0, handed0, if ty == DataFrame then handed + [h] else handed,
                  freed0, if ty == Beacon then freed + [f] else freed, ty, pkts, n + 1)
  {
  }

  class RxPath {
    const c: RxConfig
    const rxDesc: seq<nat>
    var rxBufInfo: seq<FmacRx>
    var halBufInfo: seq<seq<HalRx>>
    var mem: seq<byte>
    var nextNwb: nat
    var handed: seq<Delivery>
    var freed: seq<nat>
    var refills: seq<seq<Refill>>
    ghost var place: seq<Place>

    ghost predicate Sized()
      reads this
    {
      && |rxDesc| == |c.pools| == |halBufInfo|
      && (forall p | 0 <= p < |c.pools| :: rxDesc[p] == FirstDesc(c, p))
      && |rxBufInfo| == Total(c)
      && (forall p | 0 <= p < |c.pools| :: |halBufInfo[p]| == c.pools[p].numBufs)
      && RxEnd(c) <= |mem|
      && |place| == nextNwb
    }

    ghost function Hal(d: nat): HalRx
      requires Sized() && d < Total(c)
      reads this
    {
      halBufInfo[PoolOf(c, d)][BufOf(c, d)]
    }

    ghost predicate Ready(d: nat)
      requires Sized() && d < Total(c)
      reads this
    {
      rxBufInfo[d].mapped
    }

    /** The two tables agree about descriptor `d`, and its buffer is its own. */
    ghost predicate Agree(d: nat)
      requires Sized() && d < Total(c)
      reads this
    {
      if rxBufInfo[d].mapped then
        && rxBufInfo[d].nwb < nextNwb && place[rxBufInfo[d].nwb] == Mapped(d)
        && Hal(d) == HalRx(true, rxBufInfo[d].nwb, SlotOf(c, d) + RX_BUF_HEADROOM)
      else rxBufInfo[d] == NO_FMAC && Hal(d) == NO_HAL
    }

    /** Buffer `n` is where it is said to be, and therefore nowhere else. */
    ghost predicate InPlace(n: nat)
      requires Sized() && n < nextNwb
      reads this
    {
      match place[n]
      case Mapped(d) => d < Total(c) && rxBufInfo[d] == FmacRx(true, n)
      case Handed(i) => i < |handed| && handed[i].nwb == n
      case Freed(i) => i < |freed| && freed[i] == n
      case Lost => true
    }

    /** What has left is recorded once. */
    ghost predicate Gone()
      requires Sized()
      reads this
    {
      && (forall i | 0 <= i < |handed| :: handed[i].nwb < nextNwb && place[handed[i].nwb] == Handed(i))
      && (forall i | 0 <= i < |freed| :: freed[i] < nextNwb && place[freed[i]] == Freed(i))
    }

    ghost predicate Valid()
      reads this
    {
      && Sized()
      && (forall d | 0 <= d < Total(c) :: Agree(d))
      && (forall n | 0 <= n < nextNwb :: InPlace(n))
      && Gone()
    }

    /** nrf_wifi_fmac_map_desc_to_pool. */
    method MapDescToPool(descId: nat) returns (ok: bool, poolId: nat, bufId: nat)
      requires Sized()
      ensures ok <==> descId < Total(c)
      ensures ok ==> poolId == PoolOf(c, descId) && bufId == BufOf(c, descId)
    {
      poolId := 0;
      while poolId < |c.pools|
        invariant poolId <= |c.pools| && descId >= FirstDesc(c, poolId)
      {
        if descId >= rxDesc[poolId] && descId < rxDesc[poolId] + c.pools[poolId].numBufs {
          bufId := descId - rxDesc[poolId];
          FirstDescGrows(c, poolId + 1, |c.pools|);
          DescUnique(c, poolId, bufId, descId);
          return true, poolId, bufId;
        }
        poolId := poolId + 1;
      }
      return false, 0, 0;
    }

    // ------------------------------------------------------------- the HAL

    /** nrf_wifi_hal_buf_map_rx; `0` reports failure.  DMA mapping and device writes succeed. */
    method BufMapRx(virt: nat, header: seq<byte>, bufLen: nat, poolId: nat, bufId: nat) returns (phy: nat)
      requires Sized() && InPool(c, poolId, bufId) && |header| == RX_BUF_HEADROOM
      modifies this`halBufInfo, this`mem
      ensures Sized()
      ensures var info := old(halBufInfo[poolId][bufId]);
              if info.mapped then phy == info.phy && halBufInfo == old(halBufInfo) && mem == old(mem)
              else if bufLen != c.pools[poolId].SlotLen() then
                && phy == info.phy && mem == old(mem)
                && halBufInfo == old(halBufInfo)[poolId := old(halBufInfo)[poolId][bufId := HalRx(phy != 0, virt, phy)]]
              else
                && phy == Slot(c, poolId, bufId) + RX_BUF_HEADROOM
                && halBufInfo == old(halBufInfo)[poolId := old(halBufInfo)[poolId][bufId := HalRx(true, virt, phy)]]
                && mem == Write(old(mem), Slot(c, poolId, bufId), header)
    {
      var info := halBufInfo[poolId][bufId];
      if info.mapped {
        return info.phy;
      }
      if bufLen != c.pools[poolId].SlotLen() {
        halBufInfo := halBufInfo[poolId := halBufInfo[poolId][bufId := HalRx(info.phy != 0, virt, info.phy)]];
        return info.phy;
      }
      var bounce := PoolBase(c, poolId) + bufId * bufLen;
      SlotInPool(c, poolId, bufId);
      mem := mem[..bounce] + header + mem[bounce + RX_BUF_HEADROOM..];
      phy := bounce + RX_BUF_HEADROOM;
      halBufInfo := halBufInfo[poolId := halBufInfo[poolId][bufId := HalRx(true, virt, phy)]];
    }

    /** nrf_wifi_hal_buf_unmap_rx: the buffer, and what was read into it behind the header. */
    method BufUnmapRx(dataLen: nat, poolId: nat, bufId: nat) returns (virt: Option<nat>, data: seq<byte>)
      requires Sized() && InPool(c, poolId, bufId)
      requires halBufInfo[poolId][bufId].mapped ==> halBufInfo[poolId][bufId].phy + dataLen <= |mem|
      modifies this`halBufInfo
      ensures Sized()
      ensures var info := old(halBufInfo[poolId][bufId]);
              if info.mapped then
                && virt == Some(info.virt) && data == mem[info.phy..info.phy + dataLen]
                && halBufInfo == old(halBufInfo)[poolId := old(halBufInfo)[poolId][bufId := NO_HAL]]
              else virt == None && halBufInfo == old(halBufInfo)
    {
      var info := halBufInfo[poolId][bufId];
      data := [];
      if !info.mapped {
        return None, data;
      }
      if dataLen > 0 {
        data := mem[info.phy..info.phy + dataLen];
      }
      halBufInfo := halBufInfo[poolId := halBufInfo[poolId][bufId := NO_HAL]];
      virt := Some(info.virt);
    }

    /** The descriptors that have a buffer mapped. */
    ghost function ReadySet(): set<nat>
      requires Sized()
      reads this
    {
      ReadyOf(rxBufInfo)
    }

    // ------------------------------------------------------- one descriptor

    lemma HalElsewhere(table: seq<seq<HalRx>>, d: nat, x: HalRx, e: nat)
      requires |table| == |c.pools| && (forall p | 0 <= p < |c.pools| :: |table[p]| == c.pools[p].numBufs)
      requires d < Total(c) && e < Total(c)
      ensures table[PoolOf(c, d) := table[PoolOf(c, d)][BufOf(c, d) := x]][PoolOf(c, e)][BufOf(c, e)]
           == if e == d then x else table[PoolOf(c, e)][BufOf(c, e)]
    {
      if d != e { DescsDiffer(c, d, e); }
    }

    /** The buffer of a descriptor is unmapped from both tables; where it goes is not yet decided. */
    method Take(descId: nat, len: nat) returns (nwb: nat, payload: seq<byte>)
      requires Valid() && descId < Total(c) && Ready(descId) && len <= SizeOf(c, descId)
      modifies this`rxBufInfo, this`halBufInfo, this`place
      ensures Valid()
      ensures nwb == old(rxBufInfo[descId].nwb) < nextNwb && place == old(place)[nwb := Lost]
      ensures rxBufInfo == old(rxBufInfo)[descId := NO_FMAC]
      ensures payload == Payload(c, mem, descId)[..len]
    {
      assert Agree(descId);
      SlotInPool(c, PoolOf(c, descId), BufOf(c, descId));
      var ok, poolId, bufId := MapDescToPool(descId);
      var virt, data := BufUnmapRx(len, poolId, bufId);
      payload := data;
      nwb := rxBufInfo[descId].nwb;
      rxBufInfo := rxBufInfo[descId := NO_FMAC];
      place := place[nwb := Lost];
      forall e | 0 <= e < Total(c) ensures Agree(e) {
        assert old(Agree(e));
        HalElsewhere(old(halBufInfo), descId, NO_HAL, e);
      }
      forall n | 0 <= n < nextNwb ensures InPlace(n) { assert old(InPlace(n)); }
    }

    /** The INIT half of nrf_wifi_fmac_rx_cmd_send: a fresh buffer is allocated and mapped. */
    method RxCmdInit(descId: nat) returns (ok: bool)
      requires Valid()
      modifies this`rxBufInfo, this`halBufInfo, this`mem, this`nextNwb, this`place
      ensures Valid()
      ensures ok <==> descId < Total(c) && !old(Ready(descId))
      ensures !ok ==> rxBufInfo == old(rxBufInfo) && mem == old(mem)
      ensures ok ==> rxBufInfo == old(rxBufInfo)[descId := FmacRx(true, old(nextNwb))]
      ensures ok ==> mem == Write(old(mem), SlotOf(c, descId), Header(descId))
    {
      var found, poolId, bufId := MapDescToPool(descId);
      if !found {
        return false;
      }
      assert Agree(descId);
      var bufLen := c.pools[poolId].bufSz + RX_BUF_HEADROOM;
      if rxBufInfo[descId].mapped {
        return false;
      }
      var nwb := nextNwb;
      var phy := BufMapRx(nwb, Header(descId), bufLen, poolId, bufId);
      nextNwb := nextNwb + 1;
      place := place + [Mapped(descId)];
      rxBufInfo := rxBufInfo[descId := FmacRx(true, nwb)];
      forall e | 0 <= e < Total(c) ensures Agree(e) {
        assert old(Agree(e));
        HalElsewhere(old(halBufInfo), descId, HalRx(true, nwb, phy), e);
      }
      forall n | 0 <= n < nextNwb ensures InPlace(n) { if n < nwb { assert old(InPlace(n)); } }
      ok := true;
    }

    method HandUp(nwb: nat, kind: nat, payload: seq<byte>)
      requires Valid() && nwb < nextNwb && place[nwb] == Lost
      modifies this`handed, this`place
      ensures Valid() && handed == old(handed) + [Delivery(nwb, kind, payload)]
    {
      handed := handed + [Delivery(nwb, kind, payload)];
      place := place[nwb := Handed(|handed| - 1)];
      forall e | 0 <= e < Total(c) ensures Agree(e) { assert old(Agree(e)); }
      forall n | 0 <= n < nextNwb ensures InPlace(n) { assert old(InPlace(n)); }
    }

    method FreeNwb(nwb: nat)
      requires Valid() && nwb < nextNwb && place[nwb] == Lost
      modifies this`freed, this`place
      ensures Valid() && freed == old(freed) + [nwb]
    {
      freed := freed + [nwb];
      place := place[nwb := Freed(|freed| - 1)];
      forall e | 0 <= e < Total(c) ensures Agree(e) { assert old(Agree(e)); }
      forall n | 0 <= n < nextNwb ensures InPlace(n) { assert old(InPlace(n)); }
    }

    /** A received buffer goes to the network stack or, with a beacon in it, is freed; the rest is forgotten. */
    method Dispose(ty: FrameType, kind: nat, nwb: nat, payload: seq<byte>) returns (known: bool)
      requires Valid() && nwb < nextNwb && place[nwb] == Lost
      modifies this`handed, this`freed, this`place
      ensures Valid()
      ensures known <==> GoodType(ty, kind)
      ensures handed == if known && ty == DataFrame then old(handed) + [Delivery(nwb, kind, payload)] else old(handed)
      ensures freed == if known && ty == Beacon then old(freed) + [nwb] else old(freed)
    {
      if ty == DataFrame {
        if kind > 2 {
          return false;
        }
        HandUp(nwb, kind, payload);
      } else if ty == Beacon {
        FreeNwb(nwb);
      } else {
        return false;
      }
      known := true;
    }

    // ------------------------------------------------------------- events

    /** What mapping a descriptor to its pool, and unmapping it, will find. */
    method FindMapped(descId: nat) returns (found: bool, mapped: bool)
      requires Valid()
      ensures found <==> descId < Total(c)
      ensures mapped <==> descId in ReadySet()
    {
      var poolId, bufId;
      found, poolId, bufId := MapDescToPool(descId);
      mapped := false;
      if found {
        assert Agree(descId);
        mapped := halBufInfo[poolId][bufId].mapped;
      }
    }

    /** The buffer of a mapped descriptor is unmapped and handed up or freed; the descriptor is left without. */
    method Deliver(ty: FrameType, pkt: RxPkt) returns (known: bool, nwb: nat)
      requires Valid() && pkt.desc in ReadySet() && pkt.len <= SizeOf(c, pkt.desc)
      modifies this`rxBufInfo, this`halBufInfo, this`place, this`handed, this`freed
      ensures Valid()
      ensures known <==> GoodType(ty, pkt.kind)
      ensures ReadySet() == old(ReadySet()) - {pkt.desc}
      ensures handed == if known && ty == DataFrame
                        then old(handed) + [DeliveryOf(c, mem, nwb, pkt)]
                        else old(handed)
      ensures freed == if known && ty == Beacon then old(freed) + [nwb] else old(freed)
    {
      ReadyUpdate(rxBufInfo, pkt.desc, NO_FMAC);
      var payload;
      nwb, payload := Take(pkt.desc, pkt.len);
      known := Dispose(ty, pkt.kind, nwb, payload);
    }

    /** A fresh buffer for a descriptor without one. */
    method Refit(descId: nat)
      requires Valid() && descId < Total(c) && descId !in ReadySet()
      modifies this`rxBufInfo, this`halBufInfo, this`mem, this`nextNwb, this`place
      ensures Valid() && ReadySet() == old(ReadySet()) + {descId}
      ensures SamePayloads(c, old(mem), mem)
    {
      ReadyUpdate(rxBufInfo, descId, FmacRx(true, nextNwb));
      HeaderKeepsPayloads(c, mem, descId);
      var ok := RxCmdInit(descId);
      assert ok;
    }

    /**
     A packet for a descriptor that is mapped: its buffer is handed up or freed and the descriptor gets a
     new one.  With a type that nobody knows the buffer is lost and the descriptor stays unmapped.
     */
    method ReceiveMapped(ty: FrameType, pkt: RxPkt) returns (known: bool, nwb: nat)
      requires Valid() && pkt.desc in ReadySet() && pkt.len <= SizeOf(c, pkt.desc)
      modifies this`rxBufInfo, this`halBufInfo, this`mem, this`nextNwb, this`place, this`handed, this`freed
      ensures Valid()
      ensures known <==> GoodType(ty, pkt.kind)
      ensures ReadySet() == if known then old(ReadySet()) else old(ReadySet()) - {pkt.desc}
      ensures SamePayloads(c, old(mem), mem)
      ensures handed == if known && ty == DataFrame
                        then old(handed) + [DeliveryOf(c, old(mem), nwb, pkt)]
                        else old(handed)
      ensures freed == if known && ty == Beacon then old(freed) + [nwb] else old(freed)
    {
      BackIn(ReadySet(), pkt.desc);
      known, nwb := Deliver(ty, pkt);
      if known {
        Refit(pkt.desc);
      }
    }

    /** One round of the loop of nrf_wifi_fmac_rx_event_process. */
    method ReceiveOne(ty: FrameType, pkt: RxPkt) returns (outcome: Outcome, nwb: nat)
      requires Valid() && (pkt.desc < Total(c) ==> pkt.len <= SizeOf(c, pkt.desc))
      modifies this`rxBufInfo, this`halBufInfo, this`mem, this`nextNwb, this`place, this`handed, this`freed
      ensures Valid()
      ensures outcome == Judge(c, old(ReadySet()), ty, pkt)
      ensures ReadySet() == if outcome == Unknown then old(ReadySet()) - {pkt.desc} else old(ReadySet())
      ensures SamePayloads(c, old(mem), mem)
      ensures outcome == Received ==> pkt.desc < Total(c)
      ensures handed == if outcome == Received && ty == DataFrame
                        then old(handed) + [DeliveryOf(c, old(mem), nwb, pkt)]
                        else old(handed)
      ensures freed == if outcome == Received && ty == Beacon then old(freed) + [nwb] else old(freed)
    {
      var found, mapped := FindMapped(pkt.desc);
      nwb := 0;
      if !found {
        return NoSuchDesc, nwb;
      }
      if !mapped {
        return NotMapped, nwb;
      }
      var known;
      known, nwb := ReceiveMapped(ty, pkt);
      outcome := if known then Received else Unknown;
    }

    /** nrf_wifi_fmac_get_rx_buf_map_addr: the address of a mapped buffer, for the refill command. */
    method RefillAddr(descId: nat) returns (addr: nat)
      requires Valid() && descId < Total(c) && descId in ReadySet()
      ensures addr == SlotOf(c, descId) + RX_BUF_HEADROOM
    {
      assert Ready(descId) && Agree(descId);
      var ok, poolId, bufId := MapDescToPool(descId);
      addr := halBufInfo[poolId][bufId].phy;
    }

    /** SoFar, for the two lists as they are now. */
    ghost predicate Done(mem0: seq<byte>, handed0: seq<Delivery>, freed0: seq<nat>, ty: FrameType, pkts: seq<RxPkt>, n: nat)
      requires RxEnd(c) <= |mem0|
      reads this`handed, this`freed
    {
      SoFar(c, mem0, handed0, handed, freed0, freed, ty, pkts, n)
    }

    method ReceiveNext(ty: FrameType, pkts: seq<RxPkt>, n: nat,
                       ghost mem0: seq<byte>, ghost handed0: seq<Delivery>, ghost freed0: seq<nat>)
      returns (outcome: Outcome, refill: Refill)
      requires Valid() && n < |pkts| && (pkts[n].desc < Total(c) ==> pkts[n].len <= SizeOf(c, pkts[n].desc))
      requires SamePayloads(c, mem0, mem) && Done(mem0, handed0, freed0, ty, pkts, n)
      modifies this`rxBufInfo, this`halBufInfo, this`mem, this`nextNwb, this`place, this`handed, this`freed
      ensures Valid() && SamePayloads(c, mem0, mem)
      ensures outcome == Judge(c, old(ReadySet()), ty, pkts[n])
      ensures ReadySet() == if outcome == Unknown then old(ReadySet()) - {pkts[n].desc} else old(ReadySet())
      ensures Done(mem0, handed0, freed0, ty, pkts, if outcome == Received then n + 1 else n)
      ensures outcome == Received ==> pkts[n].desc < Total(c) && refill == RefillOf(c, pkts[n].desc)
    {
      refill := Refill(0, 0);
      var nwb;
      outcome, nwb := ReceiveOne(ty, pkts[n]);
      if outcome == Received {
        SoFarGrows(c, mem0, handed0, old(handed), freed0, old(freed), ty, pkts, n,
                   Delivery(nwb, pkts[n].kind, Payload(c, old(mem), pkts[n].desc)[..pkts[n].len]), nwb);
        var addr := RefillAddr(pkts[n].desc);
        refill := Refill(addr, pkts[n].desc);
      }
    }

    /** The loop of nrf_wifi_fmac_rx_event_process: packets are received up to the first that cannot be. */
    method ReceiveAll(ty: FrameType, pkts: seq<RxPkt>) returns (outcome: Outcome, refill: seq<Refill>, ghost n: nat)
      requires Valid() && forall i | 0 <= i < |pkts| && pkts[i].desc < Total(c) :: pkts[i].len <= SizeOf(c, pkts[i].desc)
      modifies this`rxBufInfo, this`halBufInfo, this`mem, this`nextNwb, this`place, this`handed, this`freed
      ensures Valid()
      ensures n == Stop(c, old(ReadySet()), ty, pkts, 0)
      ensures outcome == if n == |pkts| then Received else Judge(c, old(ReadySet()), ty, pkts[n])
      ensures ReadySet() == if outcome == Unknown then old(ReadySet()) - {pkts[n].desc} else old(ReadySet())
      ensures SoFar(c, old(mem), old(handed), handed, old(freed), freed, ty, pkts, n)
      ensures outcome == Received ==> refill == RefillsOf(c, pkts)
    {
      ghost var mem0, handed0, freed0, ready := mem, handed, freed, ReadySet();
      refill, outcome, n := [], Received, 0;
      var i := 0;
      while i < |pkts|
        invariant i == n <= |pkts| && Valid() && outcome == Received && ReadySet() == ready
        invariant Stop(c, ready, ty, pkts, 0) == Stop(c, ready, ty, pkts, n)
        invariant SamePayloads(c, mem0, mem) && Done(mem0, handed0, freed0, ty, pkts, n)
        invariant RefillsSoFar(c, refill, pkts, n)
      {
        var next: Refill;
        outcome, next := ReceiveNext(ty, pkts, i, mem0, handed0, freed0);
        if outcome != Received {
          return;
        }
        RefillsGrow(c, refill, pkts, n);
        refill := refill + [next];
        i, n := i + 1, n + 1;
      }
      RefillsAll(c, refill, pkts);
    }

    /**
     nrf_wifi_fmac_rx_event_process, refilling by command.  A packet for a descriptor that is not
     mapped ends the event early and yet it is reported as a success.
     */
    method EventProcess(ty: FrameType, pkts: seq<RxPkt>) returns (ok: bool, ghost n: nat)
      requires Valid() && forall i | 0 <= i < |pkts| && pkts[i].desc < Total(c) :: pkts[i].len <= SizeOf(c, pkts[i].desc)
      modifies this
      ensures Valid()
      ensures n == Stop(c, old(ReadySet()), ty, pkts, 0)
      ensures ok <==> n == |pkts| || Judge(c, old(ReadySet()), ty, pkts[n]) == NotMapped
      ensures SoFar(c, old(mem), old(handed), handed, old(freed), freed, ty, pkts, n)
      ensures refills == if n == |pkts| then old(refills) + [RefillsOf(c, pkts)] else old(refills)
      ensures ReadySet() == Left(c, old(ReadySet()), ty, pkts)
      ensures AllGood(c, old(ReadySet()), ty, pkts) ==> ok && n == |pkts| && ReadySet() == old(ReadySet())
    {
      if AllGood(c, ReadySet(), ty, pkts) { AllGoodReceived(c, ReadySet(), ty, pkts); }
      var outcome, refill;
      outcome, refill, n := ReceiveAll(ty, pkts);
      if outcome == Received {
        SendRefill(refill);
      }
      ok := outcome == Received || outcome == NotMapped;
    }

    /** nrf_wifi_fmac_prog_rx_buf_info. */
    method SendRefill(refill: seq<Refill>)
      requires Valid()
      modifies this`refills
      ensures Valid() && refills == old(refills) + [refill]
    {
      refills := refills + [refill];
      forall e | 0 <= e < Total(c) ensures Agree(e) { assert old(Agree(e)); }
      forall n | 0 <= n < nextNwb ensures InPlace(n) { assert old(InPlace(n)); }
    }

    /** Each buffer that left was handed up once or freed once, and is no longer mapped. */
    lemma GoneOnce(i: nat, j: nat)
      requires Valid()
      ensures i < |handed| && j < |handed| && i != j ==> handed[i].nwb != handed[j].nwb
      ensures i < |freed| && j < |freed| && i != j ==> freed[i] != freed[j]
      ensures i < |handed| && j < |freed| ==> handed[i].nwb != freed[j]
      ensures i < |handed| && j < Total(c) && Ready(j) ==> rxBufInfo[j].nwb != handed[i].nwb
      ensures i < |freed| && j < Total(c) && Ready(j) ==> rxBufInfo[j].nwb != freed[i]
    {
      if j < Total(c) { assert Agree(j); }
    }

    // ------------------------------------------------------------ start-up

    constructor (c: RxConfig, mem: seq<byte>)
      requires RxEnd(c) <= |mem|
      ensures Valid() && this.c == c && this.mem == mem && ReadySet() == {}
      ensures handed == [] && freed == [] && refills == []
    {
      this.c := c;
      rxDesc := seq(|c.pools|, p requires 0 <= p < |c.pools| => FirstDesc(c, p));
      rxBufInfo := seq(Total(c), _ => NO_FMAC);
      halBufInfo := seq(|c.pools|, p requires 0 <= p < |c.pools| => seq(c.pools[p].numBufs, _ => NO_HAL));
      this.mem := mem;
      nextNwb, handed, freed, refills, place := 0, [], [], [], [];
    }

    /** nrf_wifi_fmac_init_rx: every descriptor gets its first buffer. */
    method InitRx()
      requires Valid() && ReadySet() == {}
      modifies this`rxBufInfo, this`halBufInfo, this`mem, this`nextNwb, this`place
      ensures Valid() && ReadySet() == AllDescs(c)
    {
      var descId := 0;
      while descId < Total(c)
        invariant 0 <= descId <= Total(c) && Valid() && ReadySet() == Below(descId)
      {
        Refit(descId);
        descId := descId + 1;
      }
    }
  }
}
