/**
 From 802.11 to Ethernet: fmac_util.c and the part of the receive loop that calls it.  A received
 frame is one MPDU, or an A-MSDU subframe with or without the MAC header in front of it.
 */
module Deencap {
  import opened Basics

  type u16 = bv16

  function Hi(x: u16): byte { ((x >> 8) & 0xFF) as byte }
  function Lo(x: u16): byte { (x & 0xFF) as byte }

  /** The two bytes of a 16-bit field in memory, on a little-endian host. */
  function Stored(x: u16): seq<byte> { [Lo(x), Hi(x)] }

  /** In network order. */
  function Network(x: u16): seq<byte> { [Hi(x), Lo(x)] }

  function Swap(x: u16): u16 { (x >> 8) | (x << 8) }

  lemma SwapIsNetwork(x: u16)
    ensures Stored(Swap(x)) == Network(x)
  {
    assert Lo(Swap(x)) == Hi(x);
    assert Hi(Swap(x)) == Lo(x);
  }

  /** A length that is stored as it is has its bytes the wrong way round, unless they are equal. */
  lemma StoredIsNetworkIff(x: u16)
    ensures Stored(x) == Network(x) <==> Hi(x) == Lo(x)
  {
    if Stored(x) == Network(x) { assert Stored(x)[0] == Network(x)[0]; }
  }

  const ETH_P_AARP: u16 := 0x80F3
  const ETH_P_IPX: u16 := 0x8137
  const ETH_P_802_3_MIN: u16 := 0x0600
  const AMSDU_HDR_LEN: nat := 14
  const MAC_HDR_MIN: nat := 24
  const MAC_HDR_MAX: nat := 30

  /** nrf_wifi_util_rx_get_eth_type. */
  function RxEthType(payload: seq<byte>): u16
    requires |payload| >= 8
  {
    ((payload[6] as bv16) << 8) | (payload[7] as bv16)
  }

  lemma TypeRead(payload: seq<byte>, x: u16)
    requires |payload| >= 8 && payload[6..8] == Network(x)
    ensures RxEthType(payload) == x
  {
    assert payload[6] == payload[6..8][0] && payload[7] == payload[6..8][1];
    Joined(x);
  }

  lemma Joined(x: u16)
    ensures ((Hi(x) as bv16) << 8) | (Lo(x) as bv16) == x
  {
  }

  /** nrf_wifi_util_get_skip_header_bytes. */
  function SkipHeaderBytes(ethType: u16): nat {
    if ethType == ETH_P_AARP || ethType == ETH_P_IPX then 8
    else if ethType >= ETH_P_802_3_MIN then 8
    else 2
  }

  // ------------------------------------------------------------- the standards

  /** The LLC and SNAP headers of RFC 1042 and the packet behind them. */
  function Snap(ethType: u16, body: seq<byte>): seq<byte> {
    [0xAA, 0xAA, 0x03, 0x00, 0x00, 0x00] + Network(ethType) + body
  }

  function Ethernet(da: seq<byte>, sa: seq<byte>, ethType: u16, body: seq<byte>): seq<byte> {
    da + sa + Network(ethType) + body
  }

  /** An 802.11 MAC header: the second byte of the frame control field and four addresses. */
  datatype MacHdr = MacHdr(fc: byte, a1: seq<byte>, a2: seq<byte>, a3: seq<byte>, a4: seq<byte>) {
    predicate ToDs() { fc & 0x01 != 0 }
    predicate FromDs() { fc & 0x02 != 0 }
  }

  /** Destination and source by Table 9-26 of IEEE Std 802.11-2016. */
  function Da(h: MacHdr): seq<byte> { if h.ToDs() then h.a3 else h.a1 }
  function Sa(h: MacHdr): seq<byte> {
    if h.ToDs() && h.FromDs() then h.a4 else if h.FromDs() then h.a3 else h.a2
  }

  /** The addresses that nrf_wifi_util_convert_to_eth picks. */
  function PickDst(h: MacHdr): seq<byte> {
    if h.ToDs() && h.FromDs() then h.a1 else if h.FromDs() then h.a1 else if h.ToDs() then h.a3 else h.a1
  }

  function PickSrc(h: MacHdr): seq<byte> {
    if h.ToDs() && h.FromDs() then h.a4 else if h.FromDs() then h.a3 else h.a2
  }

  /** The picks are those of the standard but for four-address frames, where the receiver is taken for the destination. */
  lemma AddressesStandardIff(h: MacHdr)
    ensures PickDst(h) == Da(h) && PickSrc(h) == Sa(h) <==> !(h.ToDs() && h.FromDs()) || h.a1 == h.a3
  {
  }

  /** The MAC header of a frame; the code always copies the longest form. */
  function MacHdrOf(data: seq<byte>): MacHdr
    requires |data| >= MAC_HDR_MAX
  {
    MacHdr(data[1], data[4..10], data[10..16], data[16..22], data[24..30])
  }

  // ----------------------------------------------------------- what the code makes

  /** The Ethernet header that the code writes in front of `rest`. */
  function EthHeader(dst: seq<byte>, src: seq<byte>, ethType: u16, rest: seq<byte>): seq<byte> {
    dst + src + Stored(if ethType >= ETH_P_802_3_MIN then Swap(ethType) else (|rest| % 0x1_0000) as u16)
  }

  function FromMpdu(data: seq<byte>, macHdrLen: nat): seq<byte>
    requires macHdrLen >= MAC_HDR_MIN && |data| >= macHdrLen + 8
  {
    var h, et := MacHdrOf(data), RxEthType(data[macHdrLen..]);
    var rest := data[macHdrLen + SkipHeaderBytes(et)..];
    EthHeader(PickDst(h), PickSrc(h), et, rest) + rest
  }

  function FromAmsdu(data: seq<byte>): seq<byte>
    requires |data| >= AMSDU_HDR_LEN + 8
  {
    var et := RxEthType(data[AMSDU_HDR_LEN..]);
    var rest := data[AMSDU_HDR_LEN + SkipHeaderBytes(et)..];
    EthHeader(data[..6], data[6..12], et, rest) + rest
  }

  lemma HeaderIs(dst: seq<byte>, src: seq<byte>, et: u16, rest: seq<byte>)
    requires et >= ETH_P_802_3_MIN
    ensures EthHeader(dst, src, et, rest) + rest == Ethernet(dst, src, et, rest)
  {
    SwapIsNetwork(et);
  }

  lemma SnapSplit(front: seq<byte>, n: nat, et: u16, body: seq<byte>)
    requires |front| == n
    ensures var data := front + Snap(et, body);
            |data| >= n + 8 && RxEthType(data[n..]) == et && data[n + 8..] == body
  {
    var data := front + Snap(et, body);
    assert data[n..] == Snap(et, body);
    assert Snap(et, body)[6..8] == Network(et);
    TypeRead(data[n..], et);
  }

  /** An MPDU that carries a SNAP packet becomes the Ethernet frame of that packet. */
  lemma MpduToEthernet(mac: seq<byte>, et: u16, body: seq<byte>)
    requires |mac| >= MAC_HDR_MIN && et >= ETH_P_802_3_MIN
    ensures var data := mac + Snap(et, body);
            FromMpdu(data, |mac|) == Ethernet(PickDst(MacHdrOf(data)), PickSrc(MacHdrOf(data)), et, body)
  {
    var data := mac + Snap(et, body);
    SnapSplit(mac, |mac|, et, body);
    HeaderIs(PickDst(MacHdrOf(data)), PickSrc(MacHdrOf(data)), et, body);
  }

  /** An MPDU by its fields: frame control, duration, three addresses, sequence control, and what follows. */
  function Mpdu(fc0: byte, fc1: byte, dur: seq<byte>, a1: seq<byte>, a2: seq<byte>, a3: seq<byte>, seqCtl: seq<byte>,
                more: seq<byte>): seq<byte> {
    [fc0, fc1] + dur + a1 + a2 + a3 + seqCtl + more
  }

  /** The addresses that an Ethernet frame gets from an MPDU with these fields; `a4` is the start of what follows. */
  function DstOf(fc1: byte, a1: seq<byte>, a3: seq<byte>): seq<byte> { if fc1 & 0x03 == 0x01 then a3 else a1 }
  function SrcOf(fc1: byte, a2: seq<byte>, a3: seq<byte>, a4: seq<byte>): seq<byte> {
    if fc1 & 0x03 == 0x03 then a4 else if fc1 & 0x02 == 0x02 then a3 else a2
  }

  lemma DsBits(fc: byte)
    ensures fc & 0x03 == 0x01 <==> fc & 0x01 != 0 && fc & 0x02 == 0
    ensures fc & 0x03 == 0x03 <==> fc & 0x01 != 0 && fc & 0x02 != 0
    ensures fc & 0x02 == 0x02 <==> fc & 0x02 != 0
  {
  }

  lemma FieldsOf(fc0: byte, fc1: byte, dur: seq<byte>, a1: seq<byte>, a2: seq<byte>, a3: seq<byte>, seqCtl: seq<byte>, more: seq<byte>)
    requires |dur| == |seqCtl| == 2 && |a1| == |a2| == |a3| == 6 && |more| >= 6
    ensures MacHdrOf(Mpdu(fc0, fc1, dur, a1, a2, a3, seqCtl, more)) == MacHdr(fc1, a1, a2, a3, more[..6])
  {
    var data := Mpdu(fc0, fc1, dur, a1, a2, a3, seqCtl, more);
    assert data[1] == fc1;
    assert data[4..10] == a1;
    assert data[10..16] == a2;
    assert data[16..22] == a3;
    assert data[24..30] == more[..6];
  }

  /**
   The law for MPDUs, on the bytes of the frame: with a SNAP packet behind a MAC header of 24 bytes or
   more the result is the Ethernet frame of that packet, between the addresses that the two DS bits
   of the second byte select.
   */
  lemma MpduFields(fc0: byte, fc1: byte, dur: seq<byte>, a1: seq<byte>, a2: seq<byte>, a3: seq<byte>, seqCtl: seq<byte>,
                   tail: seq<byte>, et: u16, body: seq<byte>)
    requires |dur| == |seqCtl| == 2 && |a1| == |a2| == |a3| == 6 && et >= ETH_P_802_3_MIN
    ensures var data := Mpdu(fc0, fc1, dur, a1, a2, a3, seqCtl, tail + Snap(et, body));
            FromMpdu(data, 24 + |tail|) ==
              Ethernet(DstOf(fc1, a1, a3), SrcOf(fc1, a2, a3, (tail + Snap(et, body))[..6]), et, body)
  {
    var mac := Mpdu(fc0, fc1, dur, a1, a2, a3, seqCtl, tail);
    assert Mpdu(fc0, fc1, dur, a1, a2, a3, seqCtl, tail + Snap(et, body)) == mac + Snap(et, body);
    MpduToEthernet(mac, et, body);
    FieldsOf(fc0, fc1, dur, a1, a2, a3, seqCtl, tail + Snap(et, body));
    DsBits(fc1);
  }

  lemma AmsduToEthernet(da: seq<byte>, sa: seq<byte>, len: seq<byte>, et: u16, body: seq<byte>)
    requires |da| == |sa| == 6 && |len| == 2 && et >= ETH_P_802_3_MIN
    ensures FromAmsdu(da + sa + len + Snap(et, body)) == Ethernet(da, sa, et, body)
  {
    var data := da + sa + len + Snap(et, body);
    SnapSplit(da + sa + len, AMSDU_HDR_LEN, et, body);
    assert data[..6] == da && data[6..12] == sa;
    HeaderIs(da, sa, et, body);
  }

  /**
   For a frame with a length instead of an EtherType the header is that of the standard exactly when
   the two bytes of the length are equal; for others it always is.
   */
  lemma LengthFieldIff(dst: seq<byte>, src: seq<byte>, et: u16, rest: seq<byte>)
    requires |dst| == |src| == 6
    ensures var len := (|rest| % 0x1_0000) as u16;
            EthHeader(dst, src, et, rest) == dst + src + Network(if et >= ETH_P_802_3_MIN then et else len)
            <==> et >= ETH_P_802_3_MIN || Hi(len) == Lo(len)
  {
    var len := (|rest| % 0x1_0000) as u16;
    if et >= ETH_P_802_3_MIN {
      SwapIsNetwork(et);
    } else {
      StoredIsNetworkIff(len);
      var a, b := EthHeader(dst, src, et, rest), dst + src + Network(len);
      if a == b { assert a[12..14] == Stored(len) && b[12..14] == Network(len); }
    }
  }

  const PKT_TYPE_MPDU: nat := 0
  const PKT_TYPE_MSDU_WITH_MAC: nat := 1
  const PKT_TYPE_MSDU: nat := 2

  /** What the receive loop makes of a frame of each packet type. */
  function Converted(kind: nat, data: seq<byte>, macHdrLen: nat): seq<byte>
    requires kind <= PKT_TYPE_MSDU && Complete(kind, data, macHdrLen)
  {
    if kind == PKT_TYPE_MPDU then FromMpdu(data, macHdrLen)
    else if kind == PKT_TYPE_MSDU_WITH_MAC then FromAmsdu(data[macHdrLen..])
    else FromAmsdu(data)
  }

  /** A frame is as long as the headers that its type says it has. */
  predicate Complete(kind: nat, data: seq<byte>, macHdrLen: nat) {
    if kind == PKT_TYPE_MPDU then macHdrLen >= MAC_HDR_MIN && |data| >= macHdrLen + 8
    else if kind == PKT_TYPE_MSDU_WITH_MAC then |data| >= macHdrLen + AMSDU_HDR_LEN + 8
    else |data| >= AMSDU_HDR_LEN + 8
  }

  /**
   The same packet gives the same Ethernet frame whichever way it was received: as an MPDU with two
   or three addresses, `da` and `sa` being where Table 9-26 of IEEE Std 802.11-2016 has them; as an
   A-MSDU subframe behind a MAC header; or as a subframe alone.
   */
  lemma SamePacketSameFrame(fc0: byte, fc1: byte, dur: seq<byte>, a1: seq<byte>, a2: seq<byte>, a3: seq<byte>, seqCtl: seq<byte>,
                            tail: seq<byte>, mac: seq<byte>, da: seq<byte>, sa: seq<byte>, len: seq<byte>, et: u16, body: seq<byte>)
    requires |dur| == |seqCtl| == |len| == 2 && |a1| == |a2| == |a3| == |da| == |sa| == 6 && et >= ETH_P_802_3_MIN
    requires if fc1 & 0x03 == 0x00 then da == a1 && sa == a2
             else if fc1 & 0x03 == 0x01 then da == a3 && sa == a2
             else fc1 & 0x03 == 0x02 && da == a1 && sa == a3
    ensures Converted(PKT_TYPE_MPDU, Mpdu(fc0, fc1, dur, a1, a2, a3, seqCtl, tail + Snap(et, body)), 24 + |tail|)
         == Ethernet(da, sa, et, body)
    ensures Converted(PKT_TYPE_MSDU, da + sa + len + Snap(et, body), 24 + |tail|) == Ethernet(da, sa, et, body)
    ensures Converted(PKT_TYPE_MSDU_WITH_MAC, mac + (da + sa + len + Snap(et, body)), |mac|) == Ethernet(da, sa, et, body)
  {
    var sub := da + sa + len + Snap(et, body);
    MpduFields(fc0, fc1, dur, a1, a2, a3, seqCtl, tail, et, body);
    TwoOrThreeAddresses(fc1);
    AmsduToEthernet(da, sa, len, et, body);
    assert (mac + sub)[|mac|..] == sub;
  }

  lemma TwoOrThreeAddresses(fc: byte)
    ensures fc & 0x03 == 0x00 ==> fc & 0x02 != 0x02
    ensures fc & 0x03 == 0x01 ==> fc & 0x02 != 0x02
    ensures fc & 0x03 == 0x02 ==> fc & 0x02 == 0x02
  {
  }

  /**
   How much of the frame remains behind the new header: all but the eight bytes of the LLC and SNAP
   headers when an EtherType follows them, and all but two bytes when a length does.
   */
  lemma RemainsIff(data: seq<byte>, macHdrLen: nat)
    requires macHdrLen >= 24 && |data| >= macHdrLen + 8
    ensures var et := data[macHdrLen + 6] as int * 256 + data[macHdrLen + 7] as int;
            FromMpdu(data, macHdrLen)[14..] == if et >= 0x0600 then data[macHdrLen + 8..] else data[macHdrLen + 2..]
  {
    TypeValue(data[macHdrLen..]);
  }

  lemma TypeValue(payload: seq<byte>)
    requires |payload| >= 8
    ensures RxEthType(payload) as int == payload[6] as int * 256 + payload[7] as int
  {
    JoinedValue(payload[6], payload[7]);
  }

  lemma JoinedValue(a: byte, b: byte)
    ensures (((a as bv16) << 8) | (b as bv16)) as int == a as int * 256 + b as int
  {
    assert ((a as bv16) << 8) | (b as bv16) == ((a as bv16) << 8) + (b as bv16);
  }

  function Splice(data: seq<byte>, at: nat, bytes: seq<byte>): (r: seq<byte>)
    requires at + |bytes| <= |data|
    ensures |r| == |data|
  {
    data[..at] + bytes + data[at + |bytes|..]
  }

  lemma HeaderSpliced(data: seq<byte>, dst: seq<byte>, src: seq<byte>, proto: seq<byte>)
    requires |data| >= 14 && |dst| == |src| == 6 && |proto| == 2
    ensures Splice(Splice(Splice(data, 6, src), 0, dst), 12, proto) == dst + src + proto + data[14..]
  {
  }

  /** A network buffer: the frame is a window on a fixed room, and its start moves. */
  class SkBuf {
    const room: array<byte>
    var head: nat
    var tail: nat

    ghost predicate Valid()
      reads this
    {
      head <= tail <= room.Length
    }

    function Data(): seq<byte>
      requires Valid()
      reads this, room
    {
      room[head..tail]
    }

    constructor (frame: seq<byte>)
      ensures Valid() && fresh(room) && Data() == frame
    {
      room := new byte[|frame|](i requires 0 <= i < |frame| => frame[i]);
      head, tail := 0, |frame|;
    }

    /** nbuf_data_pull; nothing happens when the frame is shorter. */
    method Pull(n: nat)
      requires Valid()
      modifies this`head
      ensures Valid() && head == if n <= tail - old(head) then old(head) + n else old(head)
    {
      if n <= tail - head {
        head := head + n;
      }
    }

    /** nbuf_data_push, which needs the room that pulls have left. */
    method Push(n: nat)
      requires Valid() && n <= head
      modifies this`head
      ensures Valid() && head == old(head) - n
    {
      head := head - n;
    }

    method Store(at: nat, bytes: seq<byte>)
      requires Valid() && at + |bytes| <= tail - head
      modifies room
      ensures Data() == Splice(old(Data()), at, bytes)
    {
      for i := 0 to |bytes|
        invariant forall j | 0 <= j < room.Length ::
          room[j] == if head + at <= j < head + at + i then bytes[j - head - at] else old(room[j])
      {
        room[head + at + i] := bytes[i];
      }
    }

    /** Write the Ethernet header of a frame from which the 802.11 headers have been pulled. */
    method WriteEthHeader(dst: seq<byte>, src: seq<byte>, ethType: u16)
      requires Valid() && head >= 14 && |dst| == |src| == 6
      modifies this`head, room
      ensures Valid() && Data() == EthHeader(dst, src, ethType, old(Data())) + old(Data())
    {
      ghost var rest := Data();
      var len := tail - head;
      Push(14);
      ghost var before := Data();
      assert before[14..] == rest;
      Store(6, src);
      Store(0, dst);
      var proto := if ethType >= ETH_P_802_3_MIN then Swap(ethType) else (len % 0x1_0000) as u16;
      Store(12, Stored(proto));
      HeaderSpliced(before, dst, src, Stored(proto));
    }

    /** nrf_wifi_util_convert_to_eth. */
    method ConvertToEth(h: MacHdr, ethType: u16)
      requires Valid() && head >= 14 && |h.a1| == |h.a2| == |h.a3| == |h.a4| == 6
      modifies this`head, room
      ensures Valid() && Data() == EthHeader(PickDst(h), PickSrc(h), ethType, old(Data())) + old(Data())
    {
      if h.ToDs() && h.FromDs() {
        WriteEthHeader(h.a1, h.a4, ethType);
      } else if h.FromDs() {
        WriteEthHeader(h.a1, h.a3, ethType);
      } else if h.ToDs() {
        WriteEthHeader(h.a3, h.a2, ethType);
      } else {
        WriteEthHeader(h.a1, h.a2, ethType);
      }
    }

    /** nrf_wifi_util_rx_convert_amsdu_to_eth. */
    method RxConvertAmsduToEth()
      requires Valid() && tail - head >= AMSDU_HDR_LEN + 8
      modifies this`head, room
      ensures Valid() && Data() == FromAmsdu(old(Data()))
    {
      var dst, src := Data()[..6], Data()[6..12];
      var ethType := RxEthType(Data()[AMSDU_HDR_LEN..]);
      ghost var before := Data();
      Pull(AMSDU_HDR_LEN + SkipHeaderBytes(ethType));
      assert Data() == before[AMSDU_HDR_LEN + SkipHeaderBytes(ethType)..];
      WriteEthHeader(dst, src, ethType);
    }

    /** The case of an MPDU: pull both headers off and write the new one. */
    method ConvertMpdu(macHdrLen: nat)
      requires Valid() && Complete(PKT_TYPE_MPDU, Data(), macHdrLen)
      modifies this`head, room
      ensures Valid() && Data() == Converted(PKT_TYPE_MPDU, old(Data()), macHdrLen)
    {
      ghost var before := Data();
      var h := MacHdrOf(Data());
      var ethType := RxEthType(Data()[macHdrLen..]);
      var size := macHdrLen + SkipHeaderBytes(ethType);
      Pull(size);
      assert Data() == before[size..];
      ConvertToEth(h, ethType);
    }

    /** The packet types of nrf_wifi_fmac_rx_event_process. */
    method Convert(kind: nat, macHdrLen: nat)
      requires Valid() && kind <= PKT_TYPE_MSDU && Complete(kind, Data(), macHdrLen)
      modifies this`head, room
      ensures Valid() && Data() == Converted(kind, old(Data()), macHdrLen)
    {
      ghost var before := Data();
      if kind == PKT_TYPE_MPDU {
        ConvertMpdu(macHdrLen);
      } else if kind == PKT_TYPE_MSDU_WITH_MAC {
        Pull(macHdrLen);
        assert Data() == before[macHdrLen..];
        RxConvertAmsduToEth();
      } else {
        RxConvertAmsduToEth();
      }
    }
  }
}
