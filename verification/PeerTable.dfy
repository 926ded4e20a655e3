/** The peer table: from the receiver of a frame to a peer, an access category and so a pending queue. */
module PeerTable {
  import opened Basics
  import opened TxConfig

  /** One entry of the peer table; `known`: peer_id is not -1, and then it is the entry's own number. */
  datatype PeerInfo = PeerInfo(known: bool, raAddr: seq<byte>, qos: bool)

  predicate Multicast(addr: seq<byte>)
    requires addr != []
  {
    addr[0] & 1 == 1
  }

  /** It is the lowest bit of the first byte that counts: set for broadcast and for IP multicast, clear for ordinary addresses. */
  lemma MulticastIs(a: seq<byte>, b: seq<byte>)
    requires a != [] && b != []
    ensures a[0] & 1 == b[0] & 1 ==> Multicast(a) == Multicast(b)
    ensures a[0] in {0xFF, 0x01, 0x33} ==> Multicast(a)
    ensures a[0] in {0x00, 0x02} ==> !Multicast(a)
  {
  }

  predicate Matches(p: PeerInfo, addr: seq<byte>) { p.known && p.raAddr == addr }

  /** nrf_wifi_fmac_peer_get_id. */
  method PeerGetId(table: seq<PeerInfo>, addr: seq<byte>) returns (id: Option<nat>)
    requires |table| == MAX_SW_PEERS && addr != []
    ensures Multicast(addr) ==> id == Some(MAX_PEERS)
    ensures !Multicast(addr) ==>
      match id
      case Some(i) =>
        && i < MAX_PEERS && table[i].known && table[i].raAddr == addr
        && forall j | 0 <= j < i :: !(table[j].known && table[j].raAddr == addr)
      case None => forall j | 0 <= j < MAX_PEERS :: !(table[j].known && table[j].raAddr == addr)
  {
    if Multicast(addr) {
      return Some(MAX_PEERS);
    }
    for i := 0 to MAX_PEERS
      invariant forall j | 0 <= j < i :: !Matches(table[j], addr)
    {
      if Matches(table[i], addr) {
        return Some(i);
      }
    }
    return None;
  }

  /** map_ac_from_tid: two 802.1D user priorities for each access category. */
  function MapAcFromTid(tid: nat): (ac: nat)
    ensures ac < AC_MC
    ensures ac == AC_VO <==> tid % 8 in {6, 7}
    ensures ac == AC_VI <==> tid % 8 in {4, 5}
    ensures ac == AC_BK <==> tid % 8 in {1, 2}
  {
    [AC_BE, AC_BK, AC_BK, AC_BE, AC_VI, AC_VI, AC_VO, AC_VO][tid % 8]
  }

  /** get_ac. */
  function GetAc(tid: nat, ra: seq<byte>): (ac: nat)
    requires ra != []
    ensures ac < AC_MAX && (ac == AC_MC <==> Multicast(ra))
  {
    if Multicast(ra) then AC_MC else MapAcFromTid(tid)
  }

  predicate Known(table: seq<PeerInfo>, ra: seq<byte>)
    requires |table| == MAX_SW_PEERS && ra != []
  {
    Multicast(ra) || exists j :: 0 <= j < MAX_PEERS && Matches(table[j], ra)
  }

  /** nrf_wifi_util_get_ra. */
  function Receiver(bssid: Option<seq<byte>>, nbuf: Nbuf): seq<byte>
    requires |nbuf.data| >= ETH_HDR_LEN
  {
    if bssid.Some? then bssid.value else nbuf.data[..ETH_ADDR_LEN]
  }

  /** Peer `i` is the first known one with this address. */
  predicate First(table: seq<PeerInfo>, ra: seq<byte>, i: nat)
    requires i < |table|
  {
    Matches(table[i], ra) && forall j | 0 <= j < i :: !Matches(table[j], ra)
  }

  /**
   Frames for `ra` with user priority `tid` go to queue `k`: that of the multicast pseudo peer for a
   multicast address, and otherwise a queue of the peer with that address, best effort unless the
   peer knows priorities.
   */
  predicate Route(table: seq<PeerInfo>, ra: seq<byte>, tid: nat, k: nat)
    requires |table| == MAX_SW_PEERS && ra != []
  {
    if Multicast(ra) then k == Flow(MAX_PEERS, AC_MC)
    else
      && PeerOf(k) < MAX_PEERS
      && First(table, ra, PeerOf(k))
      && AcOf(k) == if table[PeerOf(k)].qos then MapAcFromTid(tid) else AC_BE
  }

  /**
   Multicast frames, and no others, go to the multicast pseudo peer, in the access category for them; the
   others to the first known peer with the address; and no frame has two queues.
   */
  lemma RouteIs(table: seq<PeerInfo>, ra: seq<byte>, tid: nat, k: nat, l: nat)
    requires |table| == MAX_SW_PEERS && ra != [] && Route(table, ra, tid, k) && Route(table, ra, tid, l)
    ensures k < FLOWS && (PeerOf(k) == MAX_PEERS <==> Multicast(ra)) && (AcOf(k) == AC_MC <==> Multicast(ra))
    ensures k == l
    ensures !Multicast(ra) ==>
              && table[k / AC_MAX].known && table[k / AC_MAX].raAddr == ra
              && (forall j | 0 <= j < k / AC_MAX :: !(table[j].known && table[j].raAddr == ra))
              && k % AC_MAX == if table[k / AC_MAX].qos then MapAcFromTid(tid) else AC_BE
  {
    if !Multicast(ra) {
      var p, q := PeerOf(k), PeerOf(l);
      assert Matches(table[p], ra) && Matches(table[q], ra);
      assert p == q;
      assert k == p * AC_MAX + AcOf(k) && l == q * AC_MAX + AcOf(l);
    }
  }

  /** nrf_wifi_fmac_start_xmit, up to the queue: there is one exactly for a known receiver. */
  method Classify(table: seq<PeerInfo>, ra: seq<byte>, tid: nat) returns (flow: Option<nat>)
    requires |table| == MAX_SW_PEERS && ra != []
    ensures flow.Some? <==> Known(table, ra)
    ensures flow.Some? ==> Route(table, ra, tid, flow.value)
  {
    var peerId := PeerGetId(table, ra);
    match peerId
    case None => return None;
    case Some(id) =>
      if id == MAX_PEERS {
        return Some(Flow(id, AC_MC));
      } else if table[id].qos {
        return Some(Flow(id, GetAc(tid, ra)));
      } else {
        return Some(Flow(id, AC_BE));
      }
  }
}
