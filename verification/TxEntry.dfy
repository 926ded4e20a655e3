/** nrf_wifi_fmac_start_xmit: from a network buffer to a peer, an access category and the transmit engine. */
module TxEntry {
  import opened Basics
  import opened TxConfig
  import opened TxModel
  import opened PeerTable
  import TxEngine

  /** The last third of nrf_wifi_fmac_start_xmit: hand the frame over and look at the status. */
  method Submit(e: TxEngine.TxEngine, k: nat, nbuf: Frame) returns (ok: bool)
    requires e.Valid() && Reachable(e.c, e.state) && Enabled(e.c, e.state, EvXmit(k, nbuf))
    modifies e.Repr()
    ensures e.Valid() && Reachable(e.c, e.state)
    ensures ok <==> |old(e.state).pend[k]| < e.c.pendLimit
    ensures e.state == if ok then Xmit(e.c, old(e.state), k, nbuf).0 else old(e.state)
  {
    var status := e.Tx(k, nbuf);
    ok := status != Fail;
  }

  /**
   nrf_wifi_fmac_start_xmit.  `bssid`: the access point, when the interface is a station.  The
   frame is accepted, once, in the queue for its receiver and priority, or nothing changes and the
   caller's buffer is freed on the spot.
   */
  method StartXmit(e: TxEngine.TxEngine, table: seq<PeerInfo>, bssid: Option<seq<byte>>, nbuf: Nbuf, tid: nat)
    returns (ok: bool, ghost flow: nat)
    requires e.Valid() && Reachable(e.c, e.state) && |table| == MAX_SW_PEERS
    requires |nbuf.slack| == 3 && |nbuf.data| + e.c.headroom <= e.c.maxFrm
    requires bssid.Some? ==> |bssid.value| == ETH_ADDR_LEN
    modifies e.Repr()
    ensures e.Valid() && Reachable(e.c, e.state)
    ensures ok ==> |nbuf.data| >= ETH_HDR_LEN && Known(table, Receiver(bssid, nbuf))
    ensures |nbuf.data| >= ETH_HDR_LEN && Known(table, Receiver(bssid, nbuf)) ==>
              && flow < FLOWS && Route(table, Receiver(bssid, nbuf), tid, flow)
              && (ok <==> |old(e.state).pend[flow]| < e.c.pendLimit)
    ensures e.state == if ok then Xmit(e.c, old(e.state), flow, nbuf).0 else old(e.state)
  {
    flow := 0;
    if |nbuf.data| < ETH_HDR_LEN {
      return false, flow;
    }
    var queue := Classify(table, Receiver(bssid, nbuf), tid);
    if queue == None {
      return false, flow;
    }
    flow := queue.value;
    RouteIs(table, Receiver(bssid, nbuf), tid, flow, flow);
    ok := Submit(e, queue.value, nbuf);
  }

  /** sap_client_ps_get_frames, from the address of the client: an unknown one is refused. */
  method SapClientPsGetFrames(e: TxEngine.TxEngine, table: seq<PeerInfo>, addr: seq<byte>, numFrames: int)
    returns (ok: bool, ghost peer: nat)
    requires e.Valid() && Reachable(e.c, e.state) && |table| == MAX_SW_PEERS
    requires addr != [] && !Multicast(addr) && -128 <= numFrames < 128
    modifies e.Repr()
    ensures e.Valid() && Reachable(e.c, e.state)
    ensures ok <==> Known(table, addr)
    ensures ok ==> peer < MAX_PEERS && First(table, addr, peer)
    ensures e.state == if ok then PsRequest(e.c, old(e.state), peer, numFrames) else old(e.state)
  {
    peer := 0;
    var id := PeerGetId(table, addr);
    if id == None {
      return false, peer;
    }
    peer := id.value;
    e.SapClientPsGetFrames(id.value, numFrames);
    ok := true;
  }

  /** sap_client_update_pmmode, likewise. */
  method SapClientUpdatePmmode(e: TxEngine.TxEngine, table: seq<PeerInfo>, addr: seq<byte>, ps: bool)
    returns (ok: bool, ghost peer: nat)
    requires e.Valid() && Reachable(e.c, e.state) && |table| == MAX_SW_PEERS
    requires addr != [] && !Multicast(addr)
    modifies e.Repr()
    ensures e.Valid() && Reachable(e.c, e.state)
    ensures ok <==> Known(table, addr)
    ensures ok ==> peer < MAX_PEERS && First(table, addr, peer)
    ensures e.state == if ok then PmMode(e.c, old(e.state), peer, ps) else old(e.state)
  {
    peer := 0;
    var id := PeerGetId(table, addr);
    if id == None {
      return false, peer;
    }
    peer := id.value;
    e.SapClientUpdatePmmode(id.value, ps);
    ok := true;
  }
}
