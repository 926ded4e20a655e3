/**
 The queues of tx_config, in place: pending queues, token lists, wakeup queue and round-robin marks.
 The ghost argument `s` of a method is the state of module TxModel that the fields hold.
 */
module TxQueues {
  import opened Basics
  import opened TxConfig
  import opened Bounce
  import opened TxModel
  import Bits

  /** When one more frame may join the first `m`. */
  lemma {:induction false} OneMore(c: Config, legacy: bool, q: seq<Frame>, m: nat)
    requires m < |q| && Aggregable(c, legacy, q, m)
    ensures BatchBytes(c, q[..m + 1]) == BatchBytes(c, q[..m]) + c.headroom + |q[m].data|
    ensures q[..m + 1] == q[..m] + [q[m]] && q[m..][0] == q[m] && q[m..][1..] == q[m + 1..]
    ensures Aggregable(c, legacy, q, m + 1) <==>
              !legacy && m < c.maxAgg && SameAddrs(q[m], q[0]) && BatchBytes(c, q[..m + 1]) < c.Avail()
  {
    assert q[..m + 1][..m] == q[..m];
  }

  /** One more frame goes from the rest of a queue to the front part of it. */
  lemma HeadMoved(queues: seq<seq<Frame>>, k: nat, lists: seq<seq<Frame>>, d: nat, q: seq<Frame>, m: nat)
    requires k < |queues| && d < |lists| && m < |q|
    ensures queues[k := q[m..]][k := q[m..][1..]] == queues[k := q[m + 1..]]
    ensures lists[d := q[..m]][d := q[..m] + [q[m..][0]]] == lists[d := q[..m + 1]]
  {
    assert q[m..][1..] == q[m + 1..] && q[..m] + [q[m..][0]] == q[..m + 1];
  }

  class TxQueues {
    const c: Config
    var peers: seq<Peer>
    var dataPendingTxq: seq<seq<Frame>>
    var pkt: seq<seq<Frame>>
    var pktPeer: seq<nat>
    var currPeerOpp: seq<nat>
    var wakeupClientQ: seq<nat>

    ghost predicate Holds(s: Tx)
      reads this
    {
      && Shape(c, s)
      && peers == s.peers && dataPendingTxq == s.pend && pkt == s.tok
      && currPeerOpp == s.opp && wakeupClientQ == s.wake
      && |pktPeer| == c.numTokens
      && (forall d | 0 <= d < c.numTokens && pkt[d] != [] :: pktPeer[d] == PeerOf(s.tokFlow[d]))
    }

    constructor (c: Config, peers: seq<Peer>)
      requires c.Valid() && |peers| == MAX_SW_PEERS
      ensures this.c == c && this.peers == peers
      ensures dataPendingTxq == seq(FLOWS, _ => []) && pkt == seq(c.numTokens, _ => []) && |pktPeer| == c.numTokens
      ensures currPeerOpp == [0, 0, 0, 0, 0] && wakeupClientQ == []
    {
      this.c, this.peers := c, peers;
      dataPendingTxq := seq(FLOWS, _ => []);
      pkt, pktPeer := seq(c.numTokens, _ => []), seq(c.numTokens, _ => 0);
      currPeerOpp, wakeupClientQ := [0, 0, 0, 0, 0], [];
    }

    // ----------------------------------------------------- choosing a peer

    /** get_peer_from_wakeup_q. */
    method PeerFromWakeupQ(ac: nat, ghost s: Tx) returns (peerId: Option<nat>)
      requires Holds(s) && ac < AC_MAX
      modifies this`peers
      ensures peerId == FirstWoken(c, s, ac, 0)
      ensures Holds(if peerId.Some? then Charge(c, s, ac, Woken(peerId.value)) else s)
    {
      var i := 0;
      while i < |wakeupClientQ|
        invariant i <= |wakeupClientQ| && Holds(s)
        invariant FirstWoken(c, s, ac, 0) == FirstWoken(c, s, ac, i)
      {
        var p := wakeupClientQ[i];
        if peers[p].psTokens != 0 {
          if dataPendingTxq[Flow(p, ac)] != [] {
            peers := peers[p := peers[p].(psTokens := peers[p].psTokens - 1)];
            return Some(p);
          }
        }
        i := i + 1;
      }
      return None;
    }

    /** The round-robin half of tx_curr_peer_opp_get. */
    method PeerFromRound(ac: nat, ghost s: Tx) returns (peerId: Option<nat>)
      requires Holds(s) && ac < AC_MAX
      modifies this`currPeerOpp
      ensures peerId == FirstTurn(c, s, ac, 0)
      ensures Holds(if peerId.Some? then Charge(c, s, ac, Turn(peerId.value)) else s)
    {
      var init := currPeerOpp[ac];
      var i := 0;
      while i < MAX_PEERS
        invariant i <= MAX_PEERS && Holds(s)
        invariant FirstTurn(c, s, ac, 0) == FirstTurn(c, s, ac, i)
      {
        var curr := (init + i) % MAX_PEERS;
        assert curr == Cyclic(s.opp[ac], i);
        if !peers[curr].ps {
          if dataPendingTxq[Flow(curr, ac)] != [] {
            currPeerOpp := currPeerOpp[ac := (curr + 1) % MAX_PEERS];
            return Some(curr);
          }
        }
        i := i + 1;
      }
      return None;
    }

    /** tx_curr_peer_opp_get. */
    method CurrPeerOppGet(ac: nat, ghost s: Tx) returns (peerId: Option<nat>)
      requires Holds(s) && ac < AC_MAX
      modifies this`peers, this`currPeerOpp
      ensures var k := Choose(c, s, ac); peerId == if k.Nobody? then None else Some(PickedPeer(k))
      ensures Holds(Charge(c, s, ac, Choose(c, s, ac)))
    {
      if ac == AC_MC {
        return Some(MAX_PEERS);
      }
      peerId := PeerFromWakeupQ(ac, s);
      if peerId.Some? {
        return;
      }
      peerId := PeerFromRound(ac, s);
    }

    // -------------------------------------------------------------- aggregation

    /** tx_aggr_check, for the frame at the head of the pending queue. */
    predicate AggrCheck(first: Frame, k: nat)
      requires |peers| == MAX_SW_PEERS && |dataPendingTxq| == FLOWS && k < FLOWS
      reads this
    {
      && !peers[PeerOf(k)].legacy
      && dataPendingTxq[k] != []
      && SameAddrs(dataPendingTxq[k][0], first)
    }

    /** Whether the frame at the head may join the `m` frames on the token; the length is that with it. */
    method MayJoin(desc: nat, k: nat, first: Frame, ampduLen: nat, ghost q: seq<Frame>, ghost m: nat)
      returns (joins: bool, len: nat)
      requires |peers| == MAX_SW_PEERS && |dataPendingTxq| == FLOWS && k < FLOWS && desc < |pkt| && m < |q|
      requires dataPendingTxq[k] == q[m..] && pkt[desc] == q[..m] && first == q[0]
      requires Aggregable(c, peers[PeerOf(k)].legacy, q, m) && ampduLen == BatchBytes(c, q[..m])
      ensures joins <==> Aggregable(c, peers[PeerOf(k)].legacy, q, m + 1)
      ensures len == BatchBytes(c, q[..m + 1])
    {
      OneMore(c, peers[PeerOf(k)].legacy, q, m);
      var nwb := dataPendingTxq[k][0];
      len := ampduLen + c.headroom + |nwb.data|;
      if len >= c.Avail() {
        return false, len;
      }
      joins := AggrCheck(first, k) && |pkt[desc]| < c.maxAgg;
    }

    /** The loop of _tx_pending_process: the batch moves from the pending queue to the token list. */
    method Aggregate(desc: nat, k: nat)
      requires |peers| == MAX_SW_PEERS && |dataPendingTxq| == FLOWS && k < FLOWS
      requires desc < |pkt| && pkt[desc] == [] && dataPendingTxq[k] != []
      modifies this`dataPendingTxq, this`pkt
      ensures var q := old(dataPendingTxq[k]);
              var n := BatchLen(c, peers[PeerOf(k)].legacy, q);
              && dataPendingTxq == old(dataPendingTxq)[k := q[n..]]
              && pkt == old(pkt)[desc := q[..n]]
    {
      ghost var q, legacy := dataPendingTxq[k], peers[PeerOf(k)].legacy;
      ghost var n := AggLen(c, legacy, q, 0);
      ghost var m := 0;
      var first := dataPendingTxq[k][0];
      var ampduLen := 0;
      while dataPendingTxq[k] != []
        invariant 0 <= m <= |q| && Aggregable(c, legacy, q, m) && n == AggLen(c, legacy, q, m)
        invariant dataPendingTxq == old(dataPendingTxq)[k := q[m..]] && pkt == old(pkt)[desc := q[..m]]
        invariant ampduLen == BatchBytes(c, q[..m])
        decreases |q| - m
      {
        var joins;
        joins, ampduLen := MayJoin(desc, k, first, ampduLen, q, m);
        if !joins { break; }
        HeadMoved(old(dataPendingTxq), k, old(pkt), desc, q, m);
        MoveHead(desc, k);
        m := m + 1;
      }
      assert m == n && q[0..] == q;
      if pkt[desc] == [] {
        HeadMoved(old(dataPendingTxq), k, old(pkt), desc, q, 0);
        MoveHead(desc, k);
      }
    }

    method MoveHead(desc: nat, k: nat)
      requires |dataPendingTxq| == FLOWS && k < FLOWS && desc < |pkt| && dataPendingTxq[k] != []
      modifies this`dataPendingTxq, this`pkt
      ensures dataPendingTxq == old(dataPendingTxq)[k := old(dataPendingTxq[k])[1..]]
      ensures pkt == old(pkt)[desc := old(pkt[desc]) + [old(dataPendingTxq[k])[0]]]
    {
      var nwb := dataPendingTxq[k][0];
      dataPendingTxq := dataPendingTxq[k := dataPendingTxq[k][1..]];
      pkt := pkt[desc := pkt[desc] + [nwb]];
    }

    /** update_pend_q_bmp. */
    method UpdatePendQBmp(k: nat)
      requires |peers| == MAX_SW_PEERS && |dataPendingTxq| == FLOWS && k < FLOWS
      modifies this`peers
      ensures peers == UpdateBmp(old(peers), dataPendingTxq, k)
    {
      var p, ac := PeerOf(k), AcOf(k);
      if peers[p].ap && p < MAX_PEERS {
        var bmp := peers[p].pendBmp;
        if |dataPendingTxq[k]| == 0 {
          bmp := Bits.Clear(bmp, ac);
        } else {
          bmp := Bits.Set(bmp, ac);
        }
        peers := peers[p := peers[p].(pendBmp := bmp)];
      }
    }

    /** _tx_pending_process. */
    method PendingProcess(desc: nat, ac: nat, ghost s: Tx) returns (len: nat)
      requires Holds(s) && desc < c.numTokens && ac < AC_MAX && pkt[desc] == []
      modifies this
      ensures match TakeBatch(c, s, desc, ac)
        case None => len == 0 && Holds(s)
        case Some(s1) => len == |s1.tok[desc]| > 0 && Holds(s1)
    {
      var peerId := CurrPeerOppGet(ac, s);
      if peerId.None? {
        return 0;
      }
      var k := Flow(peerId.value, ac);
      if dataPendingTxq[k] == [] {
        return 0;
      }
      Aggregate(desc, k);
      len := |pkt[desc]|;
      if len > 0 {
        pktPeer := pktPeer[desc := peerId.value];
      }
      UpdatePendQBmp(k);
    }

    // ------------------------------------------------------------ other queues

    /** tx_enqueue: refused when the pending queue is full; emergency frames go to the front. */
    method EnqueueFrame(k: nat, nwb: Frame, ghost s: Tx) returns (ok: bool)
      requires Holds(s) && k < FLOWS
      modifies this`dataPendingTxq, this`peers
      ensures ok <==> |s.pend[k]| < c.pendLimit
      ensures Holds(if ok then Enqueue(c, s, k, nwb) else s)
    {
      if |dataPendingTxq[k]| >= c.pendLimit {
        return false;
      }
      if nwb.priority == TWT_EMERGENCY {
        dataPendingTxq := dataPendingTxq[k := [nwb] + dataPendingTxq[k]];
      } else {
        dataPendingTxq := dataPendingTxq[k := dataPendingTxq[k] + [nwb]];
      }
      UpdatePendQBmp(k);
      ok := true;
    }

    /** pending_frames_count. */
    method PendingFramesCount(p: nat, ghost s: Tx) returns (count: nat)
      requires Holds(s) && p < MAX_SW_PEERS
      ensures count == PendingCount(s, p)
    {
      count := 0;
      var ac := AC_VO + 1;
      while ac > 0
        invariant ac <= AC_VO + 1
        invariant count == (if ac <= AC_VO then |s.pend[Flow(p, AC_VO)]| else 0) +
                           (if ac <= AC_VI then |s.pend[Flow(p, AC_VI)]| else 0) +
                           (if ac <= AC_BE then |s.pend[Flow(p, AC_BE)]| else 0) +
                           (if ac <= AC_BK then |s.pend[Flow(p, AC_BK)]| else 0)
      {
        ac := ac - 1;
        count := count + |dataPendingTxq[Flow(p, ac)]|;
      }
    }

    /** nrf_wifi_utils_list_del_node on the wakeup queue: every entry for the client goes. */
    method DelFromWakeupQ(p: nat)
      modifies this`wakeupClientQ
      ensures wakeupClientQ == Without(old(wakeupClientQ), p)
    {
      var rest, kept := wakeupClientQ, [];
      while rest != []
        invariant kept + Without(rest, p) == Without(wakeupClientQ, p)
        decreases |rest|
      {
        ghost var after := Without(rest[1..], p);
        if rest[0] != p {
          assert kept + ([rest[0]] + after) == kept + [rest[0]] + after;
          kept := kept + [rest[0]];
        }
        rest := rest[1..];
      }
      wakeupClientQ := kept;
    }

    /** The second loop of tx_done_process: the frames that the token holds are freed, one after the other. */
    method FreeFrames(desc: nat) returns (freed: seq<Frame>)
      requires desc < |pkt|
      modifies this`pkt
      ensures freed == old(pkt[desc]) && pkt == old(pkt)[desc := []]
    {
      freed := [];
      while pkt[desc] != []
        invariant |pkt| == |old(pkt)| && pkt == old(pkt)[desc := pkt[desc]] && freed + pkt[desc] == old(pkt[desc])
        decreases |pkt[desc]|
      {
        freed := freed + [pkt[desc][0]];
        pkt := pkt[desc := pkt[desc][1..]];
      }
    }
  }
}
