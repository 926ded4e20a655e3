/**
 The transmit engine as a state machine.  Every step runs under the transmit lock, so a run is a
 sequence of steps.  Redundant records of the driver (coalesce counts, map flags, the HAL table) do
 not appear here: module TxEngine proves that they agree with this state.
 */
module TxModel {
  import opened Basics
  import opened TxConfig
  import opened Bounce
  import opened PoolModel
  import opened CmdRing
  import Bits

  /** `psTokens`: ps_token_count; `ap`: the peer's interface is an access point; `moreIf`: or an AP VLAN or a mesh point. */
  datatype Peer = Peer(ps: bool, legacy: bool, psTokens: int, ap: bool, moreIf: bool, pendBmp: nat)

  /** A command posted to the RPU, with the flow it serves and the frames it carries. */
  datatype Entry = Entry(cmd: Cmd, flow: nat, frames: seq<Frame>, turn: bool)

  datatype Accept = Accept(flow: nat, frame: Frame)

  datatype Tx = Tx(
    peers: seq<Peer>,
    pend: seq<seq<Frame>>,       // data_pending_txq
    tok: seq<seq<Frame>>,        // pkt_info_p[..].pkt
    tokFlow: seq<nat>,           // pkt_info_p[..].peer_id, with the access category
    pool: Pool,
    opp: seq<nat>,               // curr_peer_opp
    wake: seq<nat>,              // wakeup_client_q
    ram: seq<byte>,
    ring: Ring,
    total: nat,                  // total_tx_pkts
    done: nat,                   // total_tx_done_pkts
    // what happened so far
    log: seq<Entry>,             // the commands posted
    taken: nat,                  // how many of them the RPU has read
    accepted: seq<Accept>,
    freed: seq<Frame>,
    mcSpare: bool)               // a spare token was handed to the multicast queue

  ghost predicate Shape(c: Config, s: Tx) {
    && c.Valid()
    && |s.peers| == MAX_SW_PEERS && |s.pend| == FLOWS
    && |s.tok| == |s.tokFlow| == c.numTokens
    && (forall d | 0 <= d < c.numTokens :: s.tokFlow[d] < FLOWS)
    && Shaped(c, s.pool)
    && |s.opp| == AC_MAX && (forall a | 0 <= a < AC_MAX :: s.opp[a] < MAX_PEERS)
    && (forall i | 0 <= i < |s.wake| :: s.wake[i] < MAX_PEERS)
    && |s.ram| == c.ramSize
    && |s.ring.slots| == c.ringSize && s.ring.host < c.ringSize && s.ring.rpu < c.ringSize
  }

  // ------------------------------------------------------- whose turn is it?

  datatype Pick = Nobody | Woken(peer: nat) | Turn(peer: nat) | Group

  predicate Waiting(s: Tx, p: nat, ac: nat)
    requires |s.pend| == FLOWS && p < MAX_SW_PEERS && ac < AC_MAX
  {
    s.pend[Flow(p, ac)] != []
  }

  /** get_peer_from_wakeup_q: the first client in the wakeup queue with turns left and frames pending. */
  function FirstWoken(c: Config, s: Tx, ac: nat, i: nat): (r: Option<nat>)
    requires Shape(c, s) && ac < AC_MAX && i <= |s.wake|
    ensures r.Some? ==> r.value in s.wake && r.value < MAX_PEERS
    ensures r.Some? ==> s.peers[r.value].psTokens != 0 && Waiting(s, r.value, ac)
    decreases |s.wake| - i
  {
    if i == |s.wake| then None
    else if s.peers[s.wake[i]].psTokens != 0 && Waiting(s, s.wake[i], ac) then Some(s.wake[i])
    else FirstWoken(c, s, ac, i + 1)
  }

  predicate Eligible(s: Tx, p: nat, ac: nat)
    requires |s.peers| == MAX_SW_PEERS && |s.pend| == FLOWS && p < MAX_SW_PEERS && ac < AC_MAX
  {
    !s.peers[p].ps && Waiting(s, p, ac)
  }

  function Cyclic(start: nat, i: nat): nat { (start + i) % MAX_PEERS }

  /** The round-robin search from the `i`-th peer after the one whose opportunity it is. */
  function FirstTurn(c: Config, s: Tx, ac: nat, i: nat): (r: Option<nat>)
    requires Shape(c, s) && ac < AC_MAX && i <= MAX_PEERS
    ensures r.Some? ==> r.value < MAX_PEERS && Eligible(s, r.value, ac)
    decreases MAX_PEERS - i
  {
    if i == MAX_PEERS then None
    else if Eligible(s, Cyclic(s.opp[ac], i), ac) then Some(Cyclic(s.opp[ac], i))
    else FirstTurn(c, s, ac, i + 1)
  }

  /** tx_curr_peer_opp_get. */
  function Choose(c: Config, s: Tx, ac: nat): (k: Pick)
    requires Shape(c, s) && ac < AC_MAX
    ensures k.Woken? || k.Turn? ==> k.peer < MAX_PEERS
  {
    if ac == AC_MC then Group
    else match FirstWoken(c, s, ac, 0)
      case Some(p) => Woken(p)
      case None =>
        match FirstTurn(c, s, ac, 0)
        case Some(p) => Turn(p)
        case None => Nobody
  }

  function PickedPeer(k: Pick): nat
    requires !k.Nobody?
  {
    if k.Group? then MAX_PEERS else k.peer
  }

  /** What choosing a peer costs: a woken client a turn, everybody else their place in the round. */
  function Charge(c: Config, s: Tx, ac: nat, k: Pick): (s': Tx)
    requires Shape(c, s) && ac < AC_MAX && (k.Woken? || k.Turn? ==> k.peer < MAX_PEERS)
    ensures Shape(c, s')
  {
    match k
    case Woken(p) => s.(peers := s.peers[p := s.peers[p].(psTokens := s.peers[p].psTokens - 1)])
    case Turn(p) => s.(opp := s.opp[ac := (p + 1) % MAX_PEERS])
    case _ => s
  }

  // -------------------------------------------------------------- aggregation

  /** The first `m` frames of a pending queue may travel in one command. */
  predicate Aggregable(c: Config, legacy: bool, q: seq<Frame>, m: nat)
    requires m <= |q|
  {
    m == 0 ||
    (&& !legacy
     && m <= c.maxAgg
     && BatchBytes(c, q[..m]) < c.Avail()
     && forall i | 0 <= i < m :: SameAddrs(q[i], q[0]))
  }

  function AggLen(c: Config, legacy: bool, q: seq<Frame>, m: nat): (n: nat)
    requires m <= |q|
    ensures m <= n <= |q|
    decreases |q| - m
  {
    if m < |q| && Aggregable(c, legacy, q, m + 1) then AggLen(c, legacy, q, m + 1) else m
  }

  /** At least one frame goes, even when it does not meet the criteria. */
  function BatchLen(c: Config, legacy: bool, q: seq<Frame>): (n: nat)
    requires q != []
    ensures 1 <= n <= |q|
  {
    var n := AggLen(c, legacy, q, 0);
    if n == 0 then 1 else n
  }

  // ------------------------------------------------------------------- pieces

  /** update_pend_q_bmp: for clients of an access point, bit `ac` says that frames are pending. */
  function UpdateBmp(peers: seq<Peer>, pend: seq<seq<Frame>>, k: nat): (r: seq<Peer>)
    requires |peers| == MAX_SW_PEERS && |pend| == FLOWS && k < FLOWS
    ensures |r| == |peers|
  {
    var p := PeerOf(k);
    if peers[p].ap && p < MAX_PEERS then
      var bmp := peers[p].pendBmp;
      peers[p := peers[p].(pendBmp := if pend[k] == [] then Bits.Clear(bmp, AcOf(k)) else Bits.Set(bmp, AcOf(k)))]
    else peers
  }

  /** tx_enqueue, when the queue is not full. */
  function Enqueue(c: Config, s: Tx, k: nat, f: Frame): (s': Tx)
    requires Shape(c, s) && k < FLOWS
    ensures Shape(c, s')
  {
    var q := if Emergency(f) then [f] + s.pend[k] else s.pend[k] + [f];
    var pend := s.pend[k := q];
    s.(pend := pend, peers := UpdateBmp(s.peers, pend, k), accepted := s.accepted + [Accept(k, f)])
  }

  /** tx_desc_get. */
  function Grant(c: Config, s: Tx, q: nat): (r: Option<(Tx, nat)>)
    requires Shape(c, s) && q < AC_MAX
    ensures r.Some? ==> Shape(c, r.value.0) && r.value.1 < c.numTokens
  {
    match FindFree(c, s.pool.busy, q)
    case None => None
    case Some(d) =>
      FindFreeIs(c, s.pool.busy, q);
      Some((s.(pool := Assign(c, s.pool, q, d), mcSpare := s.mcSpare || (q == AC_MC && d >= c.Reserved())), d))
  }

  /** _tx_pending_process for an empty token `d`: move the next batch of `ac` to the token. */
  function TakeBatch(c: Config, s: Tx, d: nat, ac: nat): (r: Option<Tx>)
    requires Shape(c, s) && d < c.numTokens && ac < AC_MAX
    ensures r.Some? ==> Shape(c, r.value)
  {
    var pick := Choose(c, s, ac);
    if pick.Nobody? then None
    else
      var p := PickedPeer(pick);
      var k := Flow(p, ac);
      if s.pend[k] == [] then None
      else
        var n := BatchLen(c, s.peers[p].legacy, s.pend[k]);
        var s1 := Charge(c, s, ac, pick);
        var pend := s.pend[k := s.pend[k][n..]];
        Some(s1.(pend := pend, peers := UpdateBmp(s1.peers, pend, k),
                 tok := s.tok[d := s.pend[k][..n]], tokFlow := s.tokFlow[d := k]))
  }

  /** pending_frames_count: multicast frames are not counted. */
  function PendingCount(s: Tx, p: nat): nat
    requires |s.pend| == FLOWS && p < MAX_SW_PEERS
  {
    |s.pend[Flow(p, AC_BK)]| + |s.pend[Flow(p, AC_BE)]| + |s.pend[Flow(p, AC_VI)]| + |s.pend[Flow(p, AC_VO)]|
  }

  function BufRefs(c: Config, d: nat, batch: seq<Frame>): seq<BufRef> {
    seq(|batch|, i requires 0 <= i < |batch| => BufRef(c.base + Place(c, d, batch, i), |batch[i].data|))
  }

  /** tx_cmd_prepare: the command for the batch that token `d` holds. */
  function Command(c: Config, s: Tx, d: nat): Cmd
    requires Shape(c, s) && d < c.numTokens && s.tok[d] != []
  {
    var p, batch := PeerOf(s.tokFlow[d]), s.tok[d];
    Cmd(d, Dest(batch[0]), Src(batch[0]), BufRefs(c, d, batch), Emergency(batch[0]),
        s.peers[p].moreIf && PendingCount(s, p) != 0,
        s.peers[p].psTokens == 0)
  }

  /** tx_cmd_init: copy the batch to data RAM, prepare the command and post it. */
  function Send(c: Config, s: Tx, d: nat, turn: bool): (s': Tx)
    requires Shape(c, s) && d < c.numTokens && s.tok[d] != []
    ensures Shape(c, s')
  {
    var p, batch, cmd := PeerOf(s.tokFlow[d]), s.tok[d], Command(c, s, d);
    assert forall x | x in s.wake :: x < MAX_PEERS;
    s.(ram := WriteBatch(c, s.ram, d, batch, |batch|),
       wake := if cmd.eosp then Without(s.wake, p) else s.wake,
       ring := Post(c, s.ring, cmd),
       total := s.total + |batch|,
       log := s.log + [Entry(cmd, s.tokFlow[d], batch, turn)])
  }

  function IsTurn(c: Config, s: Tx, ac: nat): bool
    requires Shape(c, s) && ac < AC_MAX
  {
    Choose(c, s, ac).Turn?
  }

  /** The next batch of `ac` leaves on token `d`. */
  function Dispatch(c: Config, s: Tx, d: nat, ac: nat): (r: Option<Tx>)
    requires Shape(c, s) && d < c.numTokens && ac < AC_MAX
    ensures r.Some? ==> Shape(c, r.value)
  {
    match TakeBatch(c, s, d, ac)
    case None => None
    case Some(s1) => Some(Send(c, s1, d, IsTurn(c, s, ac)))
  }

  function Free(c: Config, s: Tx, d: nat, q: nat): (s': Tx)
    requires Shape(c, s) && d < c.numTokens && q < AC_MAX
    ensures Shape(c, s')
  {
    s.(pool := Release(c, s.pool, d, q))
  }

  /** tx_pending_process. */
  function ServeOrFree(c: Config, s: Tx, d: nat, ac: nat): (s': Tx)
    requires Shape(c, s) && d < c.numTokens && ac < AC_MAX
    ensures Shape(c, s')
  {
    match Dispatch(c, s, d, ac)
    case Some(s1) => s1
    case None => Free(c, s, d, ac)
  }

  /** Get a token for `ac` if there is one, and use it. */
  function Kick(c: Config, s: Tx, ac: nat): (s': Tx)
    requires Shape(c, s) && ac < AC_MAX
    ensures Shape(c, s')
  {
    match Grant(c, s, ac)
    case None => s
    case Some((s1, d)) => ServeOrFree(c, s1, d, ac)
  }

  // ------------------------------------------------------------------- events

  datatype Status = Success | Queued | Fail

  /** tx_process may leave the frame in the queue for a token in flight to pick up. */
  predicate LeftQueued(c: Config, s: Tx, k: nat, f: Frame)
    requires Shape(c, s) && k < FLOWS && s.pend[k] != []
  {
    || s.peers[PeerOf(k)].ps
    || (&& s.pool.out[AcOf(k)] >= c.PerAc()
        && SameAddrs(f, s.pend[k][0])
        && |s.pend[k]| < c.maxAgg)
  }

  /** nrf_wifi_fmac_tx. */
  function Xmit(c: Config, s: Tx, k: nat, f: Frame): (r: (Tx, Status))
    requires Shape(c, s) && k < FLOWS
    ensures Shape(c, r.0)
  {
    if |s.pend[k]| >= c.pendLimit then (s, Fail)
    else
      var s1 := Enqueue(c, s, k, f);
      if LeftQueued(c, s1, k, f) then (s1, Queued)
      else (Kick(c, s1, AcOf(k)), if Grant(c, s1, AcOf(k)).None? then Queued else Success)
  }

  /** The first half of tx_done_process: the frames of the batch are unmapped and freed. */
  function Complete(c: Config, s: Tx, d: nat): (s': Tx)
    requires Shape(c, s) && d < c.numTokens
    ensures Shape(c, s')
  {
    s.(tok := s.tok[d := []], freed := s.freed + s.tok[d], done := s.done + |s.tok[d]|)
  }

  function ChangeOwner(c: Config, s: Tx, d: nat, from: nat, to: nat): (s': Tx)
    requires Shape(c, s) && d < c.numTokens && from < AC_MAX && to < AC_MAX
    ensures Shape(c, s')
  {
    s.(pool := Reown(c, s.pool, d, from, to))
  }

  /** The search of tx_buff_req_free: the first access category, from `ac` down to `last`, that has work. */
  function FirstWork(c: Config, s: Tx, d: nat, ac: nat, last: nat): (r: Option<nat>)
    requires Shape(c, s) && d < c.numTokens && last <= ac < AC_MAX
    ensures r.Some? ==> last <= r.value <= ac && TakeBatch(c, s, d, r.value).Some?
    ensures forall b | (if r.Some? then r.value + 1 else last) <= b <= ac :: TakeBatch(c, s, d, b) == None
    decreases ac
  {
    if TakeBatch(c, s, d, ac).Some? then Some(ac)
    else if ac == last then None
    else FirstWork(c, s, d, ac - 1, last)
  }

  /** tx_buff_req_free and the command that follows. */
  function Refill(c: Config, s: Tx, d: nat, owner: nat, ac: nat, last: nat): (s': Tx)
    requires Shape(c, s) && d < c.numTokens && owner < AC_MAX && last <= ac < AC_MAX
    ensures Shape(c, s')
  {
    match FirstWork(c, s, d, ac, last)
    case Some(a) => Send(c, ChangeOwner(c, TakeBatch(c, s, d, a).value, d, owner, a), d, IsTurn(c, s, a))
    case None => Free(c, s, d, owner)
  }

  /** tx_done_process: a completion for a token that is not in use is rejected. */
  function TxDone(c: Config, s: Tx, d: nat): (s': Tx)
    requires Shape(c, s)
    ensures Shape(c, s')
  {
    if d !in s.pool.busy then s
    else
      var s1 := Complete(c, s, d);
      var q := Owner(c, s.pool, d);
      if d < c.Reserved() then Refill(c, s1, d, q, q, q) else Refill(c, s1, d, q, AC_VO, AC_BK)
  }

  function KickDown(c: Config, s: Tx, ac: nat): (s': Tx)
    requires Shape(c, s) && ac < AC_MAX
    ensures Shape(c, s')
    decreases ac
  {
    if ac == 0 then Kick(c, s, 0) else KickDown(c, Kick(c, s, ac), ac - 1)
  }

  /** sap_client_ps_get_frames. */
  function PsRequest(c: Config, s: Tx, p: nat, num: int): (s': Tx)
    requires Shape(c, s) && p < MAX_PEERS
    ensures Shape(c, s')
  {
    KickDown(c, Request(c, s, p, num), AC_VO)
  }

  function Request(c: Config, s: Tx, p: nat, num: int): (s': Tx)
    requires Shape(c, s) && p < MAX_PEERS
    ensures Shape(c, s')
  {
    s.(peers := s.peers[p := s.peers[p].(psTokens := num)], wake := s.wake + [p])
  }

  /** sap_client_update_pmmode. */
  function PmMode(c: Config, s: Tx, p: nat, ps: bool): (s': Tx)
    requires Shape(c, s) && p < MAX_PEERS
    ensures Shape(c, s')
  {
    var s1 := SetPs(c, s, p, ps);
    if ps then s1 else KickDown(c, s1, AC_VO)
  }

  function SetPs(c: Config, s: Tx, p: nat, ps: bool): (s': Tx)
    requires Shape(c, s) && p < MAX_PEERS
    ensures Shape(c, s')
  {
    s.(peers := s.peers[p := s.peers[p].(ps := ps)], wake := if ps then s.wake else s.wake + [p])
  }

  /** The RPU reads the next command. */
  function Consume(c: Config, s: Tx): (s': Tx)
    requires Shape(c, s)
    ensures Shape(c, s')
  {
    s.(ring := Advance(c, s.ring), taken := s.taken + 1)
  }

  datatype Event =
    | EvXmit(flow: nat, frame: Frame)
    | EvTxDone(desc: nat)
    | EvPsRequest(peer: nat, num: int)
    | EvPmMode(peer: nat, ps: bool)
    | EvConsume

  /**
   What the surroundings promise: the access category for multicast and the multicast pseudo peer
   occur together only (PeerTable.RouteIs; the receiver decides, which for a station is its access
   point whatever the frame says), a frame is no longer than the interface allows, and the RPU
   completes only commands that it has read.
   */
  ghost predicate Enabled(c: Config, s: Tx, e: Event) {
    match e
    case EvXmit(k, f) => k < FLOWS && (AcOf(k) == AC_MC <==> PeerOf(k) == MAX_PEERS) && c.Mappable(f)
    case EvTxDone(d) => d > c.numTokens || (WasSent(s, d) && ReadByRpu(s, d))
    case EvPsRequest(p, num) => p < MAX_PEERS && -128 <= num < 128
    case EvPmMode(p, ps) => p < MAX_PEERS
    case EvConsume => s.taken < |s.log|
  }

  ghost predicate WasSent(s: Tx, d: nat) {
    exists i :: 0 <= i < |s.log| && s.log[i].cmd.desc == d
  }

  ghost predicate ReadByRpu(s: Tx, d: nat) {
    forall i | s.taken <= i < |s.log| :: s.log[i].cmd.desc != d
  }

  function Step(c: Config, s: Tx, e: Event): (s': Tx)
    requires Shape(c, s) && Enabled(c, s, e)
    ensures Shape(c, s')
  {
    match e
    case EvXmit(k, f) => Xmit(c, s, k, f).0
    case EvTxDone(d) => TxDone(c, s, d)
    case EvPsRequest(p, num) => PsRequest(c, s, p, num)
    case EvPmMode(p, ps) => PmMode(c, s, p, ps)
    case EvConsume => Consume(c, s)
  }

  /** The state after tx_init, for some table of peers. */
  ghost predicate Init(c: Config, s: Tx) {
    && Shape(c, s)
    && (forall p | 0 <= p < MAX_SW_PEERS :: !s.peers[p].ps && s.peers[p].psTokens == 0 && s.peers[p].pendBmp == 0)
    && (forall k | 0 <= k < FLOWS :: s.pend[k] == [])
    && (forall d | 0 <= d < c.numTokens :: s.tok[d] == [])
    && s.pool == Pool({}, {}, [0, 0, 0, 0, 0])
    && s.wake == [] && s.log == [] && s.taken == 0 && s.accepted == [] && s.freed == []
    && s.total == s.done == 0 && !s.mcSpare
    && s.ring.host == s.ring.rpu == 0
  }

  ghost predicate Takes(c: Config, s: Tx, e: Event, s': Tx) {
    Shape(c, s) && Enabled(c, s, e) && s' == Step(c, s, e)
  }

  /** A run: the states in `t` follow one another by the events in `es`, each enabled when it happens. */
  ghost predicate Run(c: Config, t: seq<Tx>, es: seq<Event>) {
    && |t| == |es| + 1
    && Shape(c, t[0])
    && forall i {:trigger es[i]} | 0 <= i < |es| :: Takes(c, t[i], es[i], t[i + 1])
  }

  ghost predicate RunFromInit(c: Config, t: seq<Tx>, es: seq<Event>) {
    Run(c, t, es) && Init(c, t[0])
  }

  /** `s` is the last state of a run that starts after tx_init. */
  ghost predicate Reachable(c: Config, s: Tx) {
    Shape(c, s) && exists t, es :: RunFromInit(c, t, es) && t[|t| - 1] == s
  }
}
