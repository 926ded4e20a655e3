/** Runs whose arrivals come from the entry point, and how they fill the multicast queue's tokens. */
module TxFlood {
  import opened Basics
  import opened TxConfig
  import opened PoolModel
  import opened PoolAccounting
  import opened CmdRing
  import opened Aggregation
  import opened TxModel
  import opened TxDispatch
  import opened TxSteps
  import opened TxLive
  import opened PeerTable

  // ------------------------------------------------- arrivals by the entry point

  /** If a frame arrives, it does so on the queue for its receiver: the access point of a station, or its destination. */
  ghost predicate Arrives(table: seq<PeerInfo>, e: Event) {
    && |table| == MAX_SW_PEERS
    && (e.EvXmit? ==> exists bssid, tid: nat :: StationOf(bssid) && Route(table, Receiver(bssid, e.frame), tid, e.flow))
  }

  ghost predicate StationOf(bssid: Option<seq<byte>>) { bssid.Some? ==> |bssid.value| == ETH_ADDR_LEN }

  /** A run in which nrf_wifi_fmac_start_xmit, with this peer table, could have delivered every frame that arrives. */
  ghost predicate EntryRun(c: Config, table: seq<PeerInfo>, t: seq<Tx>, es: seq<Event>) {
    RunFromInit(c, t, es) && forall i | 0 <= i < |es| :: Arrives(table, es[i])
  }

  /** The last state of such a run. */
  ghost predicate Delivered(c: Config, table: seq<PeerInfo>, s: Tx) {
    Shape(c, s) && exists t, es :: EntryRun(c, table, t, es) && t[|t| - 1] == s
  }

  lemma DeliveredReachable(c: Config, table: seq<PeerInfo>, s: Tx)
    requires Delivered(c, table, s)
    ensures Reachable(c, s)
  {
    var t, es :| EntryRun(c, table, t, es) && t[|t| - 1] == s;
    assert RunFromInit(c, t, es);
  }

  lemma InitDelivered(c: Config, table: seq<PeerInfo>, s: Tx)
    requires Init(c, s)
    ensures Delivered(c, table, s)
  {
    assert EntryRun(c, table, [s], []);
  }

  lemma EntryRunExtended(c: Config, table: seq<PeerInfo>, t: seq<Tx>, es: seq<Event>, e: Event, s': Tx)
    requires EntryRun(c, table, t, es) && Takes(c, t[|es|], e, s') && Arrives(table, e)
    ensures EntryRun(c, table, t + [s'], es + [e])
  {
    RunFromInitExtended(c, t, es, e, s');
  }

  lemma RunDelivers(c: Config, table: seq<PeerInfo>, t: seq<Tx>, es: seq<Event>, s: Tx)
    requires EntryRun(c, table, t, es) && s == t[|es|]
    ensures Delivered(c, table, s)
  {
    assert s == t[|t| - 1];
    if |es| > 0 { assert Takes(c, t[|es| - 1], es[|es| - 1], t[|es| - 1 + 1]); }
  }

  lemma StepDelivered(c: Config, table: seq<PeerInfo>, s: Tx, e: Event)
    requires Delivered(c, table, s) && Enabled(c, s, e) && Arrives(table, e)
    ensures Delivered(c, table, Step(c, s, e))
  {
    var t, es :| EntryRun(c, table, t, es) && t[|t| - 1] == s;
    var s' := Step(c, s, e);
    EntryRunExtended(c, table, t, es, e, s');
    RunDelivers(c, table, t + [s'], es + [e], s');
  }

  // ------------------------------------------------------- frames for the run

  const MC_FLOW: nat := Flow(MAX_PEERS, AC_MC)

  const CLIENT_ADDR: seq<byte> := [2, 0, 0, 0, 0, 1]
  const FROM_BRIDGE: seq<byte> := [2, 0, 0, 0, 0, 2, 8, 0]
  const GROUP_FRAME: Frame := Nbuf(0, [1, 0, 0, 0, 0, 1] + FROM_BRIDGE, [0, 0, 0], 0)
  const OTHER_GROUP_FRAME: Frame := Nbuf(1, [1, 0, 0, 0, 0, 2] + FROM_BRIDGE, [0, 0, 0], 0)
  /** The start of an IP packet of user priority 1; its type of service is the second byte behind the header. */
  const CLIENT_FRAME: Frame := Nbuf(2, CLIENT_ADDR + FROM_BRIDGE, [0x45, 0x20, 0], 0)

  /** One client, which knows priorities. */
  function OneClient(): (table: seq<PeerInfo>)
    ensures |table| == MAX_SW_PEERS && First(table, CLIENT_ADDR, 0) && table[0].qos
  {
    var nobody := PeerInfo(false, [], false);
    [PeerInfo(true, CLIENT_ADDR, true), nobody, nobody, nobody, nobody, nobody]
  }

  /** A multicast frame that the entry point of an access point delivers. */
  ghost predicate GroupFrame(c: Config, f: Frame) {
    c.Mappable(f) && !Emergency(f) && Multicast(Dest(f))
  }

  lemma GroupArrives(c: Config, table: seq<PeerInfo>, f: Frame)
    requires |table| == MAX_SW_PEERS && GroupFrame(c, f)
    ensures Arrives(table, EvXmit(MC_FLOW, f))
  {
    assert StationOf(None) && Receiver(None, f) == Dest(f);
    assert Route(table, Receiver(None, f), 0, MC_FLOW);
  }

  lemma TheFrames(c: Config)
    requires c.Valid()
    ensures GroupFrame(c, GROUP_FRAME) && GroupFrame(c, OTHER_GROUP_FRAME) && !SameAddrs(OTHER_GROUP_FRAME, GROUP_FRAME)
    ensures c.Mappable(CLIENT_FRAME) && Arrives(OneClient(), EvXmit(Flow(0, AC_BK), CLIENT_FRAME))
  {
    assert Dest(GROUP_FRAME)[5] == 1 && Dest(OTHER_GROUP_FRAME)[5] == 2;
    assert Dest(GROUP_FRAME)[0] == 1 && Dest(OTHER_GROUP_FRAME)[0] == 1;
    assert Multicast(Dest(GROUP_FRAME)) && Multicast(Dest(OTHER_GROUP_FRAME));
    var ra := Receiver(None, CLIENT_FRAME);
    assert ra == CLIENT_ADDR && !Multicast(CLIENT_ADDR) && StationOf(None);
    assert Route(OneClient(), ra, 1, Flow(0, AC_BK));
  }

  // -------------------------------------------------------- all reserved tokens

  /** The state after `n` multicast commands, with `waiting` pending and nothing else. */
  ghost predicate Flooded(c: Config, s: Tx, n: nat, waiting: seq<Frame>) {
    && Shape(c, s) && !s.mcSpare
    && Plain(s) && Idle(s)
    && s.pend[MC_FLOW] == waiting
    && (forall d | 0 <= d < c.numTokens :: d in s.pool.busy <==> d % AC_MAX == AC_MC && d < AC_MAX * n)
    && s.pool.spare == {} && s.pool.out == [0, 0, 0, 0, n]
  }

  /** Legacy peers, none in power save. */
  ghost predicate Plain(s: Tx) {
    && |s.peers| == MAX_SW_PEERS
    && forall p | 0 <= p < MAX_SW_PEERS :: s.peers[p].legacy && !s.peers[p].ps
  }

  /** Nothing waits for an ordinary peer. */
  ghost predicate Idle(s: Tx) {
    && |s.pend| == FLOWS && s.wake == []
    && forall k | 0 <= k < FLOWS && k != MC_FLOW :: s.pend[k] == []
  }

  lemma DispatchGroup(c: Config, s: Tx, d: nat)
    requires Shape(c, s) && Plain(s) && Idle(s) && d < c.numTokens && s.pend[MC_FLOW] != []
    ensures Dispatch(c, s, d, AC_MC).Some?
    ensures var s', q := Dispatch(c, s, d, AC_MC).value, s.pend[MC_FLOW];
            && Plain(s') && Idle(s') && s'.pool == s.pool && s'.mcSpare == s.mcSpare
            && s'.pend[MC_FLOW] == q[1..]
            && |s'.log| == |s.log| + 1 && s'.log[|s.log|].cmd.desc == d
  {
    var k, n, e := DispatchMoves(c, s, d, AC_MC);
    LegacyAlone(c, s.pend[k]);
    DispatchPs(c, s, d, AC_MC);
    DispatchLegacy(c, s, d, AC_MC);
  }

  lemma DispatchLegacy(c: Config, s: Tx, d: nat, ac: nat)
    requires Shape(c, s) && d < c.numTokens && ac < AC_MAX && Dispatch(c, s, d, ac).Some?
    ensures forall p | 0 <= p < MAX_SW_PEERS :: Dispatch(c, s, d, ac).value.peers[p].legacy == s.peers[p].legacy
  {
  }

  /** The multicast tokens below `AC_MAX * (n + 1)` are those below `AC_MAX * n` and the next one. */
  lemma MulticastTokens(n: nat, d: nat)
    ensures d % AC_MAX == AC_MC && d < AC_MAX * (n + 1) <==> (d % AC_MAX == AC_MC && d < AC_MAX * n) || d == Nth(AC_MC, n)
  {
  }

  lemma NextReserved(c: Config, s: Tx, n: nat, waiting: seq<Frame>)
    requires Flooded(c, s, n, waiting) && n < c.PerAc()
    ensures FindFree(c, s.pool.busy, AC_MC) == Some(Nth(AC_MC, n)) && Nth(AC_MC, n) < c.Reserved()
  {
    FindFreeIs(c, s.pool.busy, AC_MC);
    TokenSplit(c);
    var next := Nth(AC_MC, n);
    MulticastTokens(n, next);
    assert next < c.Reserved() && next % AC_MAX == AC_MC && next !in s.pool.busy;
    var d := FindFree(c, s.pool.busy, AC_MC).value;
    MulticastTokens(n, d);
  }

  lemma EnqueueFlooded(c: Config, s: Tx, n: nat, waiting: seq<Frame>, f: Frame)
    requires Flooded(c, s, n, waiting) && c.Mappable(f) && !Emergency(f)
    ensures Flooded(c, Enqueue(c, s, MC_FLOW, f), n, waiting + [f])
  {
  }

  lemma GrantFlooded(c: Config, s: Tx, n: nat, waiting: seq<Frame>)
    requires Flooded(c, s, n, waiting) && n < c.PerAc()
    ensures Grant(c, s, AC_MC).Some?
    ensures var (s1, d) := Grant(c, s, AC_MC).value;
            && d == Nth(AC_MC, n) && s1 == s.(pool := s1.pool)
            && s1.pool == Pool(s.pool.busy + {d}, {}, [0, 0, 0, 0, n + 1])
  {
    NextReserved(c, s, n, waiting);
    assert n < 256;
  }

  lemma KickFlooded(c: Config, s: Tx, n: nat, f: Frame)
    requires Flooded(c, s, n, [f]) && n < c.PerAc()
    ensures Flooded(c, Kick(c, s, AC_MC), n + 1, [])
  {
    GrantFlooded(c, s, n, [f]);
    var (s1, d) := Grant(c, s, AC_MC).value;
    DispatchGroup(c, s1, d);
    var s' := Dispatch(c, s1, d, AC_MC).value;
    assert Kick(c, s, AC_MC) == s' && s'.pend[MC_FLOW] == [];
    forall e: nat | e < c.numTokens
      ensures e in s'.pool.busy <==> e % AC_MAX == AC_MC && e < AC_MAX * (n + 1)
    {
      MulticastTokens(n, e);
    }
  }

  lemma FloodOne(c: Config, s: Tx, n: nat, f: Frame)
    requires Flooded(c, s, n, []) && n < c.PerAc() && 0 < c.pendLimit && c.Mappable(f) && !Emergency(f)
    ensures Flooded(c, Xmit(c, s, MC_FLOW, f).0, n + 1, [])
  {
    EnqueueFlooded(c, s, n, [], f);
    KickFlooded(c, Enqueue(c, s, MC_FLOW, f), n, f);
  }

  lemma FloodNext(c: Config, table: seq<PeerInfo>, s: Tx, n: nat, f: Frame) returns (s': Tx)
    requires Delivered(c, table, s) && Flooded(c, s, n, []) && n < c.PerAc() && |table| == MAX_SW_PEERS
    requires 0 < c.pendLimit && GroupFrame(c, f)
    ensures Delivered(c, table, s') && Flooded(c, s', n + 1, [])
  {
    GroupArrives(c, table, f);
    StepDelivered(c, table, s, EvXmit(MC_FLOW, f));
    FloodOne(c, s, n, f);
    s' := Step(c, s, EvXmit(MC_FLOW, f));
  }

  /** Each of `n` multicast frames takes a reserved token of its queue. */
  lemma {:induction false} FloodAll(c: Config, table: seq<PeerInfo>, s: Tx, n: nat, f: Frame) returns (s': Tx)
    requires Delivered(c, table, s) && Flooded(c, s, 0, []) && n <= c.PerAc() && |table| == MAX_SW_PEERS
    requires 0 < c.pendLimit && GroupFrame(c, f)
    ensures Delivered(c, table, s') && Flooded(c, s', n, [])
  {
    if n == 0 {
      s' := s;
    } else {
      var s1 := FloodAll(c, table, s, n - 1, f);
      s' := FloodNext(c, table, s1, n - 1, f);
    }
  }

  /** One more multicast frame waits for the tokens in flight. */
  lemma FloodWaits(c: Config, s: Tx, f: Frame)
    requires Flooded(c, s, c.PerAc(), []) && 0 < c.pendLimit && 1 < c.maxAgg && c.Mappable(f) && !Emergency(f)
    ensures Flooded(c, Xmit(c, s, MC_FLOW, f).0, c.PerAc(), [f])
  {
    EnqueueFlooded(c, s, c.PerAc(), [], f);
  }

  /** With the reserved tokens of the multicast queue in use, and no others, the first spare is next. */
  lemma FirstSpare(c: Config, busy: set<nat>)
    requires c.Valid() && 0 < c.Spares()
    requires forall d | 0 <= d < c.numTokens :: d in busy <==> d % AC_MAX == AC_MC && d < c.Reserved()
    ensures FindFree(c, busy, AC_MC) == Some(c.Reserved()) && c.Reserved() < c.numTokens
  {
    TokenSplit(c);
    FindFreeIs(c, busy, AC_MC);
    assert c.Reserved() !in busy;
    match FindFree(c, busy, AC_MC)
    case Some(d) => assert d >= c.Reserved();
    case None =>
  }

  lemma FloodGrant(c: Config, s: Tx, waiting: seq<Frame>)
    requires Flooded(c, s, c.PerAc(), waiting) && 0 < c.Spares()
    ensures Grant(c, s, AC_MC).Some?
    ensures var (s1, d) := Grant(c, s, AC_MC).value;
            && d == c.Reserved() && s1 == s.(pool := s1.pool, mcSpare := true)
            && s1.pool == Pool(s.pool.busy + {d}, {AC_MC}, [0, 0, 0, 0, c.PerAc() + 1])
  {
    FirstSpare(c, s.pool.busy);
    SpareIndex(c, c.Reserved());
    assert c.PerAc() < 256;
  }

  /** The next frame that does not wait takes a spare, and the records no longer agree. */
  lemma FloodLends(c: Config, s: Tx, waiting: seq<Frame>, g: Frame)
    requires Flooded(c, s, c.PerAc(), waiting) && 0 < c.Spares() && |waiting| < c.pendLimit && GroupFrame(c, g)
    requires !LeftQueued(c, Enqueue(c, s, MC_FLOW, g), MC_FLOW, g) && Accounted(c, s.pool)
    ensures !Accounted(c, Xmit(c, s, MC_FLOW, g).0.pool)
  {
    var s1 := Enqueue(c, s, MC_FLOW, g);
    EnqueueFlooded(c, s, c.PerAc(), waiting, g);
    FloodGrant(c, s1, waiting + [g]);
    var (s2, d) := Grant(c, s1, AC_MC).value;
    AssignAccountedIff(c, s.pool, AC_MC);
    DispatchGroup(c, s2, d);
    assert Xmit(c, s, MC_FLOW, g).0.pool == s2.pool;
  }

  /** The state after tx_init in which every peer is a client of an access point, all of them legacy ones or none. */
  function StartState(c: Config, legacy: bool): Tx {
    var peer := Peer(false, legacy, 0, true, true, 0);
    var ring := Ring(seq(c.ringSize, _ => 0), 0, 0, map[]);
    Tx([peer, peer, peer, peer, peer, peer], seq(FLOWS, _ => []), seq(c.numTokens, _ => []),
       seq(c.numTokens, _ => 0), Pool({}, {}, [0, 0, 0, 0, 0]), [0, 0, 0, 0, 0], [],
       seq(c.ramSize, _ => 0), ring, 0, 0, [], 0, [], [], false)
  }

  lemma StartIs(c: Config, table: seq<PeerInfo>, legacy: bool)
    requires c.Valid()
    ensures Init(c, StartState(c, legacy)) && Delivered(c, table, StartState(c, legacy))
  {
    var s := StartState(c, legacy);
    assert Shape(c, s);
    InitDelivered(c, table, s);
  }

  lemma InitExists(c: Config, table: seq<PeerInfo>) returns (s: Tx)
    requires c.Valid()
    ensures Delivered(c, table, s) && Flooded(c, s, 0, [])
  {
    StartIs(c, table, true);
    s := StartState(c, true);
  }

  /** All reserved tokens of the multicast queue are in use. */
  lemma FloodedExists(c: Config) returns (s: Tx)
    requires c.Valid() && 0 < c.pendLimit
    ensures Delivered(c, OneClient(), s) && Flooded(c, s, c.PerAc(), [])
  {
    TheFrames(c);
    var s0 := InitExists(c, OneClient());
    s := FloodAll(c, OneClient(), s0, c.PerAc(), GROUP_FRAME);
  }

  /** And one more frame is pending. */
  lemma FloodedAndWaiting(c: Config) returns (s: Tx)
    requires c.Valid() && 0 < c.pendLimit && 1 < c.maxAgg
    ensures Delivered(c, OneClient(), s) && Flooded(c, s, c.PerAc(), [GROUP_FRAME])
  {
    TheFrames(c);
    var s1 := FloodedExists(c);
    GroupArrives(c, OneClient(), GROUP_FRAME);
    StepDelivered(c, OneClient(), s1, EvXmit(MC_FLOW, GROUP_FRAME));
    FloodWaits(c, s1, GROUP_FRAME);
    s := Step(c, s1, EvXmit(MC_FLOW, GROUP_FRAME));
  }
}
