/** Exactly which configurations never strand a frame. */
module TxStranded {
  import opened Basics
  import opened TxConfig
  import opened PoolModel
  import opened TxModel
  import opened TxInvariant
  import opened TxDispatch
  import opened TxSteps
  import opened TxLive
  import opened PeerTable
  import opened TxFlood

  // ------------------------------------ how a spare gets to the multicast queue

  lemma KickMcSpare(c: Config, s: Tx, q: nat)
    requires Shape(c, s) && q < AC_MAX
    ensures s.mcSpare ==> Kick(c, s, q).mcSpare
    ensures Kick(c, s, q).mcSpare && !s.mcSpare ==> q == AC_MC && ReservedBusy(c, s.pool.busy, q) && 0 < c.Spares()
  {
    FindFreeIs(c, s.pool.busy, q);
    TokenSplit(c);
    if Grant(c, s, q).Some? {
      var (s1, d) := Grant(c, s, q).value;
      if Dispatch(c, s1, d, q).Some? {
        var k, n, e := DispatchMoves(c, s1, d, q);
      }
    }
  }

  lemma KickedMcSpare(c: Config, s: Tx, q: nat, s': Tx)
    requires KickedTo(c, s, q, s') && q < AC_MC
    ensures s'.mcSpare == s.mcSpare
  {
    KickMcSpare(c, s, q);
  }

  lemma KicksMcSpare(c: Config, w: seq<Tx>, q: nat)
    requires Kicks(c, w, q) && q < AC_MC
    ensures w[q + 1].mcSpare == w[0].mcSpare
  {
    for i := 0 to q + 1
      invariant w[i].mcSpare == w[0].mcSpare
    {
      KickedMcSpare(c, w[i], q - i, w[i + 1]);
    }
  }

  lemma {:induction false} KickDownMcSpare(c: Config, s: Tx, q: nat)
    requires Shape(c, s) && q < AC_MC
    ensures KickDown(c, s, q).mcSpare == s.mcSpare
  {
    var w := KickDownStates(c, s, q);
    KicksMcSpare(c, w, q);
    assert w[q + 1] == KickDown(c, s, q);
  }

  lemma RefillMcSpare(c: Config, s: Tx, d: nat, owner: nat, ac: nat, last: nat)
    requires Shape(c, s) && d < c.numTokens && owner < AC_MAX && last <= ac < AC_MAX
    ensures Refill(c, s, d, owner, ac, last).mcSpare == s.mcSpare
  {
  }

  /** Only a multicast frame that finds all tokens reserved for multicast in use takes a spare for multicast. */
  lemma StepMcSpare(c: Config, s: Tx, e: Event)
    requires Shape(c, s) && Enabled(c, s, e)
    ensures s.mcSpare ==> Step(c, s, e).mcSpare
    ensures Step(c, s, e).mcSpare && !s.mcSpare ==>
              && e.EvXmit? && AcOf(e.flow) == AC_MC && |s.pend[e.flow]| < c.pendLimit
              && !LeftQueued(c, Enqueue(c, s, e.flow, e.frame), e.flow, e.frame)
              && ReservedBusy(c, s.pool.busy, AC_MC) && 0 < c.Spares()
  {
    match e
    case EvXmit(k, f) => KickMcSpare(c, Enqueue(c, s, k, f), AcOf(k));
    case EvTxDone(d) =>
      if d in s.pool.busy {
        var owner := Owner(c, s.pool, d);
        if d < c.Reserved() {
          RefillMcSpare(c, Complete(c, s, d), d, owner, owner, owner);
        } else {
          RefillMcSpare(c, Complete(c, s, d), d, owner, AC_VO, AC_BK);
        }
      }
    case EvPsRequest(p, num) => KickDownMcSpare(c, Request(c, s, p, num), AC_VO);
    case EvPmMode(p, ps) => if !ps { KickDownMcSpare(c, SetPs(c, s, p, ps), AC_VO); }
    case EvConsume =>
  }

  lemma {:induction false} ReservedCard(c: Config, s: set<nat>, q: nat, n: nat)
    requires n <= c.PerAc() && forall i | 0 <= i < n :: Nth(q, i) in s
    ensures n <= |s|
  {
    if n > 0 {
      var last := Nth(q, n - 1);
      forall i | 0 <= i < n - 1 ensures Nth(q, i) in s - {last} { assert Nth(q, i) in s; }
      ReservedCard(c, s - {last}, q, n - 1);
    }
  }

  lemma AllReservedOwned(c: Config, p: Pool, q: nat)
    requires c.Valid() && q < AC_MAX && ReservedBusy(c, p.busy, q)
    ensures c.PerAc() <= |Owned(c, p, q)|
  {
    forall i | 0 <= i < c.PerAc() ensures Nth(q, i) in Owned(c, p, q) {
      assert Nth(q, i) < c.Reserved() && Nth(q, i) % AC_MAX == q;
    }
    ReservedCard(c, Owned(c, p, q), q, c.PerAc());
  }

  lemma ShortQueueWaits(c: Config, s: Tx, k: nat, f: Frame)
    requires Inv(c, s, None) && k < FLOWS && AcOf(k) == AC_MC && !s.mcSpare
    requires |s.pend[k]| < c.pendLimit <= 1 < c.maxAgg && ReservedBusy(c, s.pool.busy, AC_MC)
    ensures LeftQueued(c, Enqueue(c, s, k, f), k, f)
  {
    AllReservedOwned(c, s.pool, AC_MC);
    assert s.pool.out[AC_MC] == |Owned(c, s.pool, AC_MC)|;
    assert s.pend[k] == [] && Enqueue(c, s, k, f).pend[k] == [f];
  }

  /** With room for one pending frame only, a multicast frame that goes out at once finds a reserved token. */
  lemma ShortQueueNoMcSpare(c: Config, s: Tx, e: Event)
    requires Inv(c, s, None) && Enabled(c, s, e) && !s.mcSpare
    requires c.pendLimit == 0 || (c.pendLimit == 1 && 1 < c.maxAgg)
    ensures !Step(c, s, e).mcSpare
  {
    StepMcSpare(c, s, e);
    match e
    case EvXmit(k, f) =>
      if AcOf(k) == AC_MC && |s.pend[k]| < c.pendLimit && ReservedBusy(c, s.pool.busy, AC_MC) {
        ShortQueueWaits(c, s, k, f);
      }
    case _ =>
  }

  // ------------------------------------------------------ runs that strand nothing

  /** No spare token ever goes to the multicast queue. */
  predicate NeverLends(c: Config) {
    c.Spares() == 0 || c.pendLimit == 0 || (c.pendLimit == 1 && 1 < c.maxAgg)
  }

  /** Three settings, each of which is enough. */
  predicate NeverStrands(c: Config) { c.Spares() == 0 || c.maxAgg <= 1 || c.pendLimit <= 1 }

  /** The invariant holds and nothing is stranded. */
  ghost predicate Alive(c: Config, s: Tx) { forall hole | hole == None :: Inv(c, s, hole) && NoneStranded(c, s) }

  lemma TakesAlive(c: Config, s: Tx, e: Event, s': Tx)
    requires Takes(c, s, e, s') && Alive(c, s)
    requires c.maxAgg <= 1 || !s.mcSpare
    ensures Alive(c, s')
  {
    assert Inv(c, s, None);
    StepInv(c, s, e);
    StepLive(c, s, e);
  }

  lemma TakesMcSpare(c: Config, s: Tx, e: Event, s': Tx)
    requires Takes(c, s, e, s') && s.mcSpare
    ensures s'.mcSpare
  {
    StepMcSpare(c, s, e);
  }

  /** A run in which no spare goes to the multicast queue strands nothing, whatever the configuration. */
  lemma {:induction false} RunLive(c: Config, t: seq<Tx>, es: seq<Event>, i: nat)
    requires Run(c, t, es) && i < |t| && Alive(c, t[0])
    requires c.maxAgg <= 1 || !t[i].mcSpare
    ensures Alive(c, t[i])
  {
    if i > 0 {
      assert Takes(c, t[i - 1], es[i - 1], t[i]);
      if t[i - 1].mcSpare { TakesMcSpare(c, t[i - 1], es[i - 1], t[i]); }
      RunLive(c, t, es, i - 1);
      TakesAlive(c, t[i - 1], es[i - 1], t[i]);
    }
  }

  lemma {:induction false} RunNoMcSpare(c: Config, t: seq<Tx>, es: seq<Event>, i: nat)
    requires Run(c, t, es) && i < |t| && Inv(c, t[0], None) && !t[0].mcSpare
    requires NeverLends(c)
    ensures !t[i].mcSpare
  {
    if i > 0 {
      RunNoMcSpare(c, t, es, i - 1);
      RunInv(c, t, es, i - 1);
      assert Takes(c, t[i - 1], es[i - 1], t[i]);
      StepMcSpare(c, t[i - 1], es[i - 1]);
      if c.Spares() != 0 { ShortQueueNoMcSpare(c, t[i - 1], es[i - 1]); }
    }
  }

  lemma InitLive(c: Config, s: Tx)
    requires Init(c, s)
    ensures NoneStranded(c, s)
  {
    assert forall q, p | 0 <= q < AC_MAX && 0 <= p < MAX_SW_PEERS :: s.pend[Flow(p, q)] == [];
  }

  lemma ReachableLive(c: Config, s: Tx)
    requires Reachable(c, s) && (!s.mcSpare || NeverStrands(c))
    ensures NoneStranded(c, s)
  {
    var t, es :| RunFromInit(c, t, es) && t[|t| - 1] == s;
    InitInv(c, t[0]);
    InitLive(c, t[0]);
    if s.mcSpare && 1 < c.maxAgg { RunNoMcSpare(c, t, es, |t| - 1); }
    RunLive(c, t, es, |t| - 1);
    assert Inv(c, s, None);
  }

  // ------------------------------------------------------ a run that strands a frame

  /** The state after the multicast queue took the first spare. */
  ghost predicate Spared(c: Config, s: Tx, g: Frame) {
    && Shape(c, s) && Plain(s) && Idle(s)
    && s.pend[MC_FLOW] == [g]
    && (forall d | d in s.pool.busy :: d == c.Reserved() || (d < c.Reserved() && d % AC_MAX == AC_MC))
    && c.Reserved() in s.pool.busy
    && s.pool.spare == {AC_MC} && s.pool.out == [0, 0, 0, 0, c.PerAc() + 1]
    && WasSent(s, c.Reserved())
  }

  lemma FloodTakesSpare(c: Config, s: Tx, f: Frame, g: Frame)
    requires Flooded(c, s, c.PerAc(), [f]) && 0 < c.Spares() && 1 < c.pendLimit
    requires c.Mappable(g) && !Emergency(g) && !SameAddrs(g, f)
    ensures Spared(c, Xmit(c, s, MC_FLOW, g).0, g)
  {
    var s1 := Enqueue(c, s, MC_FLOW, g);
    EnqueueFlooded(c, s, c.PerAc(), [f], g);
    FloodGrant(c, s1, [f, g]);
    var (s2, d) := Grant(c, s1, AC_MC).value;
    DispatchGroup(c, s2, d);
    var s' := Dispatch(c, s2, d, AC_MC).value;
    assert s'.log[|s'.log| - 1].cmd.desc == d;
  }

  lemma {:induction false} ConsumeAll(c: Config, table: seq<PeerInfo>, s: Tx, g: Frame) returns (s': Tx)
    requires Delivered(c, table, s) && Spared(c, s, g) && s.taken <= |s.log| && |table| == MAX_SW_PEERS
    ensures Delivered(c, table, s') && Spared(c, s', g) && s'.taken == |s'.log|
    decreases |s.log| - s.taken
  {
    if s.taken == |s.log| {
      s' := s;
    } else {
      var s1 := Consume(c, s);
      StepDelivered(c, table, s, EvConsume);
      assert WasSent(s1, c.Reserved());
      s' := ConsumeAll(c, table, s1, g);
    }
  }

  /** The completion of that spare is charged to the background queue, whose counter wraps. */
  ghost predicate Wrapped(c: Config, s: Tx) {
    && Shape(c, s) && Plain(s) && Idle(s)
    && (forall d | d in s.pool.busy :: d < c.Reserved() && d % AC_MAX == AC_MC)
    && s.pool.out[AC_BK] == UINT_MAX
  }

  lemma NothingBelow(c: Config, s: Tx, d: nat, ac: nat)
    requires Shape(c, s) && Idle(s) && d < c.numTokens && ac < AC_MC
    ensures TakeBatch(c, s, d, ac) == None
  {
  }

  lemma SpareWraps(c: Config, s: Tx, g: Frame)
    requires Spared(c, s, g) && 0 < c.Spares()
    ensures Wrapped(c, TxDone(c, s, c.Reserved()))
  {
    TokenSplit(c);
    var d := c.Reserved();
    SpareIndex(c, d);
    assert Owner(c, s.pool, d) == AC_BK;
    var s1 := Complete(c, s, d);
    var a := FirstWork(c, s1, d, AC_VO, AC_BK);
    if a.Some? { NothingBelow(c, s1, d, a.value); }
  }

  lemma FrameStranded(c: Config, s: Tx, f: Frame)
    requires Wrapped(c, s) && 0 < c.pendLimit && 1 < c.maxAgg
    ensures !NoneStranded(c, Xmit(c, s, Flow(0, AC_BK), f).0)
  {
    var k := Flow(0, AC_BK);
    var s' := Xmit(c, s, k, f).0;
    assert s.pend[k] == [];
    assert s' == Enqueue(c, s, k, f);
    assert Eligible(s', 0, AC_BK);
    assert Wanted(c, s', AC_BK);
    assert !Helped(c, s', AC_BK);
  }

  // ------------------------------------------------------------------ exactly when

  /** The multicast queue takes a spare, and the RPU reads its command. */
  lemma SparedExists(c: Config) returns (s: Tx)
    requires c.Valid() && !NeverStrands(c)
    ensures Delivered(c, OneClient(), s) && Spared(c, s, OTHER_GROUP_FRAME) && s.taken == |s.log|
  {
    var e := EvXmit(MC_FLOW, OTHER_GROUP_FRAME);
    TheFrames(c);
    var s2 := FloodedAndWaiting(c);
    GroupArrives(c, OneClient(), OTHER_GROUP_FRAME);
    StepDelivered(c, OneClient(), s2, e);
    FloodTakesSpare(c, s2, GROUP_FRAME, OTHER_GROUP_FRAME);
    var s3 := Step(c, s2, e);
    DeliveredReachable(c, OneClient(), s3);
    ReachableInv(c, s3);
    s := ConsumeAll(c, OneClient(), s3, OTHER_GROUP_FRAME);
  }

  /**
   A run that strands a frame, for an access point with one client: multicast frames to one group
   use up the reserved tokens and one more waits, a frame to another group takes a spare, the RPU
   completes it, and then a background frame for the client finds no token and none on its way.
   */
  lemma StrandedRun(c: Config) returns (s: Tx)
    requires c.Valid() && !NeverStrands(c)
    ensures Delivered(c, OneClient(), s) && !NoneStranded(c, s)
  {
    var table, k := OneClient(), Flow(0, AC_BK);
    var s4 := SparedExists(c);
    StepDelivered(c, table, s4, EvTxDone(c.Reserved()));
    SpareWraps(c, s4, OTHER_GROUP_FRAME);
    var s5 := TxDone(c, s4, c.Reserved());
    assert s5 == Step(c, s4, EvTxDone(c.Reserved()));
    TheFrames(c);
    StepDelivered(c, table, s5, EvXmit(k, CLIENT_FRAME));
    FrameStranded(c, s5, CLIENT_FRAME);
    s := Xmit(c, s5, k, CLIENT_FRAME).0;
  }

  /**
   No run strands a frame exactly when there are no spare tokens, or frames are not aggregated, or a
   queue holds one frame at most; whatever the arrivals, or with those only that the entry point can
   make.  In particular the shipped configuration, with 12 tokens and hence two spares, does strand
   frames: a spare lent to the multicast queue is booked to another.
   */
  lemma NeverStrandsIff(c: Config)
    requires c.Valid()
    ensures (forall s | Reachable(c, s) :: NoneStranded(c, s)) <==> NeverStrands(c)
    ensures (forall table, s | Delivered(c, table, s) :: NoneStranded(c, s)) <==> NeverStrands(c)
  {
    if NeverStrands(c) {
      forall s | Reachable(c, s) ensures NoneStranded(c, s) {
        ReachableLive(c, s);
      }
      forall table, s | Delivered(c, table, s) ensures NoneStranded(c, s) {
        DeliveredReachable(c, table, s);
      }
    } else {
      var s := StrandedRun(c);
      DeliveredReachable(c, OneClient(), s);
    }
  }

  // ------------------------------------------------------ when the records agree

  lemma ReachableAccounted(c: Config, s: Tx)
    requires Reachable(c, s) && NeverLends(c)
    ensures Accounted(c, s.pool)
  {
    var t, es :| RunFromInit(c, t, es) && t[|t| - 1] == s;
    InitInv(c, t[0]);
    RunNoMcSpare(c, t, es, |t| - 1);
    RunInv(c, t, es, |t| - 1);
  }

  /** A flooded state from which the frame `g` does not wait. */
  lemma ReadyToLend(c: Config) returns (s: Tx, waiting: seq<Frame>)
    requires c.Valid() && !NeverLends(c)
    ensures Delivered(c, OneClient(), s) && Flooded(c, s, c.PerAc(), waiting) && |waiting| < c.pendLimit
    ensures !LeftQueued(c, Enqueue(c, s, MC_FLOW, OTHER_GROUP_FRAME), MC_FLOW, OTHER_GROUP_FRAME)
  {
    TheFrames(c);
    if c.maxAgg <= 1 {
      s := FloodedExists(c);
      waiting := [];
    } else {
      s := FloodedAndWaiting(c);
      waiting := [GROUP_FRAME];
    }
    EnqueueFlooded(c, s, c.PerAc(), waiting, OTHER_GROUP_FRAME);
  }

  lemma UnaccountedRun(c: Config) returns (s: Tx)
    requires c.Valid() && !NeverLends(c)
    ensures Delivered(c, OneClient(), s) && !Accounted(c, s.pool)
  {
    var e := EvXmit(MC_FLOW, OTHER_GROUP_FRAME);
    TheFrames(c);
    var s1, waiting := ReadyToLend(c);
    DeliveredReachable(c, OneClient(), s1);
    ReachableInv(c, s1);
    GroupArrives(c, OneClient(), OTHER_GROUP_FRAME);
    StepDelivered(c, OneClient(), s1, e);
    FloodLends(c, s1, waiting, OTHER_GROUP_FRAME);
    s := Step(c, s1, e);
  }

  /**
   The bitmap, the counters and the nibble map agree in every reachable state exactly when there are
   no spares, or nothing is ever queued, or queues hold one frame and frames are aggregated.
   */
  lemma AlwaysAccountedIff(c: Config)
    requires c.Valid()
    ensures (forall s | Reachable(c, s) :: Accounted(c, s.pool)) <==> NeverLends(c)
    ensures (forall table, s | Delivered(c, table, s) :: Accounted(c, s.pool)) <==> NeverLends(c)
  {
    if NeverLends(c) {
      forall s | Reachable(c, s) ensures Accounted(c, s.pool) {
        ReachableAccounted(c, s);
      }
      forall table, s | Delivered(c, table, s) ensures Accounted(c, s.pool) {
        DeliveredReachable(c, table, s);
      }
    } else {
      var s := UnaccountedRun(c);
      DeliveredReachable(c, OneClient(), s);
    }
  }
}
