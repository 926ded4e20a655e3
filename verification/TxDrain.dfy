/**
 What happens when nothing more arrives: the RPU reads commands and completes them, and every
 completion frees its token or sends the next batch.  That comes to an end, and at the end nothing is
 pending for a peer that is awake, in exactly the configurations that never strand a frame.
 */
module TxDrain {
  import opened Basics
  import opened TxConfig
  import opened PoolModel
  import opened TxModel
  import opened TxInvariant
  import opened TxDispatch
  import opened TxSteps
  import opened TxLive
  import opened TxGrowth
  import opened TxTheorems
  import opened TxFlood
  import opened TxStranded

  /** The RPU reads a command, or completes one that holds a token. */
  ghost predicate RpuWorks(s: Tx, e: Event) { e.EvConsume? || (e.EvTxDone? && e.desc in s.pool.busy) }

  ghost predicate RpuRun(c: Config, t: seq<Tx>, es: seq<Event>) {
    Run(c, t, es) && forall i {:trigger es[i]} | 0 <= i < |es| :: RpuWorks(t[i], es[i])
  }

  /** There is nothing left for the RPU to do. */
  ghost predicate AtRest(c: Config, s: Tx) { forall e | RpuWorks(s, e) :: !Enabled(c, s, e) }

  /** Nothing is pending for any peer that is awake, nor for the multicast peer. */
  ghost predicate Drained(c: Config, s: Tx)
    requires Shape(c, s)
  {
    forall q | 0 <= q < AC_MAX :: !Wanted(c, s, q)
  }

  /** How many steps the RPU can take at most: two for each pending frame, one for each unread command and each token in use. */
  function Budget(s: Tx): int { 2 * Load(s.pend) + (|s.log| - s.taken) + |s.pool.busy| }

  // --------------------------------------------------------------- single steps

  /** What refilling a token does: a batch of an access category from `lo` to `hi` leaves, or the token is freed. */
  ghost predicate Refilled(c: Config, s: Tx, s': Tx, d: nat, lo: nat, hi: nat)
    requires Shape(c, s) && Shape(c, s')
  {
    && s'.taken == s.taken
    && (forall p | 0 <= p < MAX_SW_PEERS :: s'.peers[p].ps == s.peers[p].ps)
    && (forall k | 0 <= k < FLOWS && !(lo <= AcOf(k) <= hi) :: s'.pend[k] == s.pend[k])
    && (|| (s'.pool.busy == s.pool.busy && |s'.log| == |s.log| + 1 && Load(s'.pend) < Load(s.pend))
        || (s'.pool.busy == s.pool.busy - {d} && s'.log == s.log && s'.pend == s.pend))
  }

  lemma DispatchRefills(c: Config, s: Tx, d: nat, ac: nat)
    requires Shape(c, s) && d < c.numTokens && ac < AC_MAX && Dispatch(c, s, d, ac).Some?
    ensures Refilled(c, s, Dispatch(c, s, d, ac).value, d, ac, ac)
  {
    var k, n, e := DispatchMoves(c, s, d, ac);
    DispatchPs(c, s, d, ac);
    LoadUpdate(s.pend, k, s.pend[k][n..]);
  }

  lemma OwnerRefills(c: Config, s: Tx, d: nat, from: nat, to: nat, s': Tx, lo: nat, hi: nat)
    requires Shape(c, s) && d < c.numTokens && from < AC_MAX && lo <= to <= hi < AC_MAX && Shape(c, s')
    requires Refilled(c, ChangeOwner(c, s, d, from, to), s', d, to, to)
    ensures Refilled(c, s, s', d, lo, hi)
  {
    var s1 := ChangeOwner(c, s, d, from, to);
    assert s1 == s.(pool := s1.pool) && s1.pool.busy == s.pool.busy;
  }

  lemma RefillRefills(c: Config, s: Tx, d: nat, owner: nat, ac: nat, last: nat)
    requires Shape(c, s) && d in s.pool.busy && d < c.numTokens && owner < AC_MAX && last <= ac < AC_MAX
    ensures Refilled(c, s, Refill(c, s, d, owner, ac, last), d, last, ac)
  {
    match FirstWork(c, s, d, ac, last)
    case Some(a) =>
      RefillIsDispatch(c, s, d, owner, a);
      DispatchRefills(c, ChangeOwner(c, s, d, owner, a), d, a);
      OwnerRefills(c, s, d, owner, a, Refill(c, s, d, owner, ac, last), last, ac);
    case None =>
  }

  /** The first and the last access category that the completion of a token looks at. */
  function Top(c: Config, d: nat): nat
    requires c.Valid()
  {
    if d < c.Reserved() then d % AC_MAX else AC_VO
  }
  function Bottom(c: Config, d: nat): nat
    requires c.Valid()
  {
    if d < c.Reserved() then d % AC_MAX else AC_BK
  }

  lemma TxDoneRefills(c: Config, s: Tx, d: nat)
    requires Shape(c, s) && d in s.pool.busy && d < c.numTokens
    ensures Refilled(c, s, TxDone(c, s, d), d, Bottom(c, d), Top(c, d))
  {
    var s1, q := Complete(c, s, d), Owner(c, s.pool, d);
    RefillRefills(c, s1, d, q, Top(c, d), Bottom(c, d));
  }

  lemma RefilledSpends(c: Config, s: Tx, s': Tx, d: nat, lo: nat, hi: nat)
    requires Shape(c, s) && Shape(c, s') && d in s.pool.busy && Refilled(c, s, s', d, lo, hi)
    ensures Budget(s') < Budget(s)
  {
    assert s.pool.busy == s.pool.busy - {d} + {d};
  }

  lemma StepSpends(c: Config, s: Tx, e: Event)
    requires Shape(c, s) && Enabled(c, s, e) && RpuWorks(s, e)
    ensures Budget(Step(c, s, e)) < Budget(s)
    ensures forall p | 0 <= p < MAX_SW_PEERS :: Step(c, s, e).peers[p].ps == s.peers[p].ps
  {
    if e.EvTxDone? {
      TxDoneRefills(c, s, e.desc);
      RefilledSpends(c, s, TxDone(c, s, e.desc), e.desc, Bottom(c, e.desc), Top(c, e.desc));
    }
  }

  // ----------------------------------------------------------------------- runs

  lemma {:induction false} RunSpends(c: Config, t: seq<Tx>, es: seq<Event>, i: nat)
    requires RpuRun(c, t, es) && i <= |es|
    ensures Budget(t[i]) + i <= Budget(t[0])
    ensures |t[0].peers| == |t[i].peers| == MAX_SW_PEERS
    ensures forall p | 0 <= p < MAX_SW_PEERS :: t[i].peers[p].ps == t[0].peers[p].ps
  {
    if i > 0 {
      RunSpends(c, t, es, i - 1);
      assert Takes(c, t[i - 1], es[i - 1], t[i]) && RpuWorks(t[i - 1], es[i - 1]);
      StepSpends(c, t[i - 1], es[i - 1]);
    }
  }

  lemma TakesReachable(c: Config, s: Tx, e: Event, s': Tx)
    requires Reachable(c, s) && Takes(c, s, e, s')
    ensures Reachable(c, s')
  {
    StepReachable(c, s, e);
  }

  lemma {:induction false} RunReachable(c: Config, t: seq<Tx>, es: seq<Event>, i: nat)
    requires Run(c, t, es) && Reachable(c, t[0]) && i <= |es|
    ensures Reachable(c, t[i])
  {
    if i > 0 {
      RunReachable(c, t, es, i - 1);
      assert Takes(c, t[i - 1], es[i - 1], t[i]);
      TakesReachable(c, t[i - 1], es[i - 1], t[i]);
    }
  }

  lemma BudgetSigned(c: Config, s: Tx)
    requires Reachable(c, s)
    ensures Budget(s) >= 0
  {
    ReachableInv(c, s);
  }

  /** However the RPU proceeds, it comes to an end within the budget. */
  lemma DrainBound(c: Config, t: seq<Tx>, es: seq<Event>)
    requires RpuRun(c, t, es) && Reachable(c, t[0])
    ensures |es| <= Budget(t[0])
  {
    RunSpends(c, t, es, |es|);
    RunReachable(c, t, es, |es|);
    BudgetSigned(c, t[|es|]);
  }

  // -------------------------------------------------------------------- at rest

  lemma Unfinished(c: Config, s: Tx) returns (e: Event)
    requires Reachable(c, s) && (s.taken < |s.log| || s.pool.busy != {})
    ensures Enabled(c, s, e) && RpuWorks(s, e)
  {
    if s.taken < |s.log| {
      e := EvConsume;
    } else {
      ReachableTidy(c, s);
      ReachableInv(c, s);
      var d :| d in s.pool.busy;
      assert PostedSince(s, 0, d) && WasSent(s, d);
      e := EvTxDone(d);
    }
  }

  lemma RestMeans(c: Config, s: Tx)
    requires Reachable(c, s)
    ensures AtRest(c, s) <==> s.taken == |s.log| && s.pool.busy == {}
  {
    ReachableInv(c, s);
    if s.taken < |s.log| || s.pool.busy != {} {
      var e := Unfinished(c, s);
    }
  }

  /** A run of the RPU from a reachable state to the end. */
  ghost predicate Ends(c: Config, t: seq<Tx>, es: seq<Event>) {
    RpuRun(c, t, es) && Reachable(c, t[0]) && Shape(c, t[|es|]) && AtRest(c, t[|es|])
  }

  lemma EndDrained(c: Config, t: seq<Tx>, es: seq<Event>)
    requires Ends(c, t, es) && NeverStrands(c)
    ensures Drained(c, t[|es|])
  {
    var s := t[|es|];
    RunReachable(c, t, es, |es|);
    RestMeans(c, s);
    ReachableLive(c, s);
  }

  /**
   When it has come to an end, all frames of every peer that was awake at the start, and all
   multicast frames, have been sent, in order; and whatever does not wait for a sleeping peer has
   been freed.
   */
  lemma EndSent(c: Config, t: seq<Tx>, es: seq<Event>, p: nat, q: nat)
    requires Ends(c, t, es) && NeverStrands(c) && p < MAX_SW_PEERS && q < AC_MAX
    requires |t[0].peers| == MAX_SW_PEERS && !t[0].peers[p].ps
    ensures var s, k := t[|es|], Flow(p, q);
            && s.pend[k] == [] && Ordinary(SentOn(s.log, k)) == Ordinary(AcceptedOn(s.accepted, k))
            && multiset(AcceptedFrames(s.accepted)) == Gather(s.pend) + multiset(s.freed)
  {
    var s, k := t[|es|], Flow(p, q);
    EndDrained(c, t, es);
    RunSpends(c, t, es, |es|);
    assert !Wanted(c, s, q) && !Eligible(s, p, q);
    RunReachable(c, t, es, |es|);
    RestMeans(c, s);
    FifoPerFlow(c, s, k);
    RestConserved(c, s);
  }

  lemma RestConserved(c: Config, s: Tx)
    requires Reachable(c, s) && s.pool.busy == {}
    ensures multiset(AcceptedFrames(s.accepted)) == Gather(s.pend) + multiset(s.freed)
  {
    ReachableInv(c, s);
    forall d | 0 <= d < c.numTokens ensures s.tok[d] == [] { assert TokenOk(c, s, None, d); }
    AllEmpty(s.tok);
  }

  // --------------------------------------------------------- runs there always are

  lemma RpuRunExtended(c: Config, t: seq<Tx>, es: seq<Event>, e: Event, s': Tx)
    requires RpuRun(c, t, es) && Takes(c, t[|es|], e, s') && RpuWorks(t[|es|], e)
    ensures RpuRun(c, t + [s'], es + [e])
  {
    RunExtended(c, t, es, e, s');
    forall i | 0 <= i < |es| + 1 ensures RpuWorks((t + [s'])[i], (es + [e])[i]) {
      if i < |es| { assert RpuWorks(t[i], es[i]); }
    }
  }

  lemma OneStepOn(c: Config, t: seq<Tx>, es: seq<Event>) returns (s': Tx, e: Event)
    requires RpuRun(c, t, es) && Reachable(c, t[|es|]) && (t[|es|].taken < |t[|es|].log| || t[|es|].pool.busy != {})
    ensures RpuRun(c, t + [s'], es + [e]) && Reachable(c, s') && 0 <= Budget(s') < Budget(t[|es|])
  {
    var s := t[|es|];
    e := Unfinished(c, s);
    s' := Step(c, s, e);
    StepSpends(c, s, e);
    StepReachable(c, s, e);
    BudgetSigned(c, s');
    RpuRunExtended(c, t, es, e, s');
  }

  /** A run of the RPU can be continued to the end. */
  lemma {:induction false} Continued(c: Config, t: seq<Tx>, es: seq<Event>) returns (t': seq<Tx>, es': seq<Event>)
    requires RpuRun(c, t, es) && Reachable(c, t[0]) && Reachable(c, t[|es|])
    ensures Ends(c, t', es') && t <= t' && es <= es'
    decreases Budget(t[|es|])
  {
    var s := t[|es|];
    RestMeans(c, s);
    if s.taken == |s.log| && s.pool.busy == {} {
      t', es' := t, es;
    } else {
      var s1, e := OneStepOn(c, t, es);
      t', es' := Continued(c, t + [s1], es + [e]);
    }
  }

  /** From every reachable state the RPU can come to an end. */
  lemma DrainExists(c: Config, s: Tx) returns (t: seq<Tx>, es: seq<Event>)
    requires Reachable(c, s)
    ensures Ends(c, t, es) && t[0] == s
  {
    t, es := Continued(c, [s], []);
  }

  // ------------------------------------------------------- frames that stay behind

  /** Access category `q` is wanted and no token will come for it. */
  ghost predicate Abandoned(c: Config, s: Tx, q: nat)
    requires Shape(c, s) && q < AC_MAX
  {
    Wanted(c, s, q) && !Helped(c, s, q)
  }

  lemma TxDoneAbandons(c: Config, s: Tx, d: nat, q: nat)
    requires Shape(c, s) && d in s.pool.busy && d < c.numTokens && q < AC_MAX && Abandoned(c, s, q)
    ensures Abandoned(c, TxDone(c, s, d), q)
  {
    var s' := TxDone(c, s, d);
    TxDoneRefills(c, s, d);
    assert !Serves(c, d, q);
    var p: nat :| p < MAX_SW_PEERS && Eligible(s, p, q);
    assert s'.pend[Flow(p, q)] == s.pend[Flow(p, q)];
    assert Eligible(s', p, q);
  }

  lemma StepAbandons(c: Config, s: Tx, e: Event, q: nat)
    requires Shape(c, s) && Enabled(c, s, e) && RpuWorks(s, e) && q < AC_MAX && Abandoned(c, s, q)
    ensures Abandoned(c, Step(c, s, e), q)
  {
    if e.EvTxDone? {
      TxDoneAbandons(c, s, e.desc, q);
    } else {
      var p: nat :| p < MAX_SW_PEERS && Eligible(s, p, q);
      assert Eligible(Step(c, s, e), p, q);
    }
  }

  lemma {:induction false} RunAbandons(c: Config, t: seq<Tx>, es: seq<Event>, i: nat, q: nat)
    requires RpuRun(c, t, es) && i <= |es| && q < AC_MAX && Abandoned(c, t[0], q)
    ensures Shape(c, t[i]) && Abandoned(c, t[i], q)
  {
    if i > 0 {
      RunAbandons(c, t, es, i - 1, q);
      assert Takes(c, t[i - 1], es[i - 1], t[i]) && RpuWorks(t[i - 1], es[i - 1]);
      StepAbandons(c, t[i - 1], es[i - 1], q);
    }
  }

  lemma SomeAbandoned(c: Config, s: Tx) returns (q: nat)
    requires Shape(c, s) && !NoneStranded(c, s)
    ensures q < AC_MAX && Abandoned(c, s, q)
  {
    q :| 0 <= q < AC_MAX && Wanted(c, s, q) && !Helped(c, s, q);
  }

  lemma AbandonedNotDrained(c: Config, s: Tx, q: nat)
    requires Shape(c, s) && q < AC_MAX && Abandoned(c, s, q)
    ensures !Drained(c, s)
  {
  }

  lemma StaysBehind(c: Config) returns (t: seq<Tx>, es: seq<Event>)
    requires c.Valid() && !NeverStrands(c)
    ensures Ends(c, t, es) && !Drained(c, t[|es|])
  {
    var s := StrandedRun(c);
    DeliveredReachable(c, OneClient(), s);
    var q := SomeAbandoned(c, s);
    t, es := DrainExists(c, s);
    RunAbandons(c, t, es, |es|, q);
    AbandonedNotDrained(c, t[|es|], q);
  }

  /**
   With nothing more arriving, every run of the RPU that comes to an end has sent all that is pending
   for peers that are awake, exactly in the configurations that never strand a frame.
   */
  lemma AlwaysDrainsIff(c: Config)
    requires c.Valid()
    ensures (forall t, es | Ends(c, t, es) :: Drained(c, t[|es|])) <==> NeverStrands(c)
  {
    if NeverStrands(c) {
      forall t, es | Ends(c, t, es) ensures Drained(c, t[|es|]) {
        EndDrained(c, t, es);
      }
    } else {
      var t, es := StaysBehind(c);
    }
  }
}
