/** When a posted command announces that more data follows. */
module TxMoreData {
  import opened TxConfig
  import opened PoolModel
  import opened TxModel
  import opened TxDispatch
  import opened TxSteps

  /** A unicast frame for peer `p` is pending. */
  ghost predicate MorePending(s: Tx, p: nat)
    requires |s.pend| == FLOWS && p < MAX_SW_PEERS
  {
    exists a :: 0 <= a < AC_MC && Waiting(s, p, a)
  }

  lemma CountIsPending(s: Tx, p: nat)
    requires |s.pend| == FLOWS && p < MAX_SW_PEERS
    ensures PendingCount(s, p) != 0 <==> MorePending(s, p)
  {
    if PendingCount(s, p) != 0 {
      assert Waiting(s, p, AC_BK) || Waiting(s, p, AC_BE) || Waiting(s, p, AC_VI) || Waiting(s, p, AC_VO);
    }
  }

  /** Sending leaves the queues as they are, so the count that the command is made from is still right afterwards. */
  lemma SendMore(c: Config, s: Tx, d: nat, turn: bool) returns (e: Entry)
    requires Shape(c, s) && d < c.numTokens && s.tok[d] != []
    ensures var s' := Send(c, s, d, turn);
            && s'.log == s.log + [e] && s'.pend == s.pend && s'.peers == s.peers
            && e.flow == s.tokFlow[d] && e.flow < FLOWS
            && (e.cmd.more <==> s'.peers[PeerOf(e.flow)].moreIf && MorePending(s', PeerOf(e.flow)))
  {
    var s' := Send(c, s, d, turn);
    e := Entry(Command(c, s, d), s.tokFlow[d], s.tok[d], turn);
    var p := PeerOf(e.flow);
    CountIsPending(s, p);
    assert forall a | 0 <= a < AC_MC :: Waiting(s', p, a) == Waiting(s, p, a);
  }

  lemma TakeMoreIf(c: Config, s: Tx, d: nat, ac: nat)
    requires Shape(c, s) && d < c.numTokens && ac < AC_MAX && TakeBatch(c, s, d, ac).Some?
    ensures TakeBatch(c, s, d, ac).value.log == s.log
    ensures forall p | 0 <= p < MAX_SW_PEERS :: TakeBatch(c, s, d, ac).value.peers[p].moreIf == s.peers[p].moreIf
  {
  }

  /**
   The command that a batch leaves with announces more data exactly when the interface of the peer
   is one that does so and, the batch gone, a unicast frame for that peer is still pending.
   */
  lemma MoreDataExact(c: Config, s: Tx, d: nat, ac: nat) returns (e: Entry)
    requires Shape(c, s) && d < c.numTokens && ac < AC_MAX && Dispatch(c, s, d, ac).Some?
    ensures var s' := Dispatch(c, s, d, ac).value;
            && s'.log == s.log + [e] && e.flow < FLOWS
            && (e.cmd.more <==> s.peers[PeerOf(e.flow)].moreIf && MorePending(s', PeerOf(e.flow)))
  {
    TakeMoreIf(c, s, d, ac);
    e := SendMore(c, TakeBatch(c, s, d, ac).value, d, IsTurn(c, s, ac));
  }

  // ----------------------------------------------------- steps that post several

  /** Unicast frames of `p` left in one of the commands from number `i` on. */
  ghost predicate Left(s: Tx, i: nat, p: nat) {
    exists j :: i <= j < |s.log| && s.log[j].flow < FLOWS && PeerOf(s.log[j].flow) == p && AcOf(s.log[j].flow) < AC_MC
  }

  /** When command `i` was posted, a unicast frame of `p` was pending: it still is, or it left with a later command. */
  ghost predicate Followed(s: Tx, i: nat, p: nat)
    requires |s.pend| == FLOWS && p < MAX_SW_PEERS
  {
    MorePending(s, p) || Left(s, i + 1, p)
  }

  ghost predicate Exact(s: Tx, i: nat)
    requires |s.pend| == FLOWS && |s.peers| == MAX_SW_PEERS && i < |s.log|
  {
    && s.log[i].flow < FLOWS
    && (s.log[i].cmd.more <==> s.peers[PeerOf(s.log[i].flow)].moreIf && Followed(s, i, PeerOf(s.log[i].flow)))
  }

  /** The commands from number `n` on announce the truth about the rest of the step. */
  ghost predicate ExactFrom(c: Config, s: Tx, n: nat)
    requires Shape(c, s)
  {
    n <= |s.log| && forall i | n <= i < |s.log| :: Exact(s, i)
  }

  lemma FollowedMoved(c: Config, s: Tx, d: nat, k: nat, n: nat, e: Entry, s': Tx, i: nat, p: nat)
    requires Shape(c, s) && Moved(c, s, d, k, n, e, s') && i < |s.log| && p < MAX_SW_PEERS
    ensures Followed(s', i, p) <==> Followed(s, i, p)
  {
    if PeerOf(k) == p && AcOf(k) < AC_MC {
      assert s'.log[|s.log|] == e;
      assert Waiting(s, p, AcOf(k));
    } else {
      forall a: nat | a < AC_MC ensures Waiting(s', p, a) == Waiting(s, p, a) {}
      LeftMoved(s, s', e, i + 1, p);
    }
  }

  lemma LeftMoved(s: Tx, s': Tx, e: Entry, i: nat, p: nat)
    requires s'.log == s.log + [e] && i <= |s.log|
    requires !(e.flow < FLOWS && PeerOf(e.flow) == p && AcOf(e.flow) < AC_MC)
    ensures Left(s', i, p) <==> Left(s, i, p)
  {
    if Left(s, i, p) {
      var j :| i <= j < |s.log| && s.log[j].flow < FLOWS && PeerOf(s.log[j].flow) == p && AcOf(s.log[j].flow) < AC_MC;
      assert s'.log[j] == s.log[j];
    }
  }

  lemma DispatchExact(c: Config, s: Tx, d: nat, ac: nat, n: nat)
    requires Shape(c, s) && d < c.numTokens && ac < AC_MAX && Dispatch(c, s, d, ac).Some? && ExactFrom(c, s, n)
    ensures ExactFrom(c, Dispatch(c, s, d, ac).value, n)
  {
    var s' := Dispatch(c, s, d, ac).value;
    var k, m, e := DispatchMoves(c, s, d, ac);
    var e' := MoreDataExact(c, s, d, ac);
    TakeMoreIf(c, s, d, ac);
    assert s'.log[|s.log|] == e == e';
    assert !Left(s', |s.log| + 1, PeerOf(e.flow));
    forall i | n <= i < |s.log| ensures Exact(s', i) {
      assert Exact(s, i);
      FollowedMoved(c, s, d, k, m, e, s', i, PeerOf(s.log[i].flow));
    }
  }

  lemma SameExact(c: Config, s: Tx, s': Tx, n: nat)
    requires Shape(c, s) && Shape(c, s') && ExactFrom(c, s, n) && s'.log == s.log && s'.pend == s.pend
    requires forall p | 0 <= p < MAX_SW_PEERS :: s'.peers[p].moreIf == s.peers[p].moreIf
    ensures ExactFrom(c, s', n)
  {
    forall i | n <= i < |s.log| ensures Exact(s', i) {
      assert Exact(s, i);
      var p := PeerOf(s.log[i].flow);
      forall a: nat | a < AC_MC ensures Waiting(s', p, a) == Waiting(s, p, a) {}
    }
  }

  lemma ServeOrFreeExact(c: Config, s: Tx, d: nat, ac: nat, n: nat)
    requires Shape(c, s) && d < c.numTokens && ac < AC_MAX && ExactFrom(c, s, n)
    ensures ExactFrom(c, ServeOrFree(c, s, d, ac), n)
  {
    if Dispatch(c, s, d, ac).Some? {
      DispatchExact(c, s, d, ac, n);
    } else {
      SameExact(c, s, Free(c, s, d, ac), n);
    }
  }

  lemma KickExact(c: Config, s: Tx, ac: nat, n: nat)
    requires Shape(c, s) && ac < AC_MAX && ExactFrom(c, s, n)
    ensures ExactFrom(c, Kick(c, s, ac), n)
  {
    if Grant(c, s, ac).Some? {
      var (s1, d) := Grant(c, s, ac).value;
      SameExact(c, s, s1, n);
      ServeOrFreeExact(c, s1, d, ac, n);
    }
  }

  lemma KickedExact(c: Config, s: Tx, ac: nat, s': Tx, n: nat)
    requires KickedTo(c, s, ac, s') && ExactFrom(c, s, n)
    ensures ExactFrom(c, s', n)
  {
    KickExact(c, s, ac, n);
  }

  lemma KicksExact(c: Config, w: seq<Tx>, ac: nat, n: nat)
    requires Kicks(c, w, ac) && Shape(c, w[0]) && ExactFrom(c, w[0], n)
    ensures Shape(c, w[ac + 1]) && ExactFrom(c, w[ac + 1], n)
  {
    for i := 0 to ac + 1
      invariant Shape(c, w[i]) && ExactFrom(c, w[i], n)
    {
      KickedExact(c, w[i], ac - i, w[i + 1], n);
    }
  }

  lemma {:induction false} KickDownExact(c: Config, s: Tx, ac: nat, n: nat)
    requires Shape(c, s) && ac < AC_MAX && ExactFrom(c, s, n)
    ensures ExactFrom(c, KickDown(c, s, ac), n)
  {
    var w := KickDownStates(c, s, ac);
    KicksExact(c, w, ac, n);
    assert w[ac + 1] == KickDown(c, s, ac);
  }

  lemma RefillExact(c: Config, s: Tx, d: nat, owner: nat, ac: nat, last: nat, n: nat)
    requires Shape(c, s) && d < c.numTokens && owner < AC_MAX && last <= ac < AC_MAX && ExactFrom(c, s, n)
    ensures ExactFrom(c, Refill(c, s, d, owner, ac, last), n)
  {
    match FirstWork(c, s, d, ac, last)
    case Some(a) =>
      RefillIsDispatch(c, s, d, owner, a);
      SameExact(c, s, ChangeOwner(c, s, d, owner, a), n);
      DispatchExact(c, ChangeOwner(c, s, d, owner, a), d, a, n);
    case None =>
      SameExact(c, s, Free(c, s, d, owner), n);
  }

  lemma TxDoneExact(c: Config, s: Tx, d: nat)
    requires Shape(c, s)
    ensures ExactFrom(c, TxDone(c, s, d), |s.log|)
  {
    if d in s.pool.busy {
      var s1, q := Complete(c, s, d), Owner(c, s.pool, d);
      if d < c.Reserved() {
        RefillExact(c, s1, d, q, q, q, |s.log|);
      } else {
        RefillExact(c, s1, d, q, AC_VO, AC_BK, |s.log|);
      }
    }
  }

  /**
   Every command that a step posts announces more data exactly when the interface of its peer is one
   that does so and, its own frames gone, a unicast frame for that peer is still pending: it is at
   the end of the step, or it left with a later command of the same step.
   */
  lemma StepExact(c: Config, s: Tx, e: Event)
    requires Shape(c, s) && Enabled(c, s, e)
    ensures ExactFrom(c, Step(c, s, e), |s.log|)
  {
    var n := |s.log|;
    match e
    case EvXmit(k, f) =>
      if |s.pend[k]| < c.pendLimit { KickExact(c, Enqueue(c, s, k, f), AcOf(k), n); }
    case EvTxDone(d) => TxDoneExact(c, s, d);
    case EvPsRequest(p, num) => KickDownExact(c, Request(c, s, p, num), AC_VO, n);
    case EvPmMode(p, ps) => KickDownExact(c, SetPs(c, s, p, ps), AC_VO, n);
    case EvConsume =>
  }

  /** The step that posts command `i` in a run says so truly. */
  lemma RunExact(c: Config, t: seq<Tx>, es: seq<Event>, n: nat, i: nat)
    requires Run(c, t, es) && n < |es| && |t[n].log| <= i < |t[n + 1].log|
    ensures Takes(c, t[n], es[n], t[n + 1]) && Exact(t[n + 1], i)
  {
    assert Takes(c, t[n], es[n], t[n + 1]);
    StepExact(c, t[n], es[n]);
  }
}
