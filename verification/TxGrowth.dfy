/**
 What serving the queues adds and what it leaves: commands are appended for the frames that leave,
 and no queue grows.  So queues and batches stay within the limit for queues, and every token in use
 has been sent.
 */
module TxGrowth {
  import opened TxConfig
  import opened PoolModel
  import opened TxModel
  import opened TxDispatch
  import opened TxSteps

  /** A command for token `d` is number `n` or a later one. */
  ghost predicate PostedSince(s: Tx, n: nat, d: nat) {
    exists i :: n <= i < |s.log| && s.log[i].cmd.desc == d
  }

  /** The frames of the command were pending in `s`. */
  ghost predicate EntryFrom(s: Tx, e: Entry) {
    |s.pend| == FLOWS && e.flow < FLOWS && |e.frames| <= |s.pend[e.flow]|
  }

  ghost predicate Grows(c: Config, s: Tx, s': Tx)
    requires Shape(c, s) && Shape(c, s')
  {
    && s.log <= s'.log && s'.taken == s.taken
    && (forall k | 0 <= k < FLOWS :: |s'.pend[k]| <= |s.pend[k]|)
    && (forall i | |s.log| <= i < |s'.log| :: EntryFrom(s, s'.log[i]))
    && (forall d | d in s'.pool.busy && d !in s.pool.busy :: PostedSince(s', |s.log|, d))
  }

  lemma GrowsTrans(c: Config, s: Tx, s1: Tx, s2: Tx)
    requires Shape(c, s) && Shape(c, s1) && Shape(c, s2) && Grows(c, s, s1) && Grows(c, s1, s2)
    ensures Grows(c, s, s2)
  {
    forall i | |s.log| <= i < |s2.log| ensures EntryFrom(s, s2.log[i]) {
      if i < |s1.log| {
        assert s2.log[i] == s1.log[i];
      } else {
        assert EntryFrom(s1, s2.log[i]);
      }
    }
    forall d | d in s2.pool.busy && d !in s.pool.busy ensures PostedSince(s2, |s.log|, d) {
      if d in s1.pool.busy {
        PostedStays(s1, s2, |s.log|, d);
      } else {
        assert PostedSince(s2, |s1.log|, d);
      }
    }
  }

  lemma PostedStays(s: Tx, s': Tx, n: nat, d: nat)
    requires s.log <= s'.log && PostedSince(s, n, d)
    ensures PostedSince(s', n, d)
  {
    var i :| n <= i < |s.log| && s.log[i].cmd.desc == d;
    assert s'.log[i] == s.log[i];
  }

  lemma DispatchGrows(c: Config, s: Tx, d: nat, ac: nat)
    requires Shape(c, s) && d < c.numTokens && ac < AC_MAX && Dispatch(c, s, d, ac).Some?
    ensures var s' := Dispatch(c, s, d, ac).value;
            Grows(c, s, s') && s'.pool == s.pool && PostedSince(s', |s.log|, d)
  {
    var s' := Dispatch(c, s, d, ac).value;
    var k, n, e := DispatchMoves(c, s, d, ac);
    assert s'.log[|s.log|] == e;
  }

  lemma KickGrows(c: Config, s: Tx, ac: nat)
    requires Shape(c, s) && ac < AC_MAX
    ensures Grows(c, s, Kick(c, s, ac))
  {
    if Grant(c, s, ac).Some? {
      var (s1, d) := Grant(c, s, ac).value;
      if Dispatch(c, s1, d, ac).Some? { DispatchGrows(c, s1, d, ac); } else { FreeGrows(c, s1, d, ac); }
    }
  }

  lemma KickGrowsOn(c: Config, s0: Tx, s: Tx, ac: nat, s': Tx)
    requires Shape(c, s0) && KickedTo(c, s, ac, s') && Grows(c, s0, s)
    ensures Grows(c, s0, s')
  {
    KickGrows(c, s, ac);
    GrowsTrans(c, s0, s, s');
  }

  lemma KicksGrow(c: Config, w: seq<Tx>, ac: nat)
    requires Kicks(c, w, ac) && Shape(c, w[0])
    ensures Shape(c, w[ac + 1]) && Grows(c, w[0], w[ac + 1])
  {
    for i := 0 to ac + 1
      invariant Shape(c, w[i]) && Grows(c, w[0], w[i])
    {
      KickGrowsOn(c, w[0], w[i], ac - i, w[i + 1]);
    }
  }

  lemma {:induction false} KickDownGrows(c: Config, s: Tx, ac: nat)
    requires Shape(c, s) && ac < AC_MAX
    ensures Grows(c, s, KickDown(c, s, ac))
  {
    var w := KickDownStates(c, s, ac);
    KicksGrow(c, w, ac);
    assert w[ac + 1] == KickDown(c, s, ac);
  }

  lemma OwnerGrows(c: Config, s: Tx, d: nat, from: nat, to: nat, s': Tx)
    requires Shape(c, s) && d < c.numTokens && from < AC_MAX && to < AC_MAX && Shape(c, s')
    requires Grows(c, ChangeOwner(c, s, d, from, to), s')
    ensures Grows(c, s, s')
  {
    var s1 := ChangeOwner(c, s, d, from, to);
    assert s1 == s.(pool := s1.pool) && s1.pool.busy == s.pool.busy;
    forall i | |s.log| <= i < |s'.log| ensures EntryFrom(s, s'.log[i]) { assert EntryFrom(s1, s'.log[i]); }
  }

  lemma FreeGrows(c: Config, s: Tx, d: nat, owner: nat)
    requires Shape(c, s) && d < c.numTokens && owner < AC_MAX
    ensures Grows(c, s, Free(c, s, d, owner))
  {
  }

  lemma RefillGrows(c: Config, s: Tx, d: nat, owner: nat, ac: nat, last: nat)
    requires Shape(c, s) && d < c.numTokens && owner < AC_MAX && last <= ac < AC_MAX
    ensures Grows(c, s, Refill(c, s, d, owner, ac, last))
  {
    match FirstWork(c, s, d, ac, last)
    case Some(a) =>
      RefillIsDispatch(c, s, d, owner, a);
      DispatchGrows(c, ChangeOwner(c, s, d, owner, a), d, a);
      OwnerGrows(c, s, d, owner, a, Refill(c, s, d, owner, ac, last));
    case None => FreeGrows(c, s, d, owner);
  }

  // --------------------------------------------------------------------- runs

  /** Queues and batches are within the limit, and every token in use has been sent. */
  ghost predicate Tidy(c: Config, s: Tx)
    requires Shape(c, s)
  {
    && (forall k | 0 <= k < FLOWS :: |s.pend[k]| <= c.pendLimit)
    && (forall i | 0 <= i < |s.log| :: |s.log[i].frames| <= c.pendLimit)
    && (forall d | d in s.pool.busy :: PostedSince(s, 0, d))
  }

  lemma GrowsTidy(c: Config, s: Tx, s': Tx)
    requires Shape(c, s) && Shape(c, s') && Grows(c, s, s') && Tidy(c, s)
    ensures Tidy(c, s')
  {
    forall i | 0 <= i < |s'.log| ensures |s'.log[i].frames| <= c.pendLimit {
      if i < |s.log| { assert s'.log[i] == s.log[i]; } else { assert EntryFrom(s, s'.log[i]); }
    }
    forall d | d in s'.pool.busy ensures PostedSince(s', 0, d) {
      if d in s.pool.busy {
        PostedStays(s, s', 0, d);
      } else {
        assert PostedSince(s', |s.log|, d);
      }
    }
  }

  /** Only queues that grow matter; the log and the tokens in use stay. */
  lemma SameTidy(c: Config, s: Tx, s': Tx)
    requires Shape(c, s) && Shape(c, s') && Tidy(c, s) && s'.log == s.log && s'.pool == s.pool
    requires forall k | 0 <= k < FLOWS :: |s'.pend[k]| <= c.pendLimit
    ensures Tidy(c, s')
  {
    forall d | d in s'.pool.busy ensures PostedSince(s', 0, d) { PostedStays(s, s', 0, d); }
  }

  lemma XmitTidy(c: Config, s: Tx, k: nat, f: Frame)
    requires Shape(c, s) && Tidy(c, s) && k < FLOWS
    ensures Tidy(c, Xmit(c, s, k, f).0)
  {
    if |s.pend[k]| < c.pendLimit {
      var s1 := Enqueue(c, s, k, f);
      SameTidy(c, s, s1);
      KickGrows(c, s1, AcOf(k));
      GrowsTidy(c, s1, Kick(c, s1, AcOf(k)));
    }
  }

  lemma TxDoneTidy(c: Config, s: Tx, d: nat)
    requires Shape(c, s) && Tidy(c, s)
    ensures Tidy(c, TxDone(c, s, d))
  {
    if d in s.pool.busy {
      var s1, q := Complete(c, s, d), Owner(c, s.pool, d);
      var ac, last := if d < c.Reserved() then q else AC_VO, if d < c.Reserved() then q else AC_BK;
      SameTidy(c, s, s1);
      RefillGrows(c, s1, d, q, ac, last);
      GrowsTidy(c, s1, Refill(c, s1, d, q, ac, last));
    }
  }

  lemma {:induction false} KicksTidy(c: Config, s: Tx, s1: Tx)
    requires Shape(c, s) && Shape(c, s1) && Tidy(c, s) && s1.log == s.log && s1.pool == s.pool && s1.pend == s.pend
    ensures Tidy(c, s1) && Tidy(c, KickDown(c, s1, AC_VO))
  {
    SameTidy(c, s, s1);
    KickDownGrows(c, s1, AC_VO);
    GrowsTidy(c, s1, KickDown(c, s1, AC_VO));
  }

  lemma StepTidy(c: Config, s: Tx, e: Event)
    requires Shape(c, s) && Tidy(c, s) && Enabled(c, s, e)
    ensures Tidy(c, Step(c, s, e))
  {
    match e
    case EvXmit(k, f) => XmitTidy(c, s, k, f);
    case EvTxDone(d) => TxDoneTidy(c, s, d);
    case EvPsRequest(p, num) => KicksTidy(c, s, Request(c, s, p, num));
    case EvPmMode(p, ps) => KicksTidy(c, s, SetPs(c, s, p, ps));
    case EvConsume => SameTidy(c, s, Consume(c, s));
  }

  lemma {:induction false} RunTidy(c: Config, t: seq<Tx>, es: seq<Event>, i: nat)
    requires RunFromInit(c, t, es) && i < |t|
    ensures Shape(c, t[i]) && Tidy(c, t[i])
  {
    if i > 0 {
      RunTidy(c, t, es, i - 1);
      assert Takes(c, t[i - 1], es[i - 1], t[i]);
      StepTidy(c, t[i - 1], es[i - 1]);
    }
  }

  /** In every reachable state no queue and no batch is longer than the limit, and every token in use has been sent. */
  lemma ReachableTidy(c: Config, s: Tx)
    requires Reachable(c, s)
    ensures Tidy(c, s)
  {
    var t, es :| RunFromInit(c, t, es) && t[|t| - 1] == s;
    RunTidy(c, t, es, |t| - 1);
  }
}
