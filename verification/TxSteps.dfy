/** The other steps of the transmit engine, the events made of them, and runs. */
module TxSteps {
  import opened Basics
  import opened TxConfig
  import opened Bounce
  import opened PoolModel
  import opened PoolAccounting
  import opened CmdRing
  import opened TxModel
  import opened TxInvariant
  import opened TxDispatch

  /** Steps that touch neither frames nor commands keep the clauses about them. */
  ghost predicate SameFrames(s: Tx, s': Tx) {
    && s'.pend == s.pend && s'.tok == s.tok && s'.tokFlow == s.tokFlow && s'.ram == s.ram
    && s'.total == s.total && s'.done == s.done && s'.log == s.log
    && s'.accepted == s.accepted && s'.freed == s.freed
  }

  lemma SameFramesKeep(c: Config, s: Tx, s': Tx)
    requires Shape(c, s) && Shape(c, s') && SameFrames(s, s')
    requires Pending(c, s) && Memory(c, s) && Conserved(c, s) && Counted(s) && InOrder(c, s) && Logged(c, s)
    ensures Pending(c, s') && Memory(c, s') && Conserved(c, s') && Counted(s') && InOrder(c, s') && Logged(c, s')
  {
    forall k | 0 <= k < FLOWS ensures PendingOk(c, s', k) { assert PendingOk(c, s, k); }
    forall d | 0 <= d < c.numTokens ensures Intact(c, s'.ram, d, s'.tok[d]) { assert Intact(c, s.ram, d, s.tok[d]); }
    forall k | 0 <= k < FLOWS ensures FlowInOrder(c, s', k) { assert FlowInOrder(c, s, k); }
  }

  lemma SamePeersKeep(c: Config, s: Tx, s': Tx)
    requires Shape(c, s) && Shape(c, s') && s'.pend == s.pend && Bmps(c, s)
    requires forall p | 0 <= p < MAX_SW_PEERS :: s'.peers[p].ap == s.peers[p].ap && s'.peers[p].pendBmp == s.peers[p].pendBmp
    ensures Bmps(c, s')
  {
    forall k | 0 <= k < FLOWS ensures BmpOk(c, s', k) { assert BmpOk(c, s, k); }
  }

  // -------------------------------------------------------------------- Grant

  lemma GrantAccounts(c: Config, s: Tx, q: nat)
    requires Shape(c, s) && Accounts(c, s, None) && q < AC_MAX && Grant(c, s, q).Some?
    ensures var (s', d) := Grant(c, s, q).value;
            Accounts(c, s', Some(d)) && (!s'.mcSpare ==> Owner(c, s'.pool, d) == q)
  {
    var (s', d) := Grant(c, s, q).value;
    FindFreeIs(c, s.pool.busy, q);
    TokenSplit(c);
    if !s'.mcSpare {
      AssignAccounted(c, s.pool, q, d);
      forall e | 0 <= e < c.numTokens ensures OwnerOk(c, s', Some(d), e) {
        assert OwnerOk(c, s, None, e);
        if e != d { AssignOwner(c, s.pool, q, d, e); }
      }
    }
  }

  lemma GrantInv(c: Config, s: Tx, q: nat)
    requires Inv(c, s, None) && q < AC_MAX && Grant(c, s, q).Some?
    ensures var (s', d) := Grant(c, s, q).value;
            Inv(c, s', Some(d)) && (!s'.mcSpare ==> Owner(c, s'.pool, d) == q)
  {
    var (s', d) := Grant(c, s, q).value;
    FindFreeIs(c, s.pool.busy, q);
    SameFramesKeep(c, s, s');
    SamePeersKeep(c, s, s');
    forall e | 0 <= e < c.numTokens ensures TokenOk(c, s', Some(d), e) { assert TokenOk(c, s, None, e); }
    forall i | s.taken <= i < |s.log| ensures UnreadOk(c, s', Some(d), i) { assert UnreadOk(c, s, None, i); }
    GrantAccounts(c, s, q);
  }

  // --------------------------------------------------------------------- Free

  lemma FreeAccounts(c: Config, s: Tx, d: nat, q: nat)
    requires Shape(c, s) && Accounts(c, s, Some(d)) && d < c.numTokens && d in s.pool.busy && q < AC_MAX
    requires !s.mcSpare ==> Owner(c, s.pool, d) == q
    ensures Accounts(c, Free(c, s, d, q), None)
  {
    var s' := Free(c, s, d, q);
    if !s.mcSpare {
      ReleaseAccounted(c, s.pool, d);
      forall e | 0 <= e < c.numTokens ensures OwnerOk(c, s', None, e) {
        assert OwnerOk(c, s, Some(d), e);
        if e != d { ReleaseOwner(c, s.pool, d, q, e); }
      }
    }
  }

  lemma FreeInv(c: Config, s: Tx, d: nat, q: nat)
    requires Inv(c, s, Some(d)) && d < c.numTokens && q < AC_MAX
    requires !s.mcSpare ==> Owner(c, s.pool, d) == q
    ensures Inv(c, Free(c, s, d, q), None)
  {
    var s' := Free(c, s, d, q);
    assert TokenOk(c, s, Some(d), d);
    SameFramesKeep(c, s, s');
    SamePeersKeep(c, s, s');
    forall e | 0 <= e < c.numTokens ensures TokenOk(c, s', None, e) { assert TokenOk(c, s, Some(d), e); }
    forall i | s.taken <= i < |s.log| ensures UnreadOk(c, s', None, i) { assert UnreadOk(c, s, Some(d), i); }
    FreeAccounts(c, s, d, q);
  }

  // ----------------------------------------------------------------- Complete

  lemma CompleteConserved(c: Config, s: Tx, d: nat)
    requires Shape(c, s) && d < c.numTokens && Conserved(c, s) && Counted(s)
    ensures Conserved(c, Complete(c, s, d)) && Counted(Complete(c, s, d))
  {
    GatherEmpty(s.tok, d);
    LoadUpdate(s.tok, d, []);
    var p, t, b, f := Gather(s.pend), Gather(s.tok[d := []]), multiset(s.tok[d]), multiset(s.freed);
    assert p + (t + b) + f == p + t + (f + b);
  }

  lemma CompleteInv(c: Config, s: Tx, d: nat)
    requires Inv(c, s, None) && d in s.pool.busy && ReadByRpu(s, d)
    ensures Inv(c, Complete(c, s, d), Some(d))
  {
    var s' := Complete(c, s, d);
    forall e | 0 <= e < c.numTokens ensures TokenOk(c, s', Some(d), e) { assert TokenOk(c, s, None, e); }
    forall k | 0 <= k < FLOWS ensures PendingOk(c, s', k) { assert PendingOk(c, s, k); }
    forall e | 0 <= e < c.numTokens ensures Intact(c, s'.ram, e, s'.tok[e]) { assert Intact(c, s.ram, e, s.tok[e]); }
    CompleteConserved(c, s, d);
    forall k | 0 <= k < FLOWS ensures FlowInOrder(c, s', k) { assert FlowInOrder(c, s, k); }
    forall i | s.taken <= i < |s.log| ensures UnreadOk(c, s', Some(d), i) { assert UnreadOk(c, s, None, i); }
    SamePeersKeep(c, s, s');
    forall e | !s.mcSpare && 0 <= e < c.numTokens ensures OwnerOk(c, s', Some(d), e) { assert OwnerOk(c, s, None, e); }
  }

  // -------------------------------------------------------------- ChangeOwner

  lemma ChangeOwnerInv(c: Config, s: Tx, d: nat, from: nat, to: nat)
    requires Inv(c, s, Some(d)) && d < c.numTokens && from < AC_MAX && to < AC_MAX
    requires !s.mcSpare ==> Owner(c, s.pool, d) == from
    requires if d < c.Reserved() then to == from else to < AC_MC
    ensures Inv(c, ChangeOwner(c, s, d, from, to), Some(d))
    ensures !s.mcSpare ==> Owner(c, ChangeOwner(c, s, d, from, to).pool, d) == to
  {
    var s' := ChangeOwner(c, s, d, from, to);
    assert TokenOk(c, s, Some(d), d);
    SameFramesKeep(c, s, s');
    SamePeersKeep(c, s, s');
    forall e | 0 <= e < c.numTokens ensures TokenOk(c, s', Some(d), e) { assert TokenOk(c, s, Some(d), e); }
    forall i | s.taken <= i < |s.log| ensures UnreadOk(c, s', Some(d), i) { assert UnreadOk(c, s, Some(d), i); }
    if !s.mcSpare {
      ReownAccounted(c, s.pool, d, to);
      forall e | 0 <= e < c.numTokens ensures OwnerOk(c, s', Some(d), e) {
        assert OwnerOk(c, s, Some(d), e);
        if e != d { ReownOwner(c, s.pool, d, to, e); }
      }
    }
  }

  lemma {:induction false} ChooseIgnoresPool(c: Config, s: Tx, pool: Pool, ac: nat, i: nat, j: nat)
    requires Shape(c, s) && Shaped(c, pool) && ac < AC_MAX && i <= |s.wake| && j <= MAX_PEERS
    ensures FirstWoken(c, s.(pool := pool), ac, i) == FirstWoken(c, s, ac, i)
    ensures FirstTurn(c, s.(pool := pool), ac, j) == FirstTurn(c, s, ac, j)
    decreases |s.wake| - i + MAX_PEERS - j
  {
    if i < |s.wake| { ChooseIgnoresPool(c, s, pool, ac, i + 1, j); }
    if j < MAX_PEERS { ChooseIgnoresPool(c, s, pool, ac, i, j + 1); }
  }

  lemma TakeIgnoresPool(c: Config, s: Tx, pool: Pool, d: nat, ac: nat)
    requires Shape(c, s) && Shaped(c, pool) && d < c.numTokens && ac < AC_MAX
    ensures Choose(c, s.(pool := pool), ac) == Choose(c, s, ac)
    ensures match TakeBatch(c, s, d, ac)
      case None => TakeBatch(c, s.(pool := pool), d, ac) == None
      case Some(s1) => TakeBatch(c, s.(pool := pool), d, ac) == Some(s1.(pool := pool))
  {
    ChooseIgnoresPool(c, s, pool, ac, 0, 0);
  }

  lemma TakeKeepsPool(c: Config, s: Tx, d: nat, ac: nat)
    requires Shape(c, s) && d < c.numTokens && ac < AC_MAX && TakeBatch(c, s, d, ac).Some?
    ensures TakeBatch(c, s, d, ac).value.pool == s.pool
  {
  }

  /** Working out the next batch and changing the owner of the token do not interfere. */
  lemma RefillIsDispatch(c: Config, s: Tx, d: nat, from: nat, to: nat)
    requires Shape(c, s) && d < c.numTokens && from < AC_MAX && to < AC_MAX && TakeBatch(c, s, d, to).Some?
    ensures Dispatch(c, ChangeOwner(c, s, d, from, to), d, to)
         == Some(Send(c, ChangeOwner(c, TakeBatch(c, s, d, to).value, d, from, to), d, IsTurn(c, s, to)))
  {
    var s' := ChangeOwner(c, s, d, from, to);
    TakeKeepsPool(c, s, d, to);
    assert s' == s.(pool := s'.pool) && Shaped(c, s'.pool);
    TakeIgnoresPool(c, s, s'.pool, d, to);
    assert TakeBatch(c, s', d, to) == Some(ChangeOwner(c, TakeBatch(c, s, d, to).value, d, from, to));
  }

  // ------------------------------------------------- power save, and the RPU

  lemma PeersOnlyInv(c: Config, s: Tx, s': Tx)
    requires Inv(c, s, None) && Shape(c, s') && SameFrames(s, s')
    requires s'.pool == s.pool && s'.ring == s.ring && s'.taken == s.taken && s'.mcSpare == s.mcSpare
    requires forall p | 0 <= p < MAX_SW_PEERS :: s'.peers[p].ap == s.peers[p].ap && s'.peers[p].pendBmp == s.peers[p].pendBmp
    ensures Inv(c, s', None)
  {
    SameFramesKeep(c, s, s');
    SamePeersKeep(c, s, s');
    forall e | 0 <= e < c.numTokens ensures TokenOk(c, s', None, e) { assert TokenOk(c, s, None, e); }
    forall i | s.taken <= i < |s.log| ensures UnreadOk(c, s', None, i) { assert UnreadOk(c, s, None, i); }
    forall e | !s.mcSpare && 0 <= e < c.numTokens ensures OwnerOk(c, s', None, e) { assert OwnerOk(c, s, None, e); }
  }

  lemma ConsumeInv(c: Config, s: Tx)
    requires Inv(c, s, None) && s.taken < |s.log|
    ensures Inv(c, Consume(c, s), None)
    ensures Peek(s.ring) == if Undisturbed(c, Cmds(s.log), s.taken) then Some(s.log[s.taken].cmd) else None
  {
    var s' := Consume(c, s);
    SameFramesKeep(c, s, s');
    SamePeersKeep(c, s, s');
    forall e | 0 <= e < c.numTokens ensures TokenOk(c, s', None, e) { assert TokenOk(c, s, None, e); }
    AdvanceInStep(c, s.ring, Cmds(s.log), s.taken);
    forall i | s'.taken <= i < |s.log| ensures UnreadOk(c, s', None, i) { assert UnreadOk(c, s, None, i); }
    forall e | !s.mcSpare && 0 <= e < c.numTokens ensures OwnerOk(c, s', None, e) { assert OwnerOk(c, s, None, e); }
  }

  // ------------------------------------------------------------------- events

  lemma ServeOrFreeInv(c: Config, s: Tx, d: nat, ac: nat)
    requires Inv(c, s, Some(d)) && d < c.numTokens && ac < AC_MAX
    requires !s.mcSpare ==> Owner(c, s.pool, d) == ac
    ensures Inv(c, ServeOrFree(c, s, d, ac), None)
  {
    if Dispatch(c, s, d, ac).Some? {
      DispatchInv(c, s, d, ac);
    } else {
      FreeInv(c, s, d, ac);
    }
  }

  lemma KickInv(c: Config, s: Tx, ac: nat)
    requires Inv(c, s, None) && ac < AC_MAX
    ensures Inv(c, Kick(c, s, ac), None)
  {
    if Grant(c, s, ac).Some? {
      var (s1, d) := Grant(c, s, ac).value;
      GrantInv(c, s, ac);
      ServeOrFreeInv(c, s1, d, ac);
    }
  }

  lemma KickDownStep(c: Config, s: Tx, ac: nat)
    requires Shape(c, s) && ac < AC_MAX
    ensures KickDown(c, s, ac) == if ac == 0 then Kick(c, s, 0) else KickDown(c, Kick(c, s, ac), ac - 1)
  {
  }

  /** `s'` is `s` after a token has been got for `ac`. */
  ghost predicate KickedTo(c: Config, s: Tx, ac: nat, s': Tx) {
    Shape(c, s) && Shape(c, s') && ac < AC_MAX && forall q | q == ac :: s' == Kick(c, s, q)
  }

  /** The states in `w` follow one another as a token is got for each queue from `ac` down. */
  ghost predicate Kicks(c: Config, w: seq<Tx>, ac: nat) {
    ac < AC_MAX && |w| == ac + 2 && forall i {:trigger w[i]} | 0 <= i <= ac :: KickedTo(c, w[i], ac - i, w[i + 1])
  }

  lemma KicksBefore(c: Config, s: Tx, ac: nat, w: seq<Tx>)
    requires 0 < ac < AC_MAX && Kicks(c, w, ac - 1) && KickedTo(c, s, ac, w[0])
    ensures Kicks(c, [s] + w, ac)
  {
    var w' := [s] + w;
    forall i | 0 <= i <= ac ensures KickedTo(c, w'[i], ac - i, w'[i + 1]) {
      if i > 0 {
        assert w'[i] == w[i - 1];
        assert KickedTo(c, w[i - 1], ac - 1 - (i - 1), w[i - 1 + 1]);
      }
    }
  }

  /** `s'` is `s` after a token has been got for each queue from `ac` down. */
  ghost predicate KickedDownTo(c: Config, s: Tx, ac: nat, s': Tx)
    requires Shape(c, s)
  {
    ac < AC_MAX && forall q | q == ac :: s' == KickDown(c, s, q)
  }

  lemma KickOnce(c: Config, s: Tx, ac: nat) returns (s': Tx)
    requires Shape(c, s) && ac < AC_MAX
    ensures KickedTo(c, s, ac, s') && (ac == 0 ==> KickedDownTo(c, s, ac, s'))
  {
    s' := Kick(c, s, ac);
  }

  lemma KickedDownFurther(c: Config, s: Tx, ac: nat, s1: Tx, s': Tx)
    requires 0 < ac && KickedTo(c, s, ac, s1) && KickedDownTo(c, s1, ac - 1, s')
    ensures KickedDownTo(c, s, ac, s')
  {
    KickDownStep(c, s, ac);
  }

  lemma {:induction false} KickDownStates(c: Config, s: Tx, ac: nat) returns (w: seq<Tx>)
    requires Shape(c, s) && ac < AC_MAX
    ensures Kicks(c, w, ac) && w[0] == s && KickedDownTo(c, s, ac, w[ac + 1])
    decreases ac
  {
    var s1 := KickOnce(c, s, ac);
    if ac == 0 {
      w := [s, s1];
    } else {
      var w1 := KickDownStates(c, s1, ac - 1);
      KicksBefore(c, s, ac, w1);
      w := [s] + w1;
      KickedDownFurther(c, s, ac, s1, w1[ac]);
    }
  }

  /** The invariant between steps, as one clause. */
  ghost predicate Sound(c: Config, s: Tx) { forall hole | hole == None :: Inv(c, s, hole) }

  lemma KickSound(c: Config, s: Tx, ac: nat, s': Tx)
    requires Sound(c, s) && KickedTo(c, s, ac, s')
    ensures Sound(c, s')
  {
    assert Inv(c, s, None) && s' == Kick(c, s, ac);
    KickInv(c, s, ac);
  }

  lemma KicksSound(c: Config, w: seq<Tx>, ac: nat)
    requires Kicks(c, w, ac) && Sound(c, w[0])
    ensures Sound(c, w[ac + 1])
  {
    for i := 0 to ac + 1
      invariant Sound(c, w[i])
    {
      KickSound(c, w[i], ac - i, w[i + 1]);
    }
  }

  lemma {:induction false} KickDownInv(c: Config, s: Tx, ac: nat)
    requires Inv(c, s, None) && ac < AC_MAX
    ensures Inv(c, KickDown(c, s, ac), None)
  {
    var w := KickDownStates(c, s, ac);
    KicksSound(c, w, ac);
    assert w[ac + 1] == KickDown(c, s, ac);
  }

  lemma RefillInv(c: Config, s: Tx, d: nat, owner: nat, ac: nat, last: nat)
    requires Inv(c, s, Some(d)) && d < c.numTokens && owner < AC_MAX && last <= ac < AC_MAX
    requires !s.mcSpare ==> Owner(c, s.pool, d) == owner
    requires if d < c.Reserved() then owner == ac == last else ac < AC_MC
    ensures Inv(c, Refill(c, s, d, owner, ac, last), None)
  {
    match FirstWork(c, s, d, ac, last)
    case Some(a) =>
      RefillIsDispatch(c, s, d, owner, a);
      ChangeOwnerInv(c, s, d, owner, a);
      DispatchInv(c, ChangeOwner(c, s, d, owner, a), d, a);
    case None =>
      FreeInv(c, s, d, owner);
  }

  lemma TxDoneInv(c: Config, s: Tx, d: nat)
    requires Inv(c, s, None) && (d in s.pool.busy ==> ReadByRpu(s, d))
    ensures Inv(c, TxDone(c, s, d), None)
  {
    if d in s.pool.busy {
      CompleteInv(c, s, d);
      var q := Owner(c, s.pool, d);
      if d < c.Reserved() {
        RefillInv(c, Complete(c, s, d), d, q, q, q);
      } else {
        RefillInv(c, Complete(c, s, d), d, q, AC_VO, AC_BK);
      }
    }
  }

  lemma XmitInv(c: Config, s: Tx, k: nat, f: Frame)
    requires Inv(c, s, None) && Enabled(c, s, EvXmit(k, f))
    ensures Inv(c, Xmit(c, s, k, f).0, None)
  {
    if |s.pend[k]| < c.pendLimit {
      EnqueueInv(c, s, k, f);
      KickInv(c, Enqueue(c, s, k, f), AcOf(k));
    }
  }

  /** Every event keeps the invariant. */
  lemma StepInv(c: Config, s: Tx, e: Event)
    requires Inv(c, s, None) && Enabled(c, s, e)
    ensures Inv(c, Step(c, s, e), None)
  {
    match e
    case EvXmit(k, f) => XmitInv(c, s, k, f);
    case EvTxDone(d) => TxDoneInv(c, s, d);
    case EvPsRequest(p, num) =>
      PeersOnlyInv(c, s, Request(c, s, p, num));
      KickDownInv(c, Request(c, s, p, num), AC_VO);
    case EvPmMode(p, ps) =>
      PeersOnlyInv(c, s, SetPs(c, s, p, ps));
      if !ps { KickDownInv(c, SetPs(c, s, p, ps), AC_VO); }
    case EvConsume => ConsumeInv(c, s);
  }

  lemma {:induction false} RunInv(c: Config, t: seq<Tx>, es: seq<Event>, i: nat)
    requires Run(c, t, es) && i < |t| && Inv(c, t[0], None)
    ensures Inv(c, t[i], None)
  {
    if i > 0 {
      RunInv(c, t, es, i - 1);
      assert Takes(c, t[i - 1], es[i - 1], t[i]);
      StepInv(c, t[i - 1], es[i - 1]);
    }
  }

  /** The invariant holds in every state that a run can reach. */
  lemma ReachableInv(c: Config, s: Tx)
    requires Reachable(c, s)
    ensures Inv(c, s, None)
  {
    var t, es :| RunFromInit(c, t, es) && t[|t| - 1] == s;
    InitInv(c, t[0]);
    RunInv(c, t, es, |t| - 1);
  }

  lemma TakesExtended(c: Config, t: seq<Tx>, es: seq<Event>, e: Event, s': Tx, i: nat)
    requires Run(c, t, es) && Takes(c, t[|es|], e, s') && i <= |es|
    ensures Takes(c, (t + [s'])[i], (es + [e])[i], (t + [s'])[i + 1])
  {
    if i < |es| {
      assert Takes(c, t[i], es[i], t[i + 1]);
    }
  }

  lemma RunExtended(c: Config, t: seq<Tx>, es: seq<Event>, e: Event, s': Tx)
    requires Run(c, t, es) && Takes(c, t[|es|], e, s')
    ensures Run(c, t + [s'], es + [e])
  {
    forall i | 0 <= i < |es| + 1 ensures Takes(c, (t + [s'])[i], (es + [e])[i], (t + [s'])[i + 1]) {
      TakesExtended(c, t, es, e, s', i);
    }
  }

  lemma RunFromInitExtended(c: Config, t: seq<Tx>, es: seq<Event>, e: Event, s': Tx)
    requires RunFromInit(c, t, es) && Takes(c, t[|es|], e, s')
    ensures RunFromInit(c, t + [s'], es + [e])
  {
    RunExtended(c, t, es, e, s');
    assert (t + [s'])[0] == t[0];
  }

  lemma RunReaches(c: Config, t: seq<Tx>, es: seq<Event>, s: Tx)
    requires RunFromInit(c, t, es) && s == t[|es|]
    ensures Reachable(c, s)
  {
    assert s == t[|t| - 1];
    if |es| > 0 { assert Takes(c, t[|es| - 1], es[|es| - 1], t[|es| - 1 + 1]); }
  }

  lemma StepReachable(c: Config, s: Tx, e: Event)
    requires Reachable(c, s) && Enabled(c, s, e)
    ensures Reachable(c, Step(c, s, e))
  {
    var t, es :| RunFromInit(c, t, es) && t[|t| - 1] == s;
    var s' := Step(c, s, e);
    RunFromInitExtended(c, t, es, e, s');
    RunReaches(c, t + [s'], es + [e], s');
  }
}
