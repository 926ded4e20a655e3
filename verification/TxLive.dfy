/**
 Stranded frames.  A frame that waits for a peer which is not in power save gets to the RPU when
 some token completes whose completion looks at its access category; if there is none, nothing will
 send it until another frame happens to come along.
 */
module TxLive {
  import opened Basics
  import opened TxConfig
  import opened PoolModel
  import opened TxModel
  import opened TxInvariant
  import opened TxDispatch
  import opened TxSteps

  /** The completion of token `d` looks for frames of access category `q`. */
  predicate Serves(c: Config, d: nat, q: nat) {
    if d < c.Reserved() then d % AC_MAX == q else q < AC_MC
  }

  ghost predicate Helped(c: Config, s: Tx, q: nat) {
    exists d :: d in s.pool.busy && Serves(c, d, q)
  }

  ghost predicate Wanted(c: Config, s: Tx, q: nat)
    requires Shape(c, s) && q < AC_MAX
  {
    exists p :: 0 <= p < MAX_SW_PEERS && Eligible(s, p, q)
  }

  /** No frame that could be sent is left without a token that will pull it. */
  ghost predicate NoneStranded(c: Config, s: Tx)
    requires Shape(c, s)
  {
    forall q | 0 <= q < AC_MAX && Wanted(c, s, q) :: Helped(c, s, q)
  }

  // ------------------------------------------------------ what a search finds

  lemma {:induction false} FirstTurnNone(c: Config, s: Tx, ac: nat, i: nat)
    requires Shape(c, s) && ac < AC_MAX && i <= MAX_PEERS && FirstTurn(c, s, ac, i) == None
    ensures forall j | i <= j < MAX_PEERS :: !Eligible(s, Cyclic(s.opp[ac], j), ac)
    decreases MAX_PEERS - i
  {
    if i < MAX_PEERS { FirstTurnNone(c, s, ac, i + 1); }
  }

  lemma CyclicCovers(start: nat, p: nat) returns (j: nat)
    requires start < MAX_PEERS && p < MAX_PEERS
    ensures j < MAX_PEERS && Cyclic(start, j) == p
  {
    j := (p + MAX_PEERS - start) % MAX_PEERS;
  }

  /** A token comes away empty-handed only when nobody wants its access category. */
  lemma NothingToTake(c: Config, s: Tx, d: nat, q: nat)
    requires Shape(c, s) && Pending(c, s) && d < c.numTokens && q < AC_MAX && TakeBatch(c, s, d, q) == None
    ensures !Wanted(c, s, q)
  {
    forall p: nat | p < MAX_SW_PEERS ensures !Eligible(s, p, q) {
      assert PendingOk(c, s, Flow(p, q));
      if p < MAX_PEERS && q != AC_MC {
        FirstTurnNone(c, s, q, 0);
        var j := CyclicCovers(s.opp[q], p);
        assert !Eligible(s, Cyclic(s.opp[q], j), q);
      }
    }
  }

  // ------------------------------------------------------------- monotonicity

  /** `s'` has no frames waiting that did not wait in `s`. */
  ghost predicate NoNewWork(c: Config, s: Tx, s': Tx)
    requires Shape(c, s) && Shape(c, s')
  {
    forall q, p | 0 <= q < AC_MAX && 0 <= p < MAX_SW_PEERS && Eligible(s', p, q) :: Eligible(s, p, q)
  }

  lemma StaysLive(c: Config, s: Tx, s': Tx, q: nat)
    requires Shape(c, s) && Shape(c, s') && NoNewWork(c, s, s') && s.pool.busy <= s'.pool.busy && q < AC_MAX
    requires Wanted(c, s, q) ==> Helped(c, s, q)
    ensures Wanted(c, s', q) ==> Helped(c, s', q)
  {
    if Wanted(c, s', q) {
      var p: nat :| p < MAX_SW_PEERS && Eligible(s', p, q);
      assert Eligible(s, p, q);
      var d :| d in s.pool.busy && Serves(c, d, q);
      assert d in s'.pool.busy;
    }
  }

  lemma DispatchNoNewWork(c: Config, s: Tx, d: nat, ac: nat)
    requires Shape(c, s) && d < c.numTokens && ac < AC_MAX && Dispatch(c, s, d, ac).Some?
    ensures NoNewWork(c, s, Dispatch(c, s, d, ac).value)
  {
    var s' := Dispatch(c, s, d, ac).value;
    var k, n, e := DispatchMoves(c, s, d, ac);
    DispatchPs(c, s, d, ac);
    forall q: nat, p: nat | q < AC_MAX && p < MAX_SW_PEERS && Eligible(s', p, q) ensures Eligible(s, p, q) {
    }
  }

  lemma DispatchPs(c: Config, s: Tx, d: nat, ac: nat)
    requires Shape(c, s) && d < c.numTokens && ac < AC_MAX && Dispatch(c, s, d, ac).Some?
    ensures forall p | 0 <= p < MAX_SW_PEERS :: Dispatch(c, s, d, ac).value.peers[p].ps == s.peers[p].ps
  {
  }

  lemma KickMonotone(c: Config, s: Tx, q: nat)
    requires Shape(c, s) && q < AC_MAX
    ensures NoNewWork(c, s, Kick(c, s, q)) && s.pool.busy <= Kick(c, s, q).pool.busy
  {
    if Grant(c, s, q).Some? {
      var (s1, d) := Grant(c, s, q).value;
      FindFreeIs(c, s.pool.busy, q);
      if Dispatch(c, s1, d, q).Some? {
        var k, n, e := DispatchMoves(c, s1, d, q);
        DispatchNoNewWork(c, s1, d, q);
      }
    }
  }

  lemma FirstTokenServes(c: Config, s: Tx, q: nat)
    requires Shape(c, s) && q < AC_MAX && ReservedBusy(c, s.pool.busy, q)
    ensures Helped(c, s, q)
  {
    TokenSplit(c);
    assert q in s.pool.busy && Serves(c, q, q);
  }

  /** After a kick for `q`, a token will serve `q` or nobody wants it. */
  lemma KickHelps(c: Config, s: Tx, q: nat)
    requires Inv(c, s, None) && q < AC_MAX
    ensures var s' := Kick(c, s, q); Wanted(c, s', q) ==> Helped(c, s', q)
  {
    var s' := Kick(c, s, q);
    FindFreeIs(c, s.pool.busy, q);
    KickMonotone(c, s, q);
    if ReservedBusy(c, s.pool.busy, q) {
      FirstTokenServes(c, s, q);
      StaysLive(c, s, s', q);
    } else {
      var (s1, d) := Grant(c, s, q).value;
      GrantInv(c, s, q);
      if Dispatch(c, s1, d, q).Some? {
        var k, n, e := DispatchMoves(c, s1, d, q);
        assert d in s'.pool.busy && Serves(c, d, q);
      } else {
        NothingToTake(c, s1, d, q);
        FreeKeepsWants(c, s1, d, q, q);
      }
    }
  }

  lemma FreeKeepsWants(c: Config, s: Tx, d: nat, owner: nat, q: nat)
    requires Shape(c, s) && d < c.numTokens && owner < AC_MAX && q < AC_MAX
    ensures Wanted(c, Free(c, s, d, owner), q) ==> Wanted(c, s, q)
  {
    var s' := Free(c, s, d, owner);
    if Wanted(c, s', q) {
      var p: nat :| p < MAX_SW_PEERS && Eligible(s', p, q);
      assert Eligible(s, p, q);
    }
  }

  lemma KickLive(c: Config, s: Tx, q: nat, r: nat)
    requires Inv(c, s, None) && q < AC_MAX && r < AC_MAX
    requires r == q || (Wanted(c, s, r) ==> Helped(c, s, r))
    ensures var s' := Kick(c, s, q); Wanted(c, s', r) ==> Helped(c, s', r)
  {
    if r == q {
      KickHelps(c, s, q);
    } else {
      KickMonotone(c, s, q);
      StaysLive(c, s, Kick(c, s, q), r);
    }
  }

  ghost predicate LiveAt(c: Config, s: Tx, r: nat)
    requires Shape(c, s) && r < AC_MAX
  {
    Wanted(c, s, r) ==> Helped(c, s, r)
  }

  /** The invariant holds, and `r` is served or still to come when a token is got for each queue from `q` down. */
  ghost predicate ServedOrDue(c: Config, s: Tx, q: int, r: nat)
    requires r < AC_MAX
  {
    forall hole | hole == None :: Inv(c, s, hole) && (r <= q || LiveAt(c, s, r))
  }

  lemma KickStepLive(c: Config, s: Tx, q: nat, s': Tx, r: nat)
    requires KickedTo(c, s, q, s') && r < AC_MAX && ServedOrDue(c, s, q, r)
    ensures ServedOrDue(c, s', q - 1, r)
  {
    assert Inv(c, s, None) && s' == Kick(c, s, q);
    KickInv(c, s, q);
    if r == q || LiveAt(c, s, r) {
      KickLive(c, s, q, r);
    }
  }

  lemma KicksServe(c: Config, w: seq<Tx>, r: nat)
    requires Kicks(c, w, AC_VO) && r < AC_MAX && ServedOrDue(c, w[0], AC_VO, r)
    ensures ServedOrDue(c, w[AC_VO + 1], -1, r)
  {
    for i := 0 to AC_VO + 1
      invariant ServedOrDue(c, w[i], AC_VO - i, r)
    {
      KickStepLive(c, w[i], AC_VO - i, w[i + 1], r);
    }
  }

  /** After a token has been got for each unicast queue, none of them is short of one. */
  lemma {:induction false} KicksHelp(c: Config, s: Tx, r: nat)
    requires Inv(c, s, None) && r < AC_MAX && (r == AC_MC ==> LiveAt(c, s, r))
    ensures LiveAt(c, KickDown(c, s, AC_VO), r)
  {
    var w := KickDownStates(c, s, AC_VO);
    KicksServe(c, w, r);
    assert w[AC_VO + 1] == KickDown(c, s, AC_VO) && Inv(c, w[AC_VO + 1], None);
  }

  // -------------------------------------------------------------- completions

  lemma WantsShrink(c: Config, s: Tx, s': Tx, q: nat)
    requires Shape(c, s) && Shape(c, s') && NoNewWork(c, s, s') && q < AC_MAX
    ensures Wanted(c, s', q) ==> Wanted(c, s, q)
  {
    if Wanted(c, s', q) {
      var p: nat :| p < MAX_SW_PEERS && Eligible(s', p, q);
      assert Eligible(s, p, q);
    }
  }

  lemma ReownNoNewWork(c: Config, s: Tx, d: nat, from: nat, to: nat, s': Tx)
    requires Shape(c, s) && d < c.numTokens && from < AC_MAX && to < AC_MAX && Shape(c, s')
    requires NoNewWork(c, ChangeOwner(c, s, d, from, to), s')
    ensures NoNewWork(c, s, s')
  {
    forall q: nat, p: nat | q < AC_MAX && p < MAX_SW_PEERS && Eligible(s', p, q) ensures Eligible(s, p, q) {
      assert Eligible(ChangeOwner(c, s, d, from, to), p, q);
    }
  }

  lemma FreeNoNewWork(c: Config, s: Tx, d: nat, owner: nat)
    requires Shape(c, s) && d < c.numTokens && owner < AC_MAX
    ensures NoNewWork(c, s, Free(c, s, d, owner))
  {
  }

  /**
   Refilling a token brings no new work and frees no other token; and the token itself stays in use
   unless nobody wants any access category that was looked at.
   */
  lemma RefillHelps(c: Config, s: Tx, d: nat, owner: nat, ac: nat, last: nat)
    requires Shape(c, s) && Pending(c, s) && d < c.numTokens && owner < AC_MAX && last <= ac < AC_MAX
    ensures var s' := Refill(c, s, d, owner, ac, last);
            && NoNewWork(c, s, s') && s.pool.busy - {d} <= s'.pool.busy
            && (s.pool.busy <= s'.pool.busy || forall q | last <= q <= ac :: !Wanted(c, s', q))
  {
    match FirstWork(c, s, d, ac, last)
    case Some(a) =>
      RefillIsDispatch(c, s, d, owner, a);
      var s1 := ChangeOwner(c, s, d, owner, a);
      var k, n, e := DispatchMoves(c, s1, d, a);
      DispatchNoNewWork(c, s1, d, a);
      ReownNoNewWork(c, s, d, owner, a, Refill(c, s, d, owner, ac, last));
    case None =>
      FreeNoNewWork(c, s, d, owner);
      forall q | last <= q <= ac ensures !Wanted(c, Free(c, s, d, owner), q) {
        NothingToTake(c, s, d, q);
        FreeKeepsWants(c, s, d, owner, q);
      }
  }

  lemma TxDoneLive(c: Config, s: Tx, d: nat, q: nat)
    requires Inv(c, s, None) && q < AC_MAX
    requires Wanted(c, s, q) ==> Helped(c, s, q)
    ensures var s' := TxDone(c, s, d); Wanted(c, s', q) ==> Helped(c, s', q)
  {
    var s' := TxDone(c, s, d);
    if d in s.pool.busy && Wanted(c, s', q) {
      var s1, owner := Complete(c, s, d), Owner(c, s.pool, d);
      var ac, last := if d < c.Reserved() then owner else AC_VO, if d < c.Reserved() then owner else AC_BK;
      forall k | 0 <= k < FLOWS ensures PendingOk(c, s1, k) { assert PendingOk(c, s, k); }
      RefillHelps(c, s1, d, owner, ac, last);
      WantsShrink(c, s1, s', q);
      var p: nat :| p < MAX_SW_PEERS && Eligible(s1, p, q);
      assert Eligible(s, p, q);
      var e :| e in s.pool.busy && Serves(c, e, q);
      assert e in s'.pool.busy;
    }
  }

  // ----------------------------------------------------------------- arrivals

  /** A frame is left in the queue only when a token will come for it, provided the counters can be trusted. */
  lemma QueuedIsHelped(c: Config, s: Tx, k: nat, f: Frame)
    requires Inv(c, s, None) && k < FLOWS && s.pend[k] != [] && LeftQueued(c, s, k, f)
    requires !s.peers[PeerOf(k)].ps
    requires c.maxAgg <= 1 || !s.mcSpare
    ensures Helped(c, s, AcOf(k))
  {
    var q := AcOf(k);
    TokenSplit(c);
    assert s.pool.out[q] == |Owned(c, s.pool, q)| > 0;
    var d :| d in Owned(c, s.pool, q);
    assert Serves(c, d, q);
  }

  lemma EnqueueWants(c: Config, s: Tx, k: nat, f: Frame, q: nat)
    requires Shape(c, s) && k < FLOWS && q < AC_MAX
    requires q != AcOf(k) || s.peers[PeerOf(k)].ps
    requires Wanted(c, s, q) ==> Helped(c, s, q)
    ensures var s' := Enqueue(c, s, k, f); Wanted(c, s', q) ==> Helped(c, s', q)
  {
    var s' := Enqueue(c, s, k, f);
    if Wanted(c, s', q) {
      var p: nat :| p < MAX_SW_PEERS && Eligible(s', p, q);
      assert Eligible(s, p, q);
    }
  }

  lemma XmitLive(c: Config, s: Tx, k: nat, f: Frame, q: nat)
    requires Inv(c, s, None) && Enabled(c, s, EvXmit(k, f)) && q < AC_MAX
    requires c.maxAgg <= 1 || !s.mcSpare
    requires Wanted(c, s, q) ==> Helped(c, s, q)
    ensures var s' := Xmit(c, s, k, f).0; Wanted(c, s', q) ==> Helped(c, s', q)
  {
    if |s.pend[k]| < c.pendLimit {
      var s1 := Enqueue(c, s, k, f);
      EnqueueInv(c, s, k, f);
      if q != AcOf(k) || s.peers[PeerOf(k)].ps { EnqueueWants(c, s, k, f, q); }
      if LeftQueued(c, s1, k, f) {
        if !s.peers[PeerOf(k)].ps { QueuedIsHelped(c, s1, k, f); }
      } else {
        KickLive(c, s1, AcOf(k), q);
      }
    }
  }

  // --------------------------------------------------------------------- runs

  lemma PmModeLive(c: Config, s: Tx, p: nat, ps: bool, q: nat)
    requires Inv(c, s, None) && p < MAX_PEERS && q < AC_MAX
    requires Wanted(c, s, q) ==> Helped(c, s, q)
    ensures var s' := PmMode(c, s, p, ps); Wanted(c, s', q) ==> Helped(c, s', q)
  {
    var s1 := SetPs(c, s, p, ps);
    PeersOnlyInv(c, s, s1);
    if ps || q == AC_MC {
      forall r: nat | r < MAX_SW_PEERS && Eligible(s1, r, q) ensures Eligible(s, r, q) {
        assert PendingOk(c, s, Flow(r, q));
      }
    }
    if !ps { KicksHelp(c, s1, q); }
  }

  lemma PsRequestLive(c: Config, s: Tx, p: nat, num: int, q: nat)
    requires Inv(c, s, None) && p < MAX_PEERS && q < AC_MAX
    requires Wanted(c, s, q) ==> Helped(c, s, q)
    ensures var s' := PsRequest(c, s, p, num); Wanted(c, s', q) ==> Helped(c, s', q)
  {
    var s1 := Request(c, s, p, num);
    PeersOnlyInv(c, s, s1);
    forall r: nat | r < MAX_SW_PEERS && Eligible(s1, r, q) ensures Eligible(s, r, q) {}
    KicksHelp(c, s1, q);
  }

  lemma ConsumeLive(c: Config, s: Tx, q: nat)
    requires Shape(c, s) && q < AC_MAX && Wanted(c, Consume(c, s), q) && (Wanted(c, s, q) ==> Helped(c, s, q))
    ensures Helped(c, Consume(c, s), q)
  {
    var s' := Consume(c, s);
    var p: nat :| p < MAX_SW_PEERS && Eligible(s', p, q);
    assert Eligible(s, p, q);
    var d :| d in s.pool.busy && Serves(c, d, q);
    assert d in s'.pool.busy;
  }

  lemma StepLive(c: Config, s: Tx, e: Event)
    requires Inv(c, s, None) && Enabled(c, s, e) && NoneStranded(c, s)
    requires c.maxAgg <= 1 || !s.mcSpare
    ensures NoneStranded(c, Step(c, s, e))
  {
    var s' := Step(c, s, e);
    forall q | 0 <= q < AC_MAX && Wanted(c, s', q) ensures Helped(c, s', q) {
      match e
      case EvXmit(k, f) => XmitLive(c, s, k, f, q);
      case EvTxDone(d) => TxDoneLive(c, s, d, q);
      case EvPsRequest(p, num) => PsRequestLive(c, s, p, num, q);
      case EvPmMode(p, ps) => PmModeLive(c, s, p, ps, q);
      case EvConsume => ConsumeLive(c, s, q);
    }
  }

  // ------------------------------------------------------ what a completion pulls

  /** Sending token `d` adds one command, for the flow that the token was loaded with. */
  lemma RefillSends(c: Config, s: Tx, d: nat, owner: nat, ac: nat, last: nat, q: nat)
    requires Shape(c, s) && Pending(c, s) && d < c.numTokens && owner < AC_MAX && last <= q <= ac < AC_MAX && Wanted(c, s, q)
    ensures var s' := Refill(c, s, d, owner, ac, last);
            && |s'.log| == |s.log| + 1
            && var e := s'.log[|s.log|]; e.cmd.desc == d && q <= AcOf(e.flow) <= ac
  {
    if TakeBatch(c, s, d, q) == None { NothingToTake(c, s, d, q); }
    var a := FirstWork(c, s, d, ac, last).value;
    RefillIsDispatch(c, s, d, owner, a);
    var k, n, e := DispatchMoves(c, ChangeOwner(c, s, d, owner, a), d, a);
  }

  /**
   The completion of a token that serves an access category which somebody wants sends a command at
   once: of that category when the token is reserved, of that or a higher one when it is a spare.
   */
  lemma CompletionPulls(c: Config, s: Tx, d: nat, q: nat)
    requires Reachable(c, s) && d in s.pool.busy && ReadByRpu(s, d) && q < AC_MAX
    requires Serves(c, d, q) && Wanted(c, s, q)
    ensures var s' := TxDone(c, s, d);
            && |s'.log| == |s.log| + 1
            && var e := s'.log[|s.log|];
               e.cmd.desc == d && (if d < c.Reserved() then AcOf(e.flow) == q else q <= AcOf(e.flow) < AC_MC)
  {
    ReachableInv(c, s);
    CompleteInv(c, s, d);
    var s1, owner := Complete(c, s, d), Owner(c, s.pool, d);
    var p: nat :| p < MAX_SW_PEERS && Eligible(s, p, q);
    assert Eligible(s1, p, q);
    if d < c.Reserved() {
      RefillSends(c, s1, d, owner, owner, owner, q);
    } else {
      RefillSends(c, s1, d, owner, AC_VO, AC_BK, q);
    }
  }
}
