/**
 Whose turn it is, over whole runs: how long an ordinary peer waits for its turn in the round, and
 how often a client in power save is served.
 */
module TxFairness {
  import opened Basics
  import opened TxConfig
  import opened PoolModel
  import opened TxModel
  import opened TxDispatch
  import opened TxSteps

  /** The commands that served a flow. */
  function Served(log: seq<Entry>, k: nat): nat {
    if log == [] then 0
    else Served(log[..|log| - 1], k) + if log[|log| - 1].flow == k then 1 else 0
  }

  /** The round-robin turns that an access category has handed out. */
  function Turns(log: seq<Entry>, ac: nat): nat {
    if log == [] then 0
    else Turns(log[..|log| - 1], ac) + if log[|log| - 1].turn && AcOf(log[|log| - 1].flow) == ac then 1 else 0
  }

  /** The commands to a peer, and those of them that end its service period. */
  function SentTo(log: seq<Entry>, p: nat): nat {
    if log == [] then 0
    else SentTo(log[..|log| - 1], p) + if PeerOf(log[|log| - 1].flow) == p then 1 else 0
  }

  function Ended(log: seq<Entry>, p: nat): nat {
    if log == [] then 0
    else Ended(log[..|log| - 1], p) + if PeerOf(log[|log| - 1].flow) == p && log[|log| - 1].cmd.eosp then 1 else 0
  }

  lemma {:induction false} CountsAppend(log: seq<Entry>, e: Entry, k: nat, ac: nat, p: nat)
    ensures Served(log + [e], k) == Served(log, k) + if e.flow == k then 1 else 0
    ensures Turns(log + [e], ac) == Turns(log, ac) + if e.turn && AcOf(e.flow) == ac then 1 else 0
    ensures SentTo(log + [e], p) == SentTo(log, p) + if PeerOf(e.flow) == p then 1 else 0
    ensures Ended(log + [e], p) == Ended(log, p) + if PeerOf(e.flow) == p && e.cmd.eosp then 1 else 0
  {
    assert (log + [e])[..|log|] == log;
  }

  /** How many places peer `p` is behind the one whose opportunity it is. */
  function Distance(opp: nat, p: nat): (d: nat)
    requires opp < MAX_PEERS && p < MAX_PEERS
    ensures d < MAX_PEERS && Cyclic(opp, d) == p
  {
    (p + MAX_PEERS - opp) % MAX_PEERS
  }

  /** From `s` to `s'` the flow (p, ac) was served, or it still waits and every turn brought it nearer. */
  ghost predicate Nearer(c: Config, s: Tx, s': Tx, p: nat, ac: nat)
    requires Shape(c, s) && Shape(c, s') && p < MAX_PEERS && ac < AC_MAX
  {
    var k := Flow(p, ac);
    && Served(s.log, k) <= Served(s'.log, k)
    && (Served(s.log, k) == Served(s'.log, k) && Eligible(s, p, ac) ==>
          && Eligible(s', p, ac)
          && Turns(s'.log, ac) + Distance(s'.opp[ac], p) <= Turns(s.log, ac) + Distance(s.opp[ac], p))
  }

  /**
   From `s` to `s'` a client in power save was served once for every turn that it spent, and told so
   exactly when it spent its last; and then it is no longer in the wakeup queue.
   */
  ghost predicate Spends(c: Config, s: Tx, s': Tx, p: nat)
    requires Shape(c, s) && Shape(c, s') && p < MAX_PEERS
  {
    var a, b := s.peers[p].psTokens, s'.peers[p].psTokens;
    s.peers[p].ps ==>
      && s'.peers[p].ps
      && SentTo(s'.log, p) - SentTo(s.log, p) == a - b >= 0
      && (0 <= a <==> 0 <= b)
      && Ended(s'.log, p) - Ended(s.log, p) == (if 0 < a && b == 0 then 1 else 0)
      && (0 < a && b == 0 ==> p !in s'.wake)
      && (p !in s.wake ==> p !in s'.wake)
  }

  /** Both of these; the second only where the peer's power-save state was left alone. */
  ghost predicate Toward(c: Config, s: Tx, s': Tx, p: nat, alone: bool, ac: nat)
    requires Shape(c, s) && Shape(c, s') && p < MAX_PEERS && ac < AC_MAX
  {
    Nearer(c, s, s', p, ac) && (alone ==> Spends(c, s, s', p))
  }

  ghost predicate Progress(c: Config, s: Tx, s': Tx, p: nat, alone: bool)
    requires Shape(c, s) && Shape(c, s') && p < MAX_PEERS
  {
    forall ac | 0 <= ac < AC_MAX :: Toward(c, s, s', p, alone, ac)
  }

  lemma TowardTrans(c: Config, s: Tx, m: Tx, s': Tx, p: nat, alone: bool, ac: nat)
    requires Shape(c, s) && Shape(c, m) && Shape(c, s') && p < MAX_PEERS && ac < AC_MAX
    requires Toward(c, s, m, p, alone, ac) && Toward(c, m, s', p, alone, ac)
    ensures Toward(c, s, s', p, alone, ac)
  {
  }

  lemma ProgressTrans(c: Config, s: Tx, m: Tx, s': Tx, p: nat, alone: bool)
    requires Shape(c, s) && Shape(c, m) && Shape(c, s') && p < MAX_PEERS
    requires Progress(c, s, m, p, alone) && Progress(c, m, s', p, alone)
    ensures Progress(c, s, s', p, alone)
  {
    forall ac | 0 <= ac < AC_MAX ensures Toward(c, s, s', p, alone, ac) {
      TowardTrans(c, s, m, s', p, alone, ac);
    }
  }

  /** Steps that only touch tokens change nothing here. */
  lemma ProgressSame(c: Config, s: Tx, s': Tx, p: nat, alone: bool)
    requires Shape(c, s) && Shape(c, s') && p < MAX_PEERS
    requires s'.peers == s.peers && s'.pend == s.pend && s'.opp == s.opp && s'.wake == s.wake && s'.log == s.log
    ensures Progress(c, s, s', p, alone)
  {
  }

  // ----------------------------------------------------------------- dispatch

  lemma {:induction false} FirstTurnIs(c: Config, s: Tx, ac: nat, i: nat, j: nat)
    requires Shape(c, s) && ac < AC_MAX && i <= j < MAX_PEERS && Eligible(s, Cyclic(s.opp[ac], j), ac)
    ensures exists n :: i <= n <= j && FirstTurn(c, s, ac, i) == Some(Cyclic(s.opp[ac], n))
    decreases MAX_PEERS - i
  {
    if Eligible(s, Cyclic(s.opp[ac], i), ac) {
      assert FirstTurn(c, s, ac, i) == Some(Cyclic(s.opp[ac], i));
    } else {
      FirstTurnIs(c, s, ac, i + 1, j);
    }
  }

  /** The turn of another peer brings `p` nearer. */
  lemma TurnBringsNearer(opp: nat, p: nat, n: nat)
    requires opp < MAX_PEERS && p < MAX_PEERS && n <= Distance(opp, p) && Cyclic(opp, n) != p
    ensures Distance((Cyclic(opp, n) + 1) % MAX_PEERS, p) < Distance(opp, p)
  {
  }

  /** A turn that `ac` gives to another peer than the eligible `p` brings `p` nearer. */
  lemma {:induction false} OtherTurn(c: Config, s: Tx, ac: nat, q: nat, p: nat)
    requires Shape(c, s) && ac < AC_MAX && p < MAX_PEERS && Eligible(s, p, ac)
    requires FirstTurn(c, s, ac, 0) == Some(q) && q != p
    ensures Distance((q + 1) % MAX_PEERS, p) < Distance(s.opp[ac], p)
  {
    FirstTurnIs(c, s, ac, 0, Distance(s.opp[ac], p));
    var j :| 0 <= j <= Distance(s.opp[ac], p) && FirstTurn(c, s, ac, 0) == Some(Cyclic(s.opp[ac], j));
    TurnBringsNearer(s.opp[ac], p, j);
  }

  /** What one more command amounts to. */
  lemma EntryNearer(c: Config, s: Tx, s': Tx, e: Entry, p: nat, ac: nat)
    requires Shape(c, s) && Shape(c, s') && p < MAX_PEERS && ac < AC_MAX && s'.log == s.log + [e]
    requires Eligible(s, p, ac) && e.flow != Flow(p, ac) ==>
               && Eligible(s', p, ac)
               && (if e.turn && AcOf(e.flow) == ac then Distance(s'.opp[ac], p) < Distance(s.opp[ac], p)
                   else s'.opp[ac] == s.opp[ac])
    ensures Nearer(c, s, s', p, ac)
  {
    CountsAppend(s.log, e, Flow(p, ac), ac, p);
  }

  lemma OthersStayEligible(c: Config, s: Tx, d: nat, k: nat, n: nat, e: Entry, s': Tx, p: nat, ac: nat)
    requires Shape(c, s) && Moved(c, s, d, k, n, e, s') && p < MAX_PEERS && ac < AC_MAX
    requires s'.peers[p].ps == s.peers[p].ps && k != Flow(p, ac)
    ensures Eligible(s, p, ac) ==> Eligible(s', p, ac)
  {
  }

  /** A batch of another flow of the access category leaves: its turn brings the waiting one nearer. */
  lemma OtherLeaves(c: Config, s: Tx, d: nat, a: nat, k: nat, n: nat, e: Entry, p: nat, ac: nat)
    requires Shape(c, s) && d < c.numTokens && a < AC_MAX && Dispatch(c, s, d, a).Some?
    requires Moved(c, s, d, k, n, e, Dispatch(c, s, d, a).value) && e.turn == Choose(c, s, a).Turn?
    requires !Choose(c, s, a).Nobody? && k == Flow(PickedPeer(Choose(c, s, a)), a)
    requires p < MAX_PEERS && ac < AC_MAX && Eligible(s, p, ac) && k != Flow(p, ac)
    ensures var s' := Dispatch(c, s, d, a).value;
            && Eligible(s', p, ac)
            && (if e.turn && AcOf(k) == ac then Distance(s'.opp[ac], p) < Distance(s.opp[ac], p)
                else s'.opp[ac] == s.opp[ac])
  {
    DispatchTurn(c, s, d, a);
    OthersStayEligible(c, s, d, k, n, e, Dispatch(c, s, d, a).value, p, ac);
    if e.turn && AcOf(k) == ac {
      OtherTurn(c, s, ac, PeerOf(k), p);
    }
  }

  lemma DispatchNearer(c: Config, s: Tx, d: nat, a: nat, p: nat, ac: nat)
    requires Shape(c, s) && d < c.numTokens && a < AC_MAX && Dispatch(c, s, d, a).Some?
    requires p < MAX_PEERS && ac < AC_MAX
    ensures Nearer(c, s, Dispatch(c, s, d, a).value, p, ac)
  {
    var k, n, e := DispatchMoves(c, s, d, a);
    if Eligible(s, p, ac) && k != Flow(p, ac) {
      OtherLeaves(c, s, d, a, k, n, e, p, ac);
    }
    EntryNearer(c, s, Dispatch(c, s, d, a).value, e, p, ac);
  }

  lemma {:induction false} DispatchTurn(c: Config, s: Tx, d: nat, a: nat)
    requires Shape(c, s) && d < c.numTokens && a < AC_MAX && Dispatch(c, s, d, a).Some?
    ensures var s', pick := Dispatch(c, s, d, a).value, Choose(c, s, a);
            && s'.opp == (if pick.Turn? then s.opp[a := (pick.peer + 1) % MAX_PEERS] else s.opp)
            && (forall q | 0 <= q < MAX_SW_PEERS ::
                  && s'.peers[q].ps == s.peers[q].ps
                  && s'.peers[q].psTokens == s.peers[q].psTokens - if pick == Woken(q) then 1 else 0)
    ensures Choose(c, s, a).Turn? ==> !s.peers[Choose(c, s, a).peer].ps && FirstTurn(c, s, a, 0) == Some(Choose(c, s, a).peer)
    ensures Choose(c, s, a).Woken? ==> s.peers[Choose(c, s, a).peer].psTokens != 0
  {
  }

  lemma DispatchEosp(c: Config, s: Tx, d: nat, a: nat)
    requires Shape(c, s) && d < c.numTokens && a < AC_MAX && Dispatch(c, s, d, a).Some?
    ensures var s' := Dispatch(c, s, d, a).value;
            var e := s'.log[|s'.log| - 1];
            && (e.cmd.eosp <==> s'.peers[PeerOf(e.flow)].psTokens == 0)
            && s'.wake == if e.cmd.eosp then Without(s.wake, PeerOf(e.flow)) else s.wake
  {
  }

  /** A client in power save is only served out of its allowance. */
  lemma DispatchSpends(c: Config, s: Tx, d: nat, a: nat, p: nat)
    requires Shape(c, s) && d < c.numTokens && a < AC_MAX && Dispatch(c, s, d, a).Some? && p < MAX_PEERS
    ensures Spends(c, s, Dispatch(c, s, d, a).value, p)
  {
    var k, n, e := DispatchMoves(c, s, d, a);
    DispatchTurn(c, s, d, a);
    DispatchEosp(c, s, d, a);
    CountsAppend(s.log, e, k, a, p);
  }

  // ------------------------------------------------------------------- events

  lemma DispatchProgress(c: Config, s: Tx, d: nat, a: nat, p: nat, alone: bool)
    requires Shape(c, s) && d < c.numTokens && a < AC_MAX && Dispatch(c, s, d, a).Some?
    requires p < MAX_PEERS
    ensures Progress(c, s, Dispatch(c, s, d, a).value, p, alone)
  {
    DispatchSpends(c, s, d, a, p);
    forall ac | 0 <= ac < AC_MAX ensures Toward(c, s, Dispatch(c, s, d, a).value, p, alone, ac) {
      DispatchNearer(c, s, d, a, p, ac);
    }
  }

  lemma KickProgress(c: Config, s: Tx, a: nat, p: nat, alone: bool) returns (s': Tx)
    requires Shape(c, s) && a < AC_MAX && p < MAX_PEERS
    ensures s' == Kick(c, s, a)
    ensures Progress(c, s, s', p, alone)
  {
    s' := Kick(c, s, a);
    if Grant(c, s, a).None? {
      ProgressSame(c, s, s', p, alone);
    } else {
      var (s1, d) := Grant(c, s, a).value;
      ProgressSame(c, s, s1, p, alone);
      if Dispatch(c, s1, d, a).Some? {
        DispatchProgress(c, s1, d, a, p, alone);
      } else {
        ProgressSame(c, s1, s', p, alone);
      }
      ProgressTrans(c, s, s1, s', p, alone);
    }
  }

  lemma KickAdvances(c: Config, s0: Tx, s: Tx, a: nat, s': Tx, p: nat, alone: bool)
    requires Shape(c, s0) && KickedTo(c, s, a, s') && p < MAX_PEERS && Progress(c, s0, s, p, alone)
    ensures Progress(c, s0, s', p, alone)
  {
    var s1 := KickProgress(c, s, a, p, alone);
    ProgressTrans(c, s0, s, s', p, alone);
  }

  lemma KicksAdvance(c: Config, w: seq<Tx>, a: nat, p: nat, alone: bool)
    requires Kicks(c, w, a) && p < MAX_PEERS && Shape(c, w[0])
    ensures Shape(c, w[a + 1]) && Progress(c, w[0], w[a + 1], p, alone)
  {
    ProgressSame(c, w[0], w[0], p, alone);
    for i := 0 to a + 1
      invariant Shape(c, w[i]) && Progress(c, w[0], w[i], p, alone)
    {
      KickAdvances(c, w[0], w[i], a - i, w[i + 1], p, alone);
    }
  }

  lemma {:induction false} KickDownProgress(c: Config, s: Tx, a: nat, p: nat, alone: bool)
    requires Shape(c, s) && a < AC_MAX && p < MAX_PEERS
    ensures Progress(c, s, KickDown(c, s, a), p, alone)
  {
    var w := KickDownStates(c, s, a);
    KicksAdvance(c, w, a, p, alone);
    assert w[a + 1] == KickDown(c, s, a);
  }

  lemma RefillProgress(c: Config, s: Tx, d: nat, owner: nat, a: nat, last: nat, p: nat, alone: bool)
    requires Shape(c, s) && d < c.numTokens && owner < AC_MAX && last <= a < AC_MAX && p < MAX_PEERS
    ensures Progress(c, s, Refill(c, s, d, owner, a, last), p, alone)
  {
    var s' := Refill(c, s, d, owner, a, last);
    match FirstWork(c, s, d, a, last)
    case Some(b) =>
      var s1 := ChangeOwner(c, s, d, owner, b);
      RefillIsDispatch(c, s, d, owner, b);
      ProgressSame(c, s, s1, p, alone);
      DispatchProgress(c, s1, d, b, p, alone);
      ProgressTrans(c, s, s1, s', p, alone);
    case None =>
      ProgressSame(c, s, s', p, alone);
  }

  lemma TxDoneProgress(c: Config, s: Tx, d: nat, p: nat, alone: bool)
    requires Shape(c, s) && p < MAX_PEERS
    ensures Progress(c, s, TxDone(c, s, d), p, alone)
  {
    var s' := TxDone(c, s, d);
    if d in s.pool.busy {
      var s1, owner := Complete(c, s, d), Owner(c, s.pool, d);
      ProgressSame(c, s, s1, p, alone);
      if d < c.Reserved() {
        RefillProgress(c, s1, d, owner, owner, owner, p, alone);
      } else {
        RefillProgress(c, s1, d, owner, AC_VO, AC_BK, p, alone);
      }
      ProgressTrans(c, s, s1, s', p, alone);
    } else {
      ProgressSame(c, s, s', p, alone);
    }
  }

  lemma EnqueueProgress(c: Config, s: Tx, k: nat, f: Frame, p: nat, alone: bool)
    requires Shape(c, s) && k < FLOWS && p < MAX_PEERS
    ensures Progress(c, s, Enqueue(c, s, k, f), p, alone)
  {
  }

  /** Events that do not put `p` to sleep; and that neither wake it nor renew its allowance, where that matters. */
  predicate LeavesAlone(e: Event, p: nat, alone: bool) {
    && !(e.EvPmMode? && e.peer == p && (e.ps || alone))
    && !(e.EvPsRequest? && e.peer == p && alone)
  }

  lemma XmitProgress(c: Config, s: Tx, k: nat, f: Frame, p: nat, alone: bool)
    requires Shape(c, s) && k < FLOWS && p < MAX_PEERS
    ensures Progress(c, s, Xmit(c, s, k, f).0, p, alone)
  {
    if |s.pend[k]| >= c.pendLimit {
      ProgressSame(c, s, s, p, alone);
    } else {
      var s1 := Enqueue(c, s, k, f);
      EnqueueProgress(c, s, k, f, p, alone);
      if !LeftQueued(c, s1, k, f) {
        var s2 := KickProgress(c, s1, AcOf(k), p, alone);
        ProgressTrans(c, s, s1, s2, p, alone);
      }
    }
  }

  lemma StepProgress(c: Config, s: Tx, e: Event, p: nat, alone: bool)
    requires Shape(c, s) && Enabled(c, s, e) && LeavesAlone(e, p, alone) && p < MAX_PEERS
    ensures Progress(c, s, Step(c, s, e), p, alone)
  {
    var s' := Step(c, s, e);
    match e
    case EvXmit(k, f) => XmitProgress(c, s, k, f, p, alone);
    case EvTxDone(d) => TxDoneProgress(c, s, d, p, alone);
    case EvPsRequest(q, num) =>
      var s1 := Request(c, s, q, num);
      PeerProgress(c, s, s1, q, p, alone);
      var s2 := KickDown(c, s1, AC_VO);
      KickDownProgress(c, s1, AC_VO, p, alone);
      ProgressTrans(c, s, s1, s2, p, alone);
    case EvPmMode(q, ps) =>
      var s1 := SetPs(c, s, q, ps);
      PeerProgress(c, s, s1, q, p, alone);
      if !ps {
        var s2 := KickDown(c, s1, AC_VO);
        KickDownProgress(c, s1, AC_VO, p, alone);
        ProgressTrans(c, s, s1, s2, p, alone);
      }
    case EvConsume => ProgressSame(c, s, s', p, alone);
  }

  /** A change to the record of peer `q` does not put `p` to sleep, and leaves `p` alone unless it is `q`. */
  lemma PeerProgress(c: Config, s: Tx, s': Tx, q: nat, p: nat, alone: bool)
    requires Shape(c, s) && Shape(c, s') && p < MAX_PEERS
    requires s'.pend == s.pend && s'.opp == s.opp && s'.log == s.log
    requires s.peers[p].ps || !s'.peers[p].ps
    requires alone ==> q != p && s'.peers[p] == s.peers[p]
    requires s'.wake == s.wake || s'.wake == s.wake + [q]
    ensures Progress(c, s, s', p, alone)
  {
  }

  /** Nothing between two points of a run concerns the power-save state of `p` in that way. */
  ghost predicate LeftAlone(es: seq<Event>, i: nat, j: nat, p: nat, alone: bool)
    requires i <= j <= |es|
  {
    forall n | i <= n < j :: LeavesAlone(es[n], p, alone)
  }

  lemma TakesProgress(c: Config, s: Tx, e: Event, s': Tx, p: nat, alone: bool)
    requires Takes(c, s, e, s') && LeavesAlone(e, p, alone) && p < MAX_PEERS
    ensures Shape(c, s') && Progress(c, s, s', p, alone)
  {
    StepProgress(c, s, e, p, alone);
  }

  lemma {:induction false} RunProgress(c: Config, t: seq<Tx>, es: seq<Event>, i: nat, j: nat, p: nat, alone: bool)
    requires Run(c, t, es) && i <= j < |t| && LeftAlone(es, i, j, p, alone) && p < MAX_PEERS
    ensures Shape(c, t[i]) && Shape(c, t[j]) && Progress(c, t[i], t[j], p, alone)
    decreases j
  {
    RunShape(c, t, es, i);
    RunShape(c, t, es, j);
    if i == j {
      ProgressSame(c, t[i], t[j], p, alone);
    } else {
      RunProgress(c, t, es, i, j - 1, p, alone);
      TakesProgress(c, t[j - 1], es[j - 1], t[j], p, alone);
      ProgressTrans(c, t[i], t[j - 1], t[j], p, alone);
    }
  }

  lemma RunShape(c: Config, t: seq<Tx>, es: seq<Event>, i: nat)
    requires Run(c, t, es) && i < |t|
    ensures Shape(c, t[i])
  {
    if i > 0 { assert Takes(c, t[i - 1], es[i - 1], t[i]); }
  }

  /**
   Bounded wait: take any stretch of any run at the start of which peer `p` is awake and has frames
   waiting on `ac`, and during which it is not put to sleep.  If the access category
   has handed out MAX_PEERS round-robin turns in it, then the flow has been served.
   */
  lemma {:induction false} ServedWithinOneRound(c: Config, t: seq<Tx>, es: seq<Event>, i: nat, j: nat, p: nat, ac: nat)
    requires Run(c, t, es) && i <= j < |t| && LeftAlone(es, i, j, p, false) && p < MAX_PEERS && ac < AC_MAX
    requires Shape(c, t[i]) && Eligible(t[i], p, ac)
    requires Turns(t[j].log, ac) >= Turns(t[i].log, ac) + MAX_PEERS
    ensures Served(t[j].log, Flow(p, ac)) > Served(t[i].log, Flow(p, ac))
  {
    RunProgress(c, t, es, i, j, p, false);
    assert Toward(c, t[i], t[j], p, false, ac);
  }

  /** From the moment of the request on there has been progress. */
  lemma AfterRequest(c: Config, t: seq<Tx>, es: seq<Event>, i: nat, j: nat, p: nat, num: int)
    requires Run(c, t, es) && i < j < |t| && p < MAX_PEERS && Shape(c, t[i])
    requires es[i] == EvPsRequest(p, num) && LeftAlone(es, i + 1, j, p, true)
    ensures Shape(c, t[j]) && Progress(c, Request(c, t[i], p, num), t[j], p, true)
  {
    assert Takes(c, t[i], es[i], t[i + 1]);
    var s1 := Request(c, t[i], p, num);
    var s2 := KickDown(c, s1, AC_VO);
    KickDownProgress(c, s1, AC_VO, p, true);
    RunProgress(c, t, es, i + 1, j, p, true);
    ProgressTrans(c, s1, t[i + 1], t[j], p, true);
  }

  /**
   Power-save delivery: a client in power save asks for `num` frames at event `i`, and until event
   `j` nothing else concerns its power-save state.  It has then been served once for every turn it
   spent, hence at most `num` times when `num` is not negative; the end of the service period was
   announced exactly when the last turn was spent, and after that it is not in the wakeup queue.
   A negative `num` is an allowance that never ends.
   */
  lemma {:induction false} PowerSaveDelivery(c: Config, t: seq<Tx>, es: seq<Event>, i: nat, j: nat, p: nat, num: int)
    requires Run(c, t, es) && i < j < |t| && p < MAX_PEERS
    requires es[i] == EvPsRequest(p, num) && LeftAlone(es, i + 1, j, p, true)
    requires Shape(c, t[i]) && t[i].peers[p].ps
    ensures Shape(c, t[j])
    ensures var left := t[j].peers[p].psTokens;
            var turns := SentTo(t[j].log, p) - SentTo(t[i].log, p);
            && turns == num - left >= 0
            && (0 <= num ==> 0 <= left && turns <= num)
            && (num < 0 ==> left < 0)
            && Ended(t[j].log, p) - Ended(t[i].log, p) == (if 0 < num && left == 0 then 1 else 0)
            && (0 < num && left == 0 ==> p !in t[j].wake)
  {
    AfterRequest(c, t, es, i, j, p, num);
    assert Toward(c, Request(c, t[i], p, num), t[j], p, true, AC_BK);
  }
}
