/**
 What the handlers of the access point deliver: a request for frames, or a client that wakes, is
 answered with a command at once as far as there are tokens; and the status of an arrival.
 */
module TxDelivery {
  import opened Basics
  import opened TxConfig
  import opened PoolModel
  import opened TxModel
  import opened TxInvariant
  import opened TxDispatch
  import opened TxSteps
  import opened TxLive
  import opened TxFairness
  import opened TxGrowth
  import opened TxChoice

  // ------------------------------------------------------------------- tokens

  /** The spare tokens that are not in use. */
  function FreeSpares(c: Config, busy: set<nat>): set<nat> {
    set d: nat | c.Reserved() <= d < c.numTokens && d !in busy
  }

  /** One of the tokens reserved for `ac` is free, or more than `n` spares are. */
  ghost predicate TokenLeft(c: Config, busy: set<nat>, ac: nat, n: nat) {
    !ReservedBusy(c, busy, ac) || n < |FreeSpares(c, busy)|
  }

  lemma TokenLeftFinds(c: Config, busy: set<nat>, ac: nat, n: nat)
    requires c.Valid() && ac < AC_MAX && TokenLeft(c, busy, ac, n)
    ensures FindFree(c, busy, ac).Some?
  {
    FindFreeIs(c, busy, ac);
    if ReservedBusy(c, busy, ac) {
      var d :| d in FreeSpares(c, busy);
    }
  }

  lemma SparesShrink(c: Config, busy: set<nat>, d: nat)
    ensures |FreeSpares(c, busy)| <= |FreeSpares(c, busy + {d})| + 1
  {
    var a, b := FreeSpares(c, busy), FreeSpares(c, busy + {d});
    assert b == a - {d};
    assert d in a ==> a == b + {d};
    assert d !in a ==> a == b;
  }

  /** What a kick for `b` does to the tokens: it takes one for `b` or none. */
  lemma KickTakes(c: Config, s: Tx, b: nat) returns (d: nat)
    requires Shape(c, s) && b < AC_MAX
    ensures Kick(c, s, b).pool.busy <= s.pool.busy + {d} && (d < c.Reserved() ==> d % AC_MAX == b)
  {
    FindFreeIs(c, s.pool.busy, b);
    TokenSplit(c);
    d := c.Reserved();
    if Grant(c, s, b).Some? {
      var s1 := Grant(c, s, b).value.0;
      d := Grant(c, s, b).value.1;
      if Dispatch(c, s1, d, b).Some? {
        var k, n, e := DispatchMoves(c, s1, d, b);
      }
    }
  }

  lemma SparesMonotone(c: Config, a: set<nat>, b: set<nat>)
    requires a <= b
    ensures |FreeSpares(c, b)| <= |FreeSpares(c, a)|
  {
    SubsetCard(FreeSpares(c, b), FreeSpares(c, a));
  }

  lemma {:induction false} SubsetCard(a: set<nat>, b: set<nat>)
    requires a <= b
    ensures |a| <= |b|
  {
    if a != {} {
      var x :| x in a;
      SubsetCard(a - {x}, b - {x});
    }
  }

  lemma KickLeaves(c: Config, s: Tx, b: nat, s': Tx, ac: nat, n: nat)
    requires KickedTo(c, s, b, s') && b != ac && ac < AC_MAX && TokenLeft(c, s.pool.busy, ac, n + 1)
    ensures TokenLeft(c, s'.pool.busy, ac, n)
  {
    var d := KickTakes(c, s, b);
    assert s' == Kick(c, s, b);
    if !ReservedBusy(c, s.pool.busy, ac) {
      var e: nat :| e < c.Reserved() && e % AC_MAX == ac && e !in s.pool.busy;
      assert e !in s'.pool.busy;
    } else {
      SparesShrink(c, s.pool.busy, d);
      SparesMonotone(c, s'.pool.busy, s.pool.busy + {d});
    }
  }

  // ---------------------------------------------------------------- clients

  /** How many of the categories above `ac`, up to `b`, have frames pending for `p`. */
  function HigherWork(s: Tx, p: nat, ac: nat, b: nat): nat
    requires |s.pend| == FLOWS && p < MAX_SW_PEERS && b < AC_MAX
    decreases b
  {
    if b <= ac then 0 else HigherWork(s, p, ac, b - 1) + if s.pend[Flow(p, b)] == [] then 0 else 1
  }

  lemma {:induction false} HigherWorkSame(s: Tx, s': Tx, p: nat, ac: nat, b: nat)
    requires |s.pend| == |s'.pend| == FLOWS && p < MAX_SW_PEERS && b < AC_MAX
    requires forall a | 0 <= a <= b :: s'.pend[Flow(p, a)] == s.pend[Flow(p, a)]
    ensures HigherWork(s', p, ac, b) == HigherWork(s, p, ac, b)
    decreases b
  {
    if b > ac { HigherWorkSame(s, s', p, ac, b - 1); }
  }

  /** The client has turns left for `ac` even if every higher category from `b` down takes one; a negative number never ends. */
  predicate Allowance(s: Tx, p: nat, ac: nat, b: nat)
    requires |s.peers| == MAX_SW_PEERS && |s.pend| == FLOWS && p < MAX_SW_PEERS && b < AC_MAX
  {
    s.peers[p].psTokens < 0 || HigherWork(s, p, ac, b) < s.peers[p].psTokens
  }

  /** The client has asked for frames and has turns left, or it is awake. */
  predicate Servable(s: Tx, p: nat, ac: nat, b: nat, asked: bool)
    requires |s.peers| == MAX_SW_PEERS && |s.pend| == FLOWS && p < MAX_SW_PEERS && b < AC_MAX
  {
    if asked then p in s.wake && Allowance(s, p, ac, b) else !s.peers[p].ps
  }

  /** While a client that has asked has turns left and frames pending, nobody is served by a round-robin turn. */
  lemma NoTurnBefore(c: Config, s: Tx, b: nat, p: nat)
    requires Shape(c, s) && b < AC_MC && p < MAX_PEERS && p in s.wake && s.peers[p].psTokens != 0
    ensures Choose(c, s, b).Turn? ==> s.pend[Flow(p, b)] == []
  {
    ChooseIs(c, s, b);
    var i :| 0 <= i < |s.wake| && s.wake[i] == p;
    if Choose(c, s, b).Turn? { assert !TurnsLeft(s, s.wake[i], b); }
  }

  /** The batch leaves queues of other categories alone. */
  lemma OtherQueues(c: Config, s: Tx, d: nat, b: nat, x: nat, a: nat)
    requires Shape(c, s) && d < c.numTokens && a < AC_MAX && b < AC_MAX && a != b && Dispatch(c, s, d, b).Some?
    requires x < MAX_SW_PEERS
    ensures Dispatch(c, s, d, b).value.pend[Flow(x, a)] == s.pend[Flow(x, a)]
  {
    var k, n, e := DispatchMoves(c, s, d, b);
  }

  /** A turn of the client is spent only on a category that has work. */
  lemma TurnSpent(c: Config, s: Tx, d: nat, b: nat, p: nat)
    requires Shape(c, s) && d < c.numTokens && b < AC_MC && Dispatch(c, s, d, b).Some? && p < MAX_PEERS
    ensures var t, t' := s.peers[p].psTokens, Dispatch(c, s, d, b).value.peers[p].psTokens;
            t' == t || (t' == t - 1 && s.pend[Flow(p, b)] != [])
  {
    var k, n, e := DispatchMoves(c, s, d, b);
    DispatchTurn(c, s, d, b);
  }

  /** A turn of the client is one of those that its higher categories may take. */
  lemma TurnTaken(c: Config, s: Tx, d: nat, b: nat, p: nat, ac: nat)
    requires Shape(c, s) && d < c.numTokens && ac < b < AC_MC && Dispatch(c, s, d, b).Some? && p < MAX_PEERS
    requires p in s.wake && Allowance(s, p, ac, b)
    ensures Allowance(Dispatch(c, s, d, b).value, p, ac, b - 1)
  {
    var s' := Dispatch(c, s, d, b).value;
    TurnSpent(c, s, d, b, p);
    forall a | 0 <= a <= b - 1 ensures s'.pend[Flow(p, a)] == s.pend[Flow(p, a)] { OtherQueues(c, s, d, b, p, a); }
    HigherWorkSame(s, s', p, ac, b - 1);
  }

  lemma StaysInQueue(c: Config, s: Tx, d: nat, b: nat, p: nat, ac: nat)
    requires Shape(c, s) && d < c.numTokens && ac < b < AC_MC && Dispatch(c, s, d, b).Some? && p < MAX_PEERS
    requires p in s.wake && Allowance(s, p, ac, b)
    ensures p in Dispatch(c, s, d, b).value.wake
  {
    var k, n, e := DispatchMoves(c, s, d, b);
    DispatchEosp(c, s, d, b);
    TurnTaken(c, s, d, b, p, ac);
  }

  lemma DispatchServable(c: Config, s: Tx, d: nat, b: nat, p: nat, ac: nat, asked: bool)
    requires Shape(c, s) && d < c.numTokens && ac < b < AC_MC && Dispatch(c, s, d, b).Some? && p < MAX_PEERS
    requires Servable(s, p, ac, b, asked)
    ensures Servable(Dispatch(c, s, d, b).value, p, ac, b - 1, asked)
  {
    if asked {
      TurnTaken(c, s, d, b, p, ac);
      StaysInQueue(c, s, d, b, p, ac);
    } else {
      DispatchTurn(c, s, d, b);
    }
  }

  lemma SameServable(s: Tx, s': Tx, p: nat, ac: nat, b: nat, asked: bool)
    requires |s.peers| == MAX_SW_PEERS && |s.pend| == FLOWS && p < MAX_SW_PEERS && ac < b < AC_MAX
    requires s'.peers == s.peers && s'.pend == s.pend && s'.wake == s.wake && Servable(s, p, ac, b, asked)
    ensures Servable(s', p, ac, b, asked) && Servable(s', p, ac, b - 1, asked)
  {
    HigherWorkSame(s, s', p, ac, b);
    HigherWorkSame(s, s', p, ac, b - 1);
  }

  lemma KickServable(c: Config, s: Tx, b: nat, s': Tx, p: nat, ac: nat, asked: bool)
    requires KickedTo(c, s, b, s') && ac < b < AC_MC && p < MAX_PEERS && Servable(s, p, ac, b, asked)
    ensures Servable(s', p, ac, b - 1, asked) && s'.pend[Flow(p, ac)] == s.pend[Flow(p, ac)]
  {
    assert s' == Kick(c, s, b);
    if Grant(c, s, b).Some? {
      var (s1, d) := Grant(c, s, b).value;
      SameServable(s, s1, p, ac, b, asked);
      if Dispatch(c, s1, d, b).Some? {
        var k, n, e := DispatchMoves(c, s1, d, b);
        DispatchServable(c, s1, d, b, p, ac, asked);
      } else {
        SameServable(s, s', p, ac, b, asked);
      }
    } else {
      SameServable(s, s', p, ac, b, asked);
    }
  }

  // ------------------------------------------------------------ one category

  /** Getting a token for `ac` posts one command, for the peer that is chosen. */
  lemma KickPosts(c: Config, s: Tx, ac: nat, s': Tx)
    requires KickedTo(c, s, ac, s') && ac < AC_MC && FindFree(c, s.pool.busy, ac).Some? && !Choose(c, s, ac).Nobody?
    ensures s.log <= s'.log && |s'.log| == |s.log| + 1
    ensures var e, k := s'.log[|s.log|], Flow(PickedPeer(Choose(c, s, ac)), ac);
            e.flow == k && e.frames != [] && s.pend[k] != [] && e.frames[0] == s.pend[k][0]
  {
    assert s' == Kick(c, s, ac);
    var (s1, d) := Grant(c, s, ac).value;
    assert s1 == s.(pool := s1.pool);
    ChooseIgnoresPool(c, s, s1.pool, ac, 0, 0);
    assert Choose(c, s1, ac) == Choose(c, s, ac);
    ChooseIs(c, s1, ac);
    var k, n, e := DispatchMoves(c, s1, d, ac);
  }

  /** Somebody is chosen when there is a client that can be served. */
  lemma ServableChosen(c: Config, s: Tx, p: nat, ac: nat, asked: bool)
    requires Shape(c, s) && ac < AC_MC && p < MAX_PEERS && Servable(s, p, ac, ac, asked) && s.pend[Flow(p, ac)] != []
    ensures !Choose(c, s, ac).Nobody?
  {
    ChooseIs(c, s, ac);
    if asked {
      var i :| 0 <= i < |s.wake| && s.wake[i] == p;
      assert TurnsLeft(s, s.wake[i], ac);
    } else {
      assert AwakeWaiting(s, p, ac);
    }
  }

  /** No other client in the wakeup queue has turns left and frames of `ac` pending. */
  ghost predicate OnlyAsker(s: Tx, p: nat, ac: nat)
    requires |s.peers| == MAX_SW_PEERS && |s.pend| == FLOWS && ac < AC_MAX
  {
    forall x | x in s.wake && x < MAX_SW_PEERS && x != p :: s.peers[x].psTokens == 0 || s.pend[Flow(x, ac)] == []
  }

  lemma OnlyAskerChosen(c: Config, s: Tx, p: nat, ac: nat)
    requires Shape(c, s) && ac < AC_MC && p < MAX_PEERS && Servable(s, p, ac, ac, true) && s.pend[Flow(p, ac)] != []
    requires OnlyAsker(s, p, ac)
    ensures Choose(c, s, ac) == Woken(p)
  {
    ServableChosen(c, s, p, ac, true);
    NoTurnBefore(c, s, ac, p);
    ChooseIs(c, s, ac);
    if Choose(c, s, ac).Woken? {
      var i: nat :| FirstInQueue(s, ac, i) && s.wake[i] == Choose(c, s, ac).peer;
      assert s.wake[i] in s.wake;
    }
  }

  lemma StaysOut(c: Config, s: Tx, d: nat, b: nat, x: nat, ac: nat)
    requires Shape(c, s) && d < c.numTokens && ac < AC_MAX && b < AC_MAX && b != ac && Dispatch(c, s, d, b).Some?
    requires x < MAX_SW_PEERS && (s.peers[x].psTokens == 0 || s.pend[Flow(x, ac)] == [])
    ensures var s' := Dispatch(c, s, d, b).value; s'.peers[x].psTokens == 0 || s'.pend[Flow(x, ac)] == []
  {
    OtherQueues(c, s, d, b, x, ac);
    DispatchTurn(c, s, d, b);
  }

  lemma DispatchOnlyAsker(c: Config, s: Tx, d: nat, b: nat, p: nat, ac: nat)
    requires Shape(c, s) && d < c.numTokens && ac < AC_MAX && b < AC_MAX && b != ac && Dispatch(c, s, d, b).Some?
    requires OnlyAsker(s, p, ac)
    ensures OnlyAsker(Dispatch(c, s, d, b).value, p, ac)
  {
    var s' := Dispatch(c, s, d, b).value;
    DispatchEosp(c, s, d, b);
    forall x | x in s'.wake && x < MAX_SW_PEERS && x != p
      ensures s'.peers[x].psTokens == 0 || s'.pend[Flow(x, ac)] == []
    {
      assert x in s.wake;
      StaysOut(c, s, d, b, x, ac);
    }
  }

  lemma KickOnlyAsker(c: Config, s: Tx, b: nat, s': Tx, p: nat, ac: nat)
    requires KickedTo(c, s, b, s') && ac < AC_MAX && b < AC_MAX && b != ac && OnlyAsker(s, p, ac)
    ensures OnlyAsker(s', p, ac)
  {
    assert s' == Kick(c, s, b);
    if Grant(c, s, b).Some? {
      var (s1, d) := Grant(c, s, b).value;
      assert OnlyAsker(s1, p, ac);
      if Dispatch(c, s1, d, b).Some? { DispatchOnlyAsker(c, s1, d, b, p, ac); }
    }
  }

  // ------------------------------------------------------------ all categories

  /** Client `p` can be served for `ac` when the categories from `b` down to it have had their tokens. */
  ghost predicate Due(c: Config, s: Tx, p: nat, ac: nat, b: nat, asked: bool, first: Frame, only: bool)
    requires p < MAX_PEERS && ac <= b < AC_MC
  {
    && Shape(c, s)
    && s.pend[Flow(p, ac)] != [] && s.pend[Flow(p, ac)][0] == first
    && TokenLeft(c, s.pool.busy, ac, b - ac)
    && Servable(s, p, ac, b, asked)
    && (only ==> OnlyAsker(s, p, ac))
  }

  lemma KickDue(c: Config, s: Tx, b: nat, s': Tx, p: nat, ac: nat, asked: bool, first: Frame, only: bool)
    requires p < MAX_PEERS && ac < b < AC_MC && KickedTo(c, s, b, s') && Due(c, s, p, ac, b, asked, first, only)
    ensures Due(c, s', p, ac, b - 1, asked, first, only)
  {
    KickServable(c, s, b, s', p, ac, asked);
    KickLeaves(c, s, b, s', ac, b - 1 - ac);
    if only { KickOnlyAsker(c, s, b, s', p, ac); }
  }

  /** Entry `i` of the log is a command of `ac`; and, if `only`, it is for `p` and carries its first frame. */
  ghost predicate Answers(s: Tx, i: nat, p: nat, ac: nat, first: Frame, only: bool) {
    && i < |s.log| && AcOf(s.log[i].flow) == ac
    && (only ==> s.log[i].flow == p * AC_MAX + ac && s.log[i].frames != [] && s.log[i].frames[0] == first)
  }

  lemma DueAnswered(c: Config, s: Tx, p: nat, ac: nat, s': Tx, asked: bool, first: Frame, only: bool)
    requires p < MAX_PEERS && ac < AC_MC && KickedTo(c, s, ac, s') && Due(c, s, p, ac, ac, asked, first, only)
    requires only ==> asked
    ensures s.log <= s'.log && Answers(s', |s.log|, p, ac, first, only)
  {
    TokenLeftFinds(c, s.pool.busy, ac, 0);
    ServableChosen(c, s, p, ac, asked);
    if only { OnlyAskerChosen(c, s, p, ac); }
    KickPosts(c, s, ac, s');
  }

  lemma KicksDue(c: Config, w: seq<Tx>, p: nat, ac: nat, asked: bool, first: Frame, only: bool)
    requires Kicks(c, w, AC_VO) && p < MAX_PEERS && ac < AC_MC && Due(c, w[0], p, ac, AC_VO, asked, first, only)
    ensures Due(c, w[AC_VO - ac], p, ac, ac, asked, first, only)
  {
    for i := 0 to AC_VO - ac
      invariant Due(c, w[i], p, ac, AC_VO - i, asked, first, only)
    {
      KickDue(c, w[i], AC_VO - i, w[i + 1], p, ac, asked, first, only);
    }
  }

  lemma KicksLog(c: Config, w: seq<Tx>, i: nat, j: nat)
    requires Kicks(c, w, AC_VO) && i <= j <= AC_VO + 1
    ensures w[i].log <= w[j].log
  {
    for h := i to j
      invariant w[i].log <= w[h].log
    {
      KickedLog(c, w[h], AC_VO - h, w[h + 1]);
    }
  }

  lemma KickedLog(c: Config, s: Tx, ac: nat, s': Tx)
    requires KickedTo(c, s, ac, s')
    ensures s.log <= s'.log
  {
    KickGrows(c, s, ac);
  }

  lemma KicksAnswer(c: Config, w: seq<Tx>, p: nat, ac: nat, asked: bool, first: Frame, only: bool) returns (i: nat)
    requires Kicks(c, w, AC_VO) && p < MAX_PEERS && ac < AC_MC && Due(c, w[0], p, ac, AC_VO, asked, first, only)
    requires only ==> asked
    ensures w[0].log <= w[AC_VO + 1].log && |w[0].log| <= i && Answers(w[AC_VO + 1], i, p, ac, first, only)
  {
    var n := AC_VO - ac;
    KicksDue(c, w, p, ac, asked, first, only);
    DueAnswered(c, w[n], p, ac, w[n + 1], asked, first, only);
    KicksLog(c, w, 0, n);
    KicksLog(c, w, n + 1, AC_VO + 1);
    i := |w[n].log|;
    assert w[AC_VO + 1].log[i] == w[n + 1].log[i];
  }

  /** The loop of both power-save handlers answers a client that is due. */
  lemma KickDownAnswers(c: Config, s: Tx, p: nat, ac: nat, asked: bool, first: Frame, only: bool) returns (i: nat)
    requires p < MAX_PEERS && ac < AC_MC && Due(c, s, p, ac, AC_VO, asked, first, only) && (only ==> asked)
    ensures s.log <= KickDown(c, s, AC_VO).log && |s.log| <= i && Answers(KickDown(c, s, AC_VO), i, p, ac, first, only)
  {
    var w := KickDownStates(c, s, AC_VO);
    i := KicksAnswer(c, w, p, ac, asked, first, only);
    assert w[AC_VO + 1] == KickDown(c, s, AC_VO);
  }

  /**
   A request for frames is answered: when frames of category `ac` wait for the client, a token is left
   for that category and the number asked for covers it, a command of that category is posted at once.
   It is for this client and begins with its first frame when no other client in the wakeup queue
   has turns left and frames there.  For the highest category any free token and any number but zero
   is enough.
   */
  lemma RequestAnswered(c: Config, s: Tx, p: nat, num: int, ac: nat) returns (i: nat)
    requires Shape(c, s) && p < MAX_PEERS && ac < AC_MC && s.pend[Flow(p, ac)] != []
    requires num < 0 || HigherWork(s, p, ac, AC_VO) < num
    requires TokenLeft(c, s.pool.busy, ac, AC_VO - ac)
    ensures var s' := PsRequest(c, s, p, num);
            && s.log <= s'.log && |s.log| <= i
            && Answers(s', i, p, ac, s.pend[Flow(p, ac)][0], OnlyAsker(s, p, ac))
  {
    var s1 := Request(c, s, p, num);
    HigherWorkSame(s, s1, p, ac, AC_VO);
    i := KickDownAnswers(c, s1, p, ac, true, s.pend[Flow(p, ac)][0], OnlyAsker(s, p, ac));
  }

  /** So is a client that wakes, in every category for which frames wait and a token is left. */
  lemma WakingAnswered(c: Config, s: Tx, p: nat, ac: nat) returns (i: nat)
    requires Shape(c, s) && p < MAX_PEERS && ac < AC_MC && s.pend[Flow(p, ac)] != []
    requires TokenLeft(c, s.pool.busy, ac, AC_VO - ac)
    ensures var s' := PmMode(c, s, p, false);
            && s.log <= s'.log && |s.log| <= i
            && Answers(s', i, p, ac, s.pend[Flow(p, ac)][0], false)
  {
    i := KickDownAnswers(c, SetPs(c, s, p, false), p, ac, false, s.pend[Flow(p, ac)][0], false);
  }

  /** A client that wakes with turns left of an earlier request is served before the round, unless another one has asked too. */
  lemma WakingServedFirst(c: Config, s: Tx, p: nat, ac: nat) returns (i: nat)
    requires Shape(c, s) && p < MAX_PEERS && ac < AC_MC && s.pend[Flow(p, ac)] != []
    requires Allowance(s, p, ac, AC_VO) && OnlyAsker(s, p, ac)
    requires TokenLeft(c, s.pool.busy, ac, AC_VO - ac)
    ensures var s' := PmMode(c, s, p, false);
            && s.log <= s'.log && |s.log| <= i
            && Answers(s', i, p, ac, s.pend[Flow(p, ac)][0], true)
  {
    var s1 := SetPs(c, s, p, false);
    HigherWorkSame(s, s1, p, ac, AC_VO);
    i := KickDownAnswers(c, s1, p, ac, true, s.pend[Flow(p, ac)][0], true);
  }

  /** For the highest category "a token is left" means that there is one at all. */
  lemma TokenLeftForVoice(c: Config, busy: set<nat>)
    requires c.Valid()
    ensures TokenLeft(c, busy, AC_VO, 0) <==> FindFree(c, busy, AC_VO).Some?
  {
    FindFreeIs(c, busy, AC_VO);
    if FindFree(c, busy, AC_VO).Some? && ReservedBusy(c, busy, AC_VO) {
      assert FindFree(c, busy, AC_VO).value in FreeSpares(c, busy);
    }
    if TokenLeft(c, busy, AC_VO, 0) { TokenLeftFinds(c, busy, AC_VO, 0); }
  }

  // ------------------------------------------------------------------ arrivals

  /**
   The status of an arrival.  Refused: its queue was full, and nothing changes.  Queued: it joined its
   queue and nothing was posted, because its peer sleeps, or frames like it are on their way, or no
   token is free.  Accepted: one command was posted, of its category.
   */
  lemma StatusMeans(c: Config, s: Tx, k: nat, f: Frame)
    requires Inv(c, s, None) && Enabled(c, s, EvXmit(k, f))
    ensures var (s', status) := Xmit(c, s, k, f);
            var s1 := Enqueue(c, s, k, f);
            && (status == Fail <==> |s.pend[k]| >= c.pendLimit)
            && (status == Fail ==> s' == s)
            && (status == Queued ==> s' == s1 && s'.log == s.log)
            && (status == Queued <==>
                  (|s.pend[k]| < c.pendLimit && (LeftQueued(c, s1, k, f) || FindFree(c, s.pool.busy, AcOf(k)) == None)))
            && (status == Success ==> |s'.log| == |s.log| + 1 && AcOf(s'.log[|s.log|].flow) == AcOf(k))
  {
    if |s.pend[k]| < c.pendLimit {
      EnqueueInv(c, s, k, f);
      if !LeftQueued(c, Enqueue(c, s, k, f), k, f) { ArrivalPosts(c, Enqueue(c, s, k, f), k); }
    }
  }

  lemma ArrivalTakes(c: Config, s: Tx, k: nat)
    requires Inv(c, s, None) && k < FLOWS && s.pend[k] != [] && !s.peers[PeerOf(k)].ps && Grant(c, s, AcOf(k)).Some?
    ensures var (s1, d) := Grant(c, s, AcOf(k)).value; Dispatch(c, s1, d, AcOf(k)).Some? && s1.log == s.log
  {
    var ac := AcOf(k);
    var (s1, d) := Grant(c, s, ac).value;
    assert Eligible(s1, PeerOf(k), ac) && Wanted(c, s1, ac);
    forall j | 0 <= j < FLOWS ensures PendingOk(c, s1, j) { assert PendingOk(c, s, j); }
    if TakeBatch(c, s1, d, ac) == None { NothingToTake(c, s1, d, ac); }
  }

  lemma ArrivalPosts(c: Config, s: Tx, k: nat)
    requires Inv(c, s, None) && k < FLOWS && s.pend[k] != [] && !s.peers[PeerOf(k)].ps
    ensures Grant(c, s, AcOf(k)) == None ==> Kick(c, s, AcOf(k)) == s
    ensures Grant(c, s, AcOf(k)).Some? ==>
              var s' := Kick(c, s, AcOf(k));
              |s'.log| == |s.log| + 1 && AcOf(s'.log[|s.log|].flow) == AcOf(k)
  {
    if Grant(c, s, AcOf(k)).Some? {
      ArrivalTakes(c, s, k);
      var (s1, d) := Grant(c, s, AcOf(k)).value;
      var j, n, e := DispatchMoves(c, s1, d, AcOf(k));
    }
  }
}
