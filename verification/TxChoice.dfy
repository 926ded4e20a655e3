/** Which peer a token goes to, where a frame joins its queue, and which frames wait: in terms of the fields of the driver. */
module TxChoice {
  import opened Basics
  import opened TxConfig
  import opened TxModel
  import opened TxDispatch

  // ---------------------------------------------------------------- the peer

  /** Peer `p` has turns left of a request, and frames pending. */
  predicate TurnsLeft(s: Tx, p: nat, ac: nat)
    requires |s.peers| == MAX_SW_PEERS && |s.pend| == FLOWS && p < MAX_SW_PEERS && ac < AC_MAX
  {
    s.peers[p].psTokens != 0 && s.pend[p * AC_MAX + ac] != []
  }

  /** Entry `i` of the wakeup queue is the first with turns left and frames pending. */
  ghost predicate FirstInQueue(s: Tx, ac: nat, i: nat)
    requires |s.peers| == MAX_SW_PEERS && |s.pend| == FLOWS && ac < AC_MAX
    requires forall h | 0 <= h < |s.wake| :: s.wake[h] < MAX_PEERS
  {
    i < |s.wake| && TurnsLeft(s, s.wake[i], ac) && forall h | 0 <= h < i :: !TurnsLeft(s, s.wake[h], ac)
  }

  /** Peer `p` is awake and has frames pending. */
  predicate AwakeWaiting(s: Tx, p: nat, ac: nat)
    requires |s.peers| == MAX_SW_PEERS && |s.pend| == FLOWS && p < MAX_SW_PEERS && ac < AC_MAX
  {
    !s.peers[p].ps && s.pend[p * AC_MAX + ac] != []
  }

  /** Of the peers counted round from the one whose opportunity it is, number `j` is the first that is awake and waits. */
  ghost predicate FirstInRound(s: Tx, ac: nat, j: nat)
    requires |s.peers| == MAX_SW_PEERS && |s.pend| == FLOWS && |s.opp| == AC_MAX && ac < AC_MAX
  {
    && j < MAX_PEERS
    && AwakeWaiting(s, (s.opp[ac] + j) % MAX_PEERS, ac)
    && forall h | 0 <= h < j :: !AwakeWaiting(s, Cyclic(s.opp[ac], h), ac)
  }

  lemma {:induction false} FirstWokenIs(c: Config, s: Tx, ac: nat, i: nat)
    requires Shape(c, s) && ac < AC_MAX && i <= |s.wake|
    requires forall h | 0 <= h < i :: !TurnsLeft(s, s.wake[h], ac)
    ensures match FirstWoken(c, s, ac, i)
      case Some(p) => exists j: nat :: FirstInQueue(s, ac, j) && s.wake[j] == p
      case None => forall j | 0 <= j < |s.wake| :: !TurnsLeft(s, s.wake[j], ac)
    decreases |s.wake| - i
  {
    if i < |s.wake| {
      if TurnsLeft(s, s.wake[i], ac) {
        assert FirstInQueue(s, ac, i);
      } else {
        FirstWokenIs(c, s, ac, i + 1);
      }
    }
  }

  lemma {:induction false} FirstTurnIsFirst(c: Config, s: Tx, ac: nat, i: nat)
    requires Shape(c, s) && ac < AC_MAX && i <= MAX_PEERS
    requires forall h | 0 <= h < i :: !AwakeWaiting(s, Cyclic(s.opp[ac], h), ac)
    ensures match FirstTurn(c, s, ac, i)
      case Some(p) => exists j: nat :: FirstInRound(s, ac, j) && Cyclic(s.opp[ac], j) == p
      case None => forall j | 0 <= j < MAX_PEERS :: !AwakeWaiting(s, Cyclic(s.opp[ac], j), ac)
    decreases MAX_PEERS - i
  {
    if i < MAX_PEERS {
      if AwakeWaiting(s, Cyclic(s.opp[ac], i), ac) {
        assert FirstInRound(s, ac, i);
      } else {
        FirstTurnIsFirst(c, s, ac, i + 1);
      }
    }
  }

  /** Nobody in the wakeup queue has turns left and frames pending. */
  ghost predicate NobodyWoken(s: Tx, ac: nat)
    requires |s.peers| == MAX_SW_PEERS && |s.pend| == FLOWS && ac < AC_MAX
    requires forall h | 0 <= h < |s.wake| :: s.wake[h] < MAX_PEERS
  {
    forall j | 0 <= j < |s.wake| :: !TurnsLeft(s, s.wake[j], ac)
  }

  /** Nobody is awake with frames pending. */
  ghost predicate NobodyAwake(s: Tx, ac: nat)
    requires |s.peers| == MAX_SW_PEERS && |s.pend| == FLOWS && |s.opp| == AC_MAX && ac < AC_MAX
  {
    forall p | 0 <= p < MAX_PEERS :: !AwakeWaiting(s, p, ac)
  }

  lemma RoundCovers(s: Tx, ac: nat)
    requires |s.peers| == MAX_SW_PEERS && |s.pend| == FLOWS && |s.opp| == AC_MAX && ac < AC_MAX && s.opp[ac] < MAX_PEERS
    requires forall j | 0 <= j < MAX_PEERS :: !AwakeWaiting(s, Cyclic(s.opp[ac], j), ac)
    ensures NobodyAwake(s, ac)
  {
    forall p | 0 <= p < MAX_PEERS ensures !AwakeWaiting(s, p, ac) {
      var j := (p + MAX_PEERS - s.opp[ac]) % MAX_PEERS;
      assert Cyclic(s.opp[ac], j) == p;
    }
  }

  /**
   The choice of tx_curr_peer_opp_get: for multicast the multicast peer; else the first entry of the
   wakeup queue with turns left and frames pending; failing that the first peer in the round that is
   awake and has frames; and nobody only when there is neither.
   */
  lemma ChooseIs(c: Config, s: Tx, ac: nat)
    requires Shape(c, s) && ac < AC_MAX
    ensures Choose(c, s, ac) == Group <==> ac == AC_MC
    ensures Choose(c, s, ac).Woken? ==> exists i: nat :: FirstInQueue(s, ac, i) && s.wake[i] == Choose(c, s, ac).peer
    ensures Choose(c, s, ac).Turn? ==>
              && NobodyWoken(s, ac)
              && exists j: nat :: FirstInRound(s, ac, j) && (s.opp[ac] + j) % MAX_PEERS == Choose(c, s, ac).peer
    ensures Choose(c, s, ac) == Nobody <==> ac < AC_MC && NobodyWoken(s, ac) && NobodyAwake(s, ac)
  {
    FirstWokenIs(c, s, ac, 0);
    FirstTurnIsFirst(c, s, ac, 0);
    if FirstTurn(c, s, ac, 0) == None {
      RoundCovers(s, ac);
    } else {
      var j: nat :| FirstInRound(s, ac, j) && Cyclic(s.opp[ac], j) == FirstTurn(c, s, ac, 0).value;
    }
  }

  lemma NextPeer(p: nat)
    requires p < MAX_PEERS
    ensures (p + 1) % MAX_PEERS == if p == 4 then 0 else p + 1
  {
  }

  /** What the choice costs: a client of the wakeup queue one of its turns, the round its place, and multicast nothing. */
  lemma ChargeIs(c: Config, s: Tx, ac: nat, k: Pick, q: nat)
    requires Shape(c, s) && ac < AC_MAX && (k.Woken? || k.Turn? ==> k.peer < MAX_PEERS) && q < MAX_SW_PEERS
    ensures var s' := Charge(c, s, ac, k);
            && s'.peers[q].psTokens == s.peers[q].psTokens - (if k == Woken(q) then 1 else 0)
            && s'.opp == (if k.Turn? then s.opp[ac := if k.peer == 4 then 0 else k.peer + 1] else s.opp)
  {
    if k.Turn? { NextPeer(k.peer); }
  }

  // --------------------------------------------------------------- the queue

  /** A frame joins the back of its queue, an emergency frame (priority 0xFF) the front; other queues stay. */
  lemma EnqueueEnd(c: Config, s: Tx, k: nat, f: Frame, j: nat)
    requires Shape(c, s) && k < FLOWS && j < FLOWS
    ensures Enqueue(c, s, k, f).pend[j] ==
              if j != k then s.pend[j] else if f.priority == 0xFF then [f] + s.pend[k] else s.pend[k] + [f]
  {
  }

  /** So the next batch of that queue begins with an emergency frame, and otherwise with the frame that waited longest. */
  lemma NextBatchBegins(c: Config, s: Tx, k: nat, f: Frame, d: nat, ac: nat) returns (e: Entry)
    requires Shape(c, s) && k < FLOWS && d < c.numTokens && ac < AC_MAX && Dispatch(c, Enqueue(c, s, k, f), d, ac).Some?
    ensures Dispatch(c, Enqueue(c, s, k, f), d, ac).value.log == s.log + [e] && e.frames != []
    ensures e.flow == k ==> e.frames[0] == if f.priority == 0xFF || s.pend[k] == [] then f else s.pend[k][0]
    ensures e.cmd.emergency <==> e.frames[0].priority == 0xFF
  {
    var s1 := Enqueue(c, s, k, f);
    EnqueueEnd(c, s, k, f, k);
    var j, n, e' := DispatchMoves(c, s1, d, ac);
    e := e';
  }

  /**
   A frame stays in its queue for now when its peer sleeps, or when as many tokens as are reserved for
   its category are out, it has the addresses of the frame at the head, and the queue is shorter than
   a batch may be.
   */
  lemma LeftQueuedIff(c: Config, s: Tx, k: nat, f: Frame)
    requires Shape(c, s) && k < FLOWS
    ensures var q := if f.priority == 0xFF then [f] + s.pend[k] else s.pend[k] + [f];
            LeftQueued(c, Enqueue(c, s, k, f), k, f) <==>
              || s.peers[k / AC_MAX].ps
              || (&& s.pool.out[k % AC_MAX] >= c.numTokens / AC_MAX
                  && f.data[0..12] == q[0].data[0..12]
                  && |q| < c.maxAgg)
  {
    EnqueueEnd(c, s, k, f, k);
    AddrBytes(f, Enqueue(c, s, k, f).pend[k][0]);
  }

  // ------------------------------------------------------------- wakeup queue

  /** Taking a client off the wakeup queue takes all of its entries, and leaves the others in order. */
  lemma {:induction false} WithoutIs(a: seq<nat>, b: seq<nat>, x: nat, y: nat)
    ensures Without(a + b, x) == Without(a, x) + Without(b, x)
    ensures Without([y], x) == if y == x then [] else [y]
    decreases |a|
  {
    if a == [] {
      assert a + b == b && [] + Without(b, x) == Without(b, x);
    } else {
      assert (a + b)[1..] == a[1..] + b;
      WithoutIs(a[1..], b, x, y);
      assert [a[0]] + (Without(a[1..], x) + Without(b, x)) == [a[0]] + Without(a[1..], x) + Without(b, x);
    }
    assert [y][1..] == [];
  }

  // ---------------------------------------------------------- the order of requests

  lemma FirstInQueueChosen(c: Config, s: Tx, ac: nat, i: nat)
    requires Shape(c, s) && ac < AC_MC && FirstInQueue(s, ac, i)
    ensures Choose(c, s, ac) == Woken(s.wake[i])
  {
    ChooseIs(c, s, ac);
    assert !NobodyWoken(s, ac) by { assert TurnsLeft(s, s.wake[i], ac); }
    var j: nat :| FirstInQueue(s, ac, j) && s.wake[j] == Choose(c, s, ac).peer;
    OneFirst(s, ac, i, j);
  }

  lemma OneFirst(s: Tx, ac: nat, i: nat, j: nat)
    requires |s.peers| == MAX_SW_PEERS && |s.pend| == FLOWS && ac < AC_MAX
    requires forall h | 0 <= h < |s.wake| :: s.wake[h] < MAX_PEERS
    requires FirstInQueue(s, ac, i) && FirstInQueue(s, ac, j)
    ensures i == j
  {
  }

  /** A request, or a client that wakes, does not overtake the clients that have asked before. */
  lemma EarlierFirst(c: Config, s: Tx, p: nat, num: int, ac: nat, i: nat)
    requires Shape(c, s) && p < MAX_PEERS && ac < AC_MC && FirstInQueue(s, ac, i)
    requires forall h | 0 <= h <= i :: s.wake[h] != p
    ensures Choose(c, Request(c, s, p, num), ac) == Woken(s.wake[i])
    ensures Choose(c, SetPs(c, s, p, false), ac) == Woken(s.wake[i])
  {
    StillFirst(c, s, Request(c, s, p, num), p, ac, i);
    StillFirst(c, s, SetPs(c, s, p, false), p, ac, i);
    FirstInQueueChosen(c, Request(c, s, p, num), ac, i);
    FirstInQueueChosen(c, SetPs(c, s, p, false), ac, i);
  }

  lemma StillFirst(c: Config, s: Tx, s': Tx, p: nat, ac: nat, i: nat)
    requires Shape(c, s) && Shape(c, s') && ac < AC_MAX && FirstInQueue(s, ac, i) && s.wake <= s'.wake && s'.pend == s.pend
    requires forall h | 0 <= h <= i :: s.wake[h] != p
    requires forall q | 0 <= q < MAX_SW_PEERS && q != p :: s'.peers[q].psTokens == s.peers[q].psTokens
    ensures FirstInQueue(s', ac, i)
  {
    forall h | 0 <= h <= i ensures s'.wake[h] == s.wake[h] && TurnsLeft(s', s'.wake[h], ac) == TurnsLeft(s, s.wake[h], ac) {
    }
  }
}
