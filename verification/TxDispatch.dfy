/** A batch leaves on a token: the step that touches everything. */
module TxDispatch {
  import opened Basics
  import opened TxConfig
  import opened Bounce
  import opened PoolModel
  import opened CmdRing
  import opened TxModel
  import opened Aggregation
  import opened TxInvariant

  /** `s'` is `s` after `n` frames of flow `k` have left on token `d` with command `e.cmd`. */
  ghost predicate Moved(c: Config, s: Tx, d: nat, k: nat, n: nat, e: Entry, s': Tx)
    requires Shape(c, s)
  {
    && Shape(c, s') && d < c.numTokens && k < FLOWS && 1 <= n <= |s.pend[k]|
    && s'.pend == s.pend[k := s.pend[k][n..]]
    && s'.tok == s.tok[d := s.pend[k][..n]]
    && s'.tokFlow == s.tokFlow[d := k]
    && s'.pool == s.pool && s'.mcSpare == s.mcSpare
    && s'.ram == WriteBatch(c, s.ram, d, s.pend[k][..n], n)
    && s'.ring == Post(c, s.ring, e.cmd)
    && s'.total == s.total + n && s'.done == s.done
    && s'.log == s.log + [e] && s'.taken == s.taken
    && s'.accepted == s.accepted && s'.freed == s.freed
    && e.flow == k && e.frames == s.pend[k][..n] && e.cmd.desc == d
  }

  lemma DispatchMoves(c: Config, s: Tx, d: nat, ac: nat) returns (k: nat, n: nat, e: Entry)
    requires Shape(c, s) && d < c.numTokens && ac < AC_MAX && Dispatch(c, s, d, ac).Some?
    ensures Moved(c, s, d, k, n, e, Dispatch(c, s, d, ac).value)
    ensures !Choose(c, s, ac).Nobody? && k == Flow(PickedPeer(Choose(c, s, ac)), ac)
    ensures n == BatchLen(c, s.peers[PeerOf(k)].legacy, s.pend[k])
    ensures e.turn == Choose(c, s, ac).Turn?
    ensures e.cmd.dest == Dest(s.pend[k][0]) && e.cmd.src == Src(s.pend[k][0])
    ensures e.cmd.bufs == BufRefs(c, d, s.pend[k][..n]) && e.cmd.emergency == Emergency(s.pend[k][0])
  {
    var pick := Choose(c, s, ac);
    k := Flow(PickedPeer(pick), ac);
    n := BatchLen(c, s.peers[PeerOf(k)].legacy, s.pend[k]);
    var s1 := TakeBatch(c, s, d, ac).value;
    e := Entry(Command(c, s1, d), k, s.pend[k][..n], pick.Turn?);
  }

  lemma DispatchBmp(c: Config, s: Tx, d: nat, ac: nat, j: nat)
    requires Shape(c, s) && d < c.numTokens && ac < AC_MAX && Dispatch(c, s, d, ac).Some? && j < FLOWS
    requires BmpOk(c, s, j)
    ensures BmpOk(c, Dispatch(c, s, d, ac).value, j)
  {
    var k, n, e := DispatchMoves(c, s, d, ac);
    var s1 := Charge(c, s, ac, Choose(c, s, ac));
    assert BmpOk(c, s1, j);
    BmpUpdated(c, s1, s.pend[k := s.pend[k][n..]], k, j);
  }

  lemma MovedFits(c: Config, s: Tx, d: nat, ac: nat)
    requires Shape(c, s) && d < c.numTokens && ac < AC_MAX && Dispatch(c, s, d, ac).Some? && Pending(c, s)
    ensures Fits(c, Dispatch(c, s, d, ac).value.tok[d])
    ensures var log := Dispatch(c, s, d, ac).value.log; EntryOk(c, log[|log| - 1])
  {
    var k, n, e := DispatchMoves(c, s, d, ac);
    assert PendingOk(c, s, k);
    var legacy := s.peers[PeerOf(k)].legacy;
    BatchFits(c, legacy, s.pend[k]);
    forall f | f in e.frames ensures SameAddrs(f, s.pend[k][0]) {
      BatchAddrs(c, legacy, s.pend[k], f);
    }
  }

  lemma MovedTokens(c: Config, s: Tx, d: nat, k: nat, n: nat, e: Entry, s': Tx)
    requires Shape(c, s) && Moved(c, s, d, k, n, e, s') && Tokens(c, s, Some(d)) && Fits(c, s'.tok[d])
    ensures Tokens(c, s', None)
  {
    forall j | 0 <= j < c.numTokens ensures TokenOk(c, s', None, j) {
      assert TokenOk(c, s, Some(d), j);
    }
  }

  lemma MovedPending(c: Config, s: Tx, d: nat, k: nat, n: nat, e: Entry, s': Tx)
    requires Shape(c, s) && Moved(c, s, d, k, n, e, s') && Pending(c, s)
    ensures Pending(c, s')
  {
    forall j | 0 <= j < FLOWS ensures PendingOk(c, s', j) {
      assert PendingOk(c, s, j);
    }
  }

  lemma MovedMemory(c: Config, s: Tx, d: nat, k: nat, n: nat, e: Entry, s': Tx)
    requires Shape(c, s) && Moved(c, s, d, k, n, e, s') && Tokens(c, s, Some(d)) && Fits(c, s'.tok[d]) && Memory(c, s)
    ensures Memory(c, s')
  {
    forall j | 0 <= j < c.numTokens ensures Intact(c, s'.ram, j, s'.tok[j]) {
      if j == d {
        WriteBatchIntact(c, s.ram, d, s'.tok[d]);
      } else {
        assert TokenOk(c, s, Some(d), j);
        assert Intact(c, s.ram, j, s.tok[j]);
        OtherIntact(c, s.ram, d, s'.tok[d], j, s.tok[j]);
      }
    }
  }

  lemma MovedConserved(c: Config, s: Tx, d: nat, k: nat, n: nat, e: Entry, s': Tx)
    requires Shape(c, s) && Moved(c, s, d, k, n, e, s') && s.tok[d] == []
    requires Conserved(c, s) && Counted(s)
    ensures Conserved(c, s') && Counted(s')
  {
    var batch := multiset(s.pend[k][..n]);
    GatherDrop(s.pend, k, n);
    GatherFill(s.tok, d, s.pend[k][..n]);
    LoadUpdate(s.tok, d, s.pend[k][..n]);
    var p, t, f := Gather(s'.pend), Gather(s.tok), multiset(s.freed);
    assert p + batch + t + f == p + (t + batch) + f;
  }

  lemma MovedInOrder(c: Config, s: Tx, d: nat, k: nat, n: nat, e: Entry, s': Tx)
    requires Shape(c, s) && Moved(c, s, d, k, n, e, s') && InOrder(c, s)
    ensures InOrder(c, s')
  {
    forall j | 0 <= j < FLOWS ensures FlowInOrder(c, s', j) {
      assert FlowInOrder(c, s, j);
      SentOnAppend(s.log, e, j);
      if j == k {
        DepartureInOrder(SentOn(s.log, k), s.pend[k], n);
      }
    }
  }

  lemma {:induction false} DepartureInOrder(sent: seq<Frame>, pend: seq<Frame>, n: nat)
    requires n <= |pend|
    ensures Ordinary(sent + pend[..n]) + Ordinary(pend[n..]) == Ordinary(sent) + Ordinary(pend)
  {
    OrdinaryConcat(sent, pend[..n]);
    OrdinaryConcat(pend[..n], pend[n..]);
    assert pend[..n] + pend[n..] == pend;
  }

  // ------------------------------------------------------------- command ring

  function Descs(log: seq<Entry>): seq<nat> {
    seq(|log|, i requires 0 <= i < |log| => log[i].cmd.desc)
  }

  lemma {:induction false} DistinctCard(q: seq<nat>, bound: set<nat>)
    requires forall i | 0 <= i < |q| :: q[i] in bound
    requires forall i, j | 0 <= i < j < |q| :: q[i] != q[j]
    ensures |q| <= |bound|
  {
    if q != [] {
      var last := q[|q| - 1];
      DistinctCard(q[..|q| - 1], bound - {last});
    }
  }

  /** The commands not yet read belong to different tokens in use, so there are fewer than tokens. */
  lemma UnreadBound(c: Config, s: Tx, d: nat)
    requires Shape(c, s) && d < c.numTokens && Unread(c, s, Some(d)) && d in s.pool.busy
    ensures |s.log| < s.taken + c.ringSize
  {
    var q := Descs(s.log[s.taken..]);
    forall i | 0 <= i < |q| ensures q[i] in s.pool.busy - {d} {
      assert UnreadOk(c, s, Some(d), s.taken + i);
    }
    DistinctCard(q, s.pool.busy - {d});
    BoundedCard(s.pool.busy, c.numTokens);
  }

  lemma UnreadElsewhere(c: Config, s: Tx, d: nat, i: nat)
    requires Shape(c, s) && Unread(c, s, Some(d)) && s.taken <= i < |s.log|
    ensures s.log[i].cmd.desc != d
  {
    assert UnreadOk(c, s, Some(d), i);
  }

  lemma MovedInStep(c: Config, s: Tx, d: nat, e: Entry)
    requires Shape(c, s) && d < c.numTokens && Unread(c, s, Some(d)) && d in s.pool.busy && e.cmd.desc == d
    ensures InStep(c, Post(c, s.ring, e.cmd), Cmds(s.log + [e]), s.taken)
  {
    UnreadBound(c, s, d);
    CmdsAppend(s.log, e);
    forall i | s.taken <= i < |s.log| ensures Cmds(s.log)[i].desc != d {
      UnreadElsewhere(c, s, d, i);
    }
    PostInStep(c, s.ring, Cmds(s.log), s.taken, e.cmd);
  }

  lemma MovedUnread(c: Config, s: Tx, d: nat, k: nat, n: nat, e: Entry, s': Tx)
    requires Shape(c, s) && Moved(c, s, d, k, n, e, s') && Unread(c, s, Some(d)) && d in s.pool.busy
    ensures Unread(c, s', None)
  {
    MovedInStep(c, s, d, e);
    forall i | s'.taken <= i < |s'.log| ensures UnreadOk(c, s', None, i) {
      if i < |s.log| { assert UnreadOk(c, s, Some(d), i); }
    }
    forall i, j | s'.taken <= i < j < |s'.log| ensures s'.log[i].cmd.desc != s'.log[j].cmd.desc {
      UnreadElsewhere(c, s, d, i);
    }
  }

  lemma MovedLogged(c: Config, s: Tx, d: nat, k: nat, n: nat, e: Entry, s': Tx)
    requires Shape(c, s) && Moved(c, s, d, k, n, e, s') && Logged(c, s) && EntryOk(c, e)
    ensures Logged(c, s')
  {
  }

  lemma MovedAccounts(c: Config, s: Tx, d: nat, k: nat, n: nat, e: Entry, s': Tx)
    requires Shape(c, s) && Moved(c, s, d, k, n, e, s') && Accounts(c, s, Some(d))
    requires !s.mcSpare ==> Owner(c, s.pool, d) == AcOf(k)
    ensures Accounts(c, s', None)
  {
    forall j | !s.mcSpare && 0 <= j < c.numTokens ensures OwnerOk(c, s', None, j) {
      assert OwnerOk(c, s, Some(d), j);
    }
  }

  lemma DispatchInv(c: Config, s: Tx, d: nat, ac: nat)
    requires Inv(c, s, Some(d)) && d < c.numTokens && ac < AC_MAX && Dispatch(c, s, d, ac).Some?
    requires !s.mcSpare ==> Owner(c, s.pool, d) == ac
    ensures Inv(c, Dispatch(c, s, d, ac).value, None)
  {
    var s' := Dispatch(c, s, d, ac).value;
    var k, n, e := DispatchMoves(c, s, d, ac);
    assert TokenOk(c, s, Some(d), d);
    MovedFits(c, s, d, ac);
    MovedTokens(c, s, d, k, n, e, s');
    MovedPending(c, s, d, k, n, e, s');
    MovedMemory(c, s, d, k, n, e, s');
    MovedConserved(c, s, d, k, n, e, s');
    MovedInOrder(c, s, d, k, n, e, s');
    MovedUnread(c, s, d, k, n, e, s');
    MovedLogged(c, s, d, k, n, e, s');
    forall j | 0 <= j < FLOWS ensures BmpOk(c, s', j) {
      assert BmpOk(c, s, j);
      DispatchBmp(c, s, d, ac, j);
    }
    MovedAccounts(c, s, d, k, n, e, s');
  }
}
