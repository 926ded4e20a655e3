/**
 What every step of the transmit engine keeps.  Inside a step one token may be in use without
 holding frames: it has just been granted, or its frames have just been completed.  That token is
 the `hole` of the invariant; between steps there is none.
 */
module TxInvariant {
  import opened Basics
  import opened TxConfig
  import opened Bounce
  import opened PoolModel
  import opened CmdRing
  import opened TxModel
  import Bits

  // --------------------------------------------------------------- the clauses

  /** A token is in use exactly when it holds frames, and they fit in its region. */
  ghost predicate TokenOk(c: Config, s: Tx, hole: Option<nat>, d: nat)
    requires Shape(c, s) && d < c.numTokens
  {
    && (d in s.pool.busy <==> s.tok[d] != [] || hole == Some(d))
    && (hole == Some(d) ==> s.tok[d] == [])
    && Fits(c, s.tok[d])
  }

  ghost predicate Tokens(c: Config, s: Tx, hole: Option<nat>)
    requires Shape(c, s)
  {
    forall d | 0 <= d < c.numTokens :: TokenOk(c, s, hole, d)
  }

  /** Only multicast frames wait for the multicast pseudo peer, and every frame that waits can be mapped. */
  ghost predicate PendingOk(c: Config, s: Tx, k: nat)
    requires Shape(c, s) && k < FLOWS
  {
    && (forall f | f in s.pend[k] :: c.Mappable(f))
    && (s.pend[k] != [] ==> (AcOf(k) == AC_MC <==> PeerOf(k) == MAX_PEERS))
  }

  ghost predicate Pending(c: Config, s: Tx)
    requires Shape(c, s)
  {
    forall k | 0 <= k < FLOWS :: PendingOk(c, s, k)
  }

  /** The RPU finds the frames of every token in use at their places in data RAM. */
  ghost predicate Memory(c: Config, s: Tx)
    requires Shape(c, s)
  {
    forall d | 0 <= d < c.numTokens :: Intact(c, s.ram, d, s.tok[d])
  }

  function AcceptedFrames(a: seq<Accept>): seq<Frame> {
    seq(|a|, i requires 0 <= i < |a| => a[i].frame)
  }

  /** Every accepted frame is in exactly one place: a pending queue, a token, or freed. */
  ghost predicate Conserved(c: Config, s: Tx) {
    multiset(AcceptedFrames(s.accepted)) == Gather(s.pend) + Gather(s.tok) + multiset(s.freed)
  }

  ghost predicate Counted(s: Tx) { s.total == s.done + Load(s.tok) }

  function SentOn(log: seq<Entry>, k: nat): seq<Frame> {
    if log == [] then []
    else
      var last := log[|log| - 1];
      var before := SentOn(log[..|log| - 1], k);
      if last.flow == k then before + last.frames else before
  }

  function AcceptedOn(a: seq<Accept>, k: nat): seq<Frame> {
    if a == [] then []
    else
      var last := a[|a| - 1];
      var before := AcceptedOn(a[..|a| - 1], k);
      if last.flow == k then before + [last.frame] else before
  }

  /** The frames that are not emergency frames; those jump the queue. */
  function Ordinary(q: seq<Frame>): seq<Frame> {
    if q == [] then []
    else (if Emergency(q[0]) then [] else [q[0]]) + Ordinary(q[1..])
  }

  /** For each flow, what has been sent followed by what is pending is what was accepted, in order. */
  ghost predicate InOrder(c: Config, s: Tx)
    requires Shape(c, s)
  {
    forall k | 0 <= k < FLOWS :: FlowInOrder(c, s, k)
  }

  ghost predicate FlowInOrder(c: Config, s: Tx, k: nat)
    requires Shape(c, s) && k < FLOWS
  {
    Ordinary(SentOn(s.log, k)) + Ordinary(s.pend[k]) == Ordinary(AcceptedOn(s.accepted, k))
  }

  function Cmds(log: seq<Entry>): seq<Cmd> {
    seq(|log|, i requires 0 <= i < |log| => log[i].cmd)
  }

  /** A command that the RPU has not read yet belongs to a token that still holds its frames. */
  ghost predicate UnreadOk(c: Config, s: Tx, hole: Option<nat>, i: nat)
    requires Shape(c, s) && i < |s.log|
  {
    var d := s.log[i].cmd.desc;
    d < c.numTokens && d in s.pool.busy && hole != Some(d) && s.tok[d] == s.log[i].frames
  }

  ghost predicate Unread(c: Config, s: Tx, hole: Option<nat>)
    requires Shape(c, s)
  {
    && s.taken <= |s.log|
    && (forall i | s.taken <= i < |s.log| :: UnreadOk(c, s, hole, i))
    && (forall i, j | s.taken <= i < j < |s.log| :: s.log[i].cmd.desc != s.log[j].cmd.desc)
    && InStep(c, s.ring, Cmds(s.log), s.taken)
  }

  /** A command describes the batch that it carries, which the aggregator put together. */
  ghost predicate EntryOk(c: Config, e: Entry) {
    && e.flow < FLOWS && e.cmd.desc < c.numTokens
    && e.frames != [] && Fits(c, e.frames)
    && e.cmd.bufs == BufRefs(c, e.cmd.desc, e.frames)
    && e.cmd.emergency == Emergency(e.frames[0])
    && (forall f | f in e.frames :: Dest(f) == e.cmd.dest && Src(f) == e.cmd.src)
  }

  ghost predicate Logged(c: Config, s: Tx) {
    forall i | 0 <= i < |s.log| :: EntryOk(c, s.log[i])
  }

  /** The bitmap of an access point's client shows which of its queues hold frames. */
  ghost predicate BmpOk(c: Config, s: Tx, k: nat)
    requires Shape(c, s) && k < FLOWS
  {
    PeerOf(k) < MAX_PEERS && s.peers[PeerOf(k)].ap ==>
      (Bits.Bit(s.peers[PeerOf(k)].pendBmp, AcOf(k)) <==> s.pend[k] != [])
  }

  ghost predicate Bmps(c: Config, s: Tx)
    requires Shape(c, s)
  {
    forall k | 0 <= k < FLOWS :: BmpOk(c, s, k)
  }

  /** The owner that TX-done will work out for a token is the access category of its frames. */
  ghost predicate OwnerOk(c: Config, s: Tx, hole: Option<nat>, d: nat)
    requires Shape(c, s) && d < c.numTokens
  {
    d in s.pool.busy && hole != Some(d) ==> Owner(c, s.pool, d) == AcOf(s.tokFlow[d])
  }

  /** As long as no spare went to the multicast queue, the token records agree. */
  ghost predicate Accounts(c: Config, s: Tx, hole: Option<nat>)
    requires Shape(c, s)
  {
    && (c.Spares() == 0 ==> !s.mcSpare)
    && (!s.mcSpare ==>
        && Accounted(c, s.pool)
        && (forall d | 0 <= d < c.numTokens :: OwnerOk(c, s, hole, d)))
  }

  ghost predicate Inv(c: Config, s: Tx, hole: Option<nat>) {
    && Shape(c, s)
    && (forall d | 0 <= d < c.numTokens :: TokenOk(c, s, hole, d))
    && Pending(c, s)
    && Memory(c, s)
    && Conserved(c, s)
    && Counted(s)
    && InOrder(c, s)
    && Unread(c, s, hole)
    && Logged(c, s)
    && Bmps(c, s)
    && Accounts(c, s, hole)
  }

  // ------------------------------------------------------------------- start

  lemma {:induction false} InitInv(c: Config, s: Tx)
    requires Init(c, s)
    ensures Inv(c, s, None)
  {
    AllEmpty(s.pend);
    AllEmpty(s.tok);
    assert AcceptedFrames([]) == [];
    forall k: nat ensures !Bits.Bit(0, k) { Bits.ZeroBits(k); }
    forall q | 0 <= q < AC_MAX ensures s.pool.out[q] == |Owned(c, s.pool, q)| {
      assert Owned(c, s.pool, q) == {};
    }
    assert Cmds(s.log) == [];
  }

  // ----------------------------------------------------------------- sequences

  lemma {:induction false} OrdinaryConcat(a: seq<Frame>, b: seq<Frame>)
    ensures Ordinary(a + b) == Ordinary(a) + Ordinary(b)
  {
    if a == [] {
      assert a + b == b;
    } else {
      assert (a + b)[1..] == a[1..] + b;
      OrdinaryConcat(a[1..], b);
    }
  }

  lemma AcceptedFramesAppend(a: seq<Accept>, x: Accept)
    ensures AcceptedFrames(a + [x]) == AcceptedFrames(a) + [x.frame]
  {
  }

  lemma {:induction false} AcceptedOnAppend(a: seq<Accept>, x: Accept, k: nat)
    ensures AcceptedOn(a + [x], k) == if x.flow == k then AcceptedOn(a, k) + [x.frame] else AcceptedOn(a, k)
  {
    assert (a + [x])[..|a|] == a;
  }

  lemma {:induction false} SentOnAppend(log: seq<Entry>, e: Entry, k: nat)
    ensures SentOn(log + [e], k) == if e.flow == k then SentOn(log, k) + e.frames else SentOn(log, k)
  {
    assert (log + [e])[..|log|] == log;
  }

  lemma CmdsAppend(log: seq<Entry>, e: Entry)
    ensures Cmds(log + [e]) == Cmds(log) + [e.cmd]
  {
  }

  // ------------------------------------------------------------------ Enqueue

  lemma BmpUpdated(c: Config, s: Tx, pend: seq<seq<Frame>>, k: nat, k': nat)
    requires Shape(c, s) && |pend| == FLOWS && k < FLOWS && k' < FLOWS
    requires k' != k ==> pend[k'] == s.pend[k'] && BmpOk(c, s, k')
    ensures BmpOk(c, s.(pend := pend, peers := UpdateBmp(s.peers, pend, k)), k')
  {
    var bmp := s.peers[PeerOf(k)].pendBmp;
    Bits.SetBit(bmp, AcOf(k), AcOf(k'));
    Bits.ClearBit(bmp, AcOf(k), AcOf(k'));
    if PeerOf(k) == PeerOf(k') && k != k' {
      assert AcOf(k) != AcOf(k');
    }
  }

  lemma EnqueueConserved(c: Config, s: Tx, k: nat, f: Frame)
    requires Shape(c, s) && k < FLOWS && Conserved(c, s)
    ensures Conserved(c, Enqueue(c, s, k, f))
  {
    var q := if Emergency(f) then [f] + s.pend[k] else s.pend[k] + [f];
    assert multiset(q) == multiset(s.pend[k]) + multiset{f};
    GatherAdd(s.pend, k, q, f);
    AcceptedFramesAppend(s.accepted, Accept(k, f));
  }

  lemma ArrivalInOrder(sent: seq<Frame>, pend: seq<Frame>, came: seq<Frame>, f: Frame)
    requires Ordinary(sent) + Ordinary(pend) == Ordinary(came)
    ensures Ordinary(sent) + Ordinary(if Emergency(f) then [f] + pend else pend + [f]) == Ordinary(came + [f])
  {
    OrdinaryConcat(came, [f]);
    if Emergency(f) {
      assert Ordinary([f]) == [];
      OrdinaryConcat([f], pend);
      assert [] + Ordinary(pend) == Ordinary(pend);
      assert Ordinary(came) + [] == Ordinary(came);
    } else {
      assert Ordinary([f]) == [f];
      OrdinaryConcat(pend, [f]);
      assert Ordinary(sent) + (Ordinary(pend) + [f]) == Ordinary(sent) + Ordinary(pend) + [f];
    }
  }

  lemma EnqueueInOrder(c: Config, s: Tx, k: nat, f: Frame, k': nat)
    requires Shape(c, s) && k < FLOWS && k' < FLOWS && FlowInOrder(c, s, k')
    ensures FlowInOrder(c, Enqueue(c, s, k, f), k')
  {
    AcceptedOnAppend(s.accepted, Accept(k, f), k');
    if k == k' {
      ArrivalInOrder(SentOn(s.log, k), s.pend[k], AcceptedOn(s.accepted, k), f);
    }
  }

  lemma EnqueueInv(c: Config, s: Tx, k: nat, f: Frame)
    requires Inv(c, s, None) && k < FLOWS && (AcOf(k) == AC_MC <==> PeerOf(k) == MAX_PEERS) && c.Mappable(f)
    ensures Inv(c, Enqueue(c, s, k, f), None)
  {
    var s' := Enqueue(c, s, k, f);
    forall d | 0 <= d < c.numTokens ensures TokenOk(c, s', None, d) { assert TokenOk(c, s, None, d); }
    forall j | 0 <= j < FLOWS ensures PendingOk(c, s', j) { assert PendingOk(c, s, j); }
    forall d | 0 <= d < c.numTokens ensures Intact(c, s'.ram, d, s'.tok[d]) { assert Intact(c, s.ram, d, s.tok[d]); }
    EnqueueConserved(c, s, k, f);
    forall j | 0 <= j < FLOWS ensures FlowInOrder(c, s', j) {
      assert FlowInOrder(c, s, j);
      EnqueueInOrder(c, s, k, f, j);
    }
    forall i | s.taken <= i < |s.log| ensures UnreadOk(c, s', None, i) { assert UnreadOk(c, s, None, i); }
    forall j | 0 <= j < FLOWS ensures BmpOk(c, s', j) {
      assert BmpOk(c, s, j);
      BmpUpdated(c, s, s'.pend, k, j);
    }
    forall d | !s.mcSpare && 0 <= d < c.numTokens ensures OwnerOk(c, s', None, d) { assert OwnerOk(c, s, None, d); }
  }
}
