/** What the invariant says about every state of every run. */
module TxTheorems {
  import opened Basics
  import opened TxConfig
  import opened Bounce
  import opened PoolModel
  import opened CmdRing
  import opened TxModel
  import opened TxInvariant
  import opened TxSteps
  import Bits

  /** A frame that some token holds. */
  ghost predicate Live(c: Config, s: Tx, d: nat, i: nat)
    requires Shape(c, s)
  {
    d < c.numTokens && d in s.pool.busy && i < |s.tok[d]|
  }

  /** The copy of a live frame is word aligned, in its token's region and below the RX pools. */
  ghost predicate SafePlace(c: Config, s: Tx, d: nat, i: nat)
    requires Shape(c, s) && Live(c, s, d, i)
  {
    var a := Place(c, d, s.tok[d], i);
    && (c.base + a) % 4 == 0
    && c.TokenBase(d) <= a
    && a + Room(s.tok[d][i]) <= c.TokenBase(d) + c.tokenLen <= c.rxStart
  }

  ghost predicate Apart(c: Config, s: Tx, d: nat, i: nat, e: nat, j: nat)
    requires Shape(c, s) && Live(c, s, d, i) && Live(c, s, e, j)
  {
    || Place(c, d, s.tok[d], i) + Room(s.tok[d][i]) <= Place(c, e, s.tok[e], j)
    || Place(c, e, s.tok[e], j) + Room(s.tok[e][j]) <= Place(c, d, s.tok[d], i)
  }

  lemma LivePlace(c: Config, s: Tx, d: nat, i: nat)
    requires Inv(c, s, None) && Live(c, s, d, i)
    ensures SafePlace(c, s, d, i)
  {
    assert TokenOk(c, s, None, d);
    PlaceInRegion(c, d, s.tok[d], i);
    AlignedSum(c.base, Place(c, d, s.tok[d], i));
  }

  lemma AlignedSum(a: nat, b: nat)
    requires a % 4 == 0 && b % 4 == 0
    ensures (a + b) % 4 == 0
  {
  }

  lemma LiveDisjoint(c: Config, s: Tx, d: nat, i: nat, e: nat, j: nat)
    requires Inv(c, s, None) && Live(c, s, d, i) && Live(c, s, e, j) && (d < e || (d == e && i < j))
    ensures Apart(c, s, d, i, e, j)
  {
    if d < e {
      LivePlace(c, s, d, i);
      LivePlace(c, s, e, j);
      TokenRegions(c, d, e);
    } else {
      PlacesDisjoint(c, d, s.tok[d], i, j);
    }
  }

  /** Bounce memory safety: in every reachable state the copies of live frames are safely placed and do not overlap. */
  lemma BounceMemorySafe(c: Config, s: Tx)
    requires Reachable(c, s)
    ensures forall d, i | Live(c, s, d, i) :: SafePlace(c, s, d, i)
    ensures forall d, i, e, j | Live(c, s, d, i) && Live(c, s, e, j) && (d != e || i != j) :: Apart(c, s, d, i, e, j)
  {
    ReachableInv(c, s);
    forall d, i | Live(c, s, d, i) ensures SafePlace(c, s, d, i) {
      LivePlace(c, s, d, i);
    }
    forall d, i, e, j | Live(c, s, d, i) && Live(c, s, e, j) && (d != e || i != j)
      ensures Apart(c, s, d, i, e, j)
    {
      if d < e || (d == e && i < j) {
        LiveDisjoint(c, s, d, i, e, j);
      } else {
        LiveDisjoint(c, s, e, j, d, i);
      }
    }
  }

  /** What the RPU reads at the address in a command is the frame. */
  ghost predicate Reads(c: Config, ram: seq<byte>, b: BufRef, f: Frame) {
    && c.base <= b.addr && b.addr - c.base + b.len <= |ram|
    && ram[b.addr - c.base..b.addr - c.base + b.len] == f.data
  }

  lemma UnreadFrame(c: Config, s: Tx, n: nat, i: nat)
    requires Inv(c, s, None) && s.taken <= n < |s.log| && i < |s.log[n].frames|
    ensures |s.log[n].cmd.bufs| == |s.log[n].frames|
    ensures Reads(c, s.ram, s.log[n].cmd.bufs[i], s.log[n].frames[i])
  {
    var e := s.log[n];
    assert UnreadOk(c, s, None, n) && EntryOk(c, e);
    assert Intact(c, s.ram, e.cmd.desc, s.tok[e.cmd.desc]);
    assert IntactAt(s.ram, Place(c, e.cmd.desc, e.frames, i), e.frames[i]);
  }

  /**
   Delivery: the RPU reads the commands in the order in which they were posted, unchanged unless the
   bytes of a later one fall on them, and there are exactly the bytes of the frames that a command
   was posted for at the addresses in it.  TxCommands says when commands do fall on one another.
   */
  lemma DeliveredInOrder(c: Config, s: Tx)
    requires Reachable(c, s) && s.taken < |s.log|
    ensures Peek(s.ring) == if Undisturbed(c, Cmds(s.log), s.taken) then Some(s.log[s.taken].cmd) else None
    ensures var e := s.log[s.taken];
            && |e.cmd.bufs| == |e.frames|
            && (forall i | 0 <= i < |e.frames| :: Reads(c, s.ram, e.cmd.bufs[i], e.frames[i]))
  {
    ReachableInv(c, s);
    ConsumeInv(c, s);
    assert EntryOk(c, s.log[s.taken]);
    forall i | 0 <= i < |s.log[s.taken].frames|
      ensures Reads(c, s.ram, s.log[s.taken].cmd.bufs[i], s.log[s.taken].frames[i])
    {
      UnreadFrame(c, s, s.taken, i);
    }
  }

  /**
   Conservation: an accepted frame is pending, or held by a token, or freed, and in only one of
   these places and only once; and the two statistics differ by the frames that tokens hold.
   */
  lemma FramesConserved(c: Config, s: Tx, f: Frame)
    requires Reachable(c, s)
    ensures multiset(AcceptedFrames(s.accepted))[f] == Gather(s.pend)[f] + Gather(s.tok)[f] + multiset(s.freed)[f]
    ensures s.total - s.done == Load(s.tok)
  {
    ReachableInv(c, s);
  }

  lemma FreedOnce(c: Config, s: Tx, f: Frame)
    requires Reachable(c, s) && multiset(AcceptedFrames(s.accepted))[f] == 1
    ensures multiset(s.freed)[f] <= 1
    ensures f in s.freed ==> f !in Gather(s.pend) && f !in Gather(s.tok)
  {
    FramesConserved(c, s, f);
    assert f in s.freed ==> f in multiset(s.freed);
  }

  /** First in, first out for each peer and access category; emergency frames apart, which may overtake. */
  lemma {:induction false} FifoPerFlow(c: Config, s: Tx, k: nat)
    requires Reachable(c, s) && k < FLOWS
    ensures Ordinary(SentOn(s.log, k)) <= Ordinary(AcceptedOn(s.accepted, k))
    ensures Ordinary(SentOn(s.log, k)) + Ordinary(s.pend[k]) == Ordinary(AcceptedOn(s.accepted, k))
  {
    ReachableInv(c, s);
    assert FlowInOrder(c, s, k);
  }

  /**
   Token accounting, as long as no spare went to the multicast queue: the counter of each queue is
   the number of tokens in use for it, and the queue that TX-done works out for a token is the
   access category of the frames on it, also after a spare has moved to another one.
   */
  lemma TokensAccounted(c: Config, s: Tx)
    requires Reachable(c, s) && !s.mcSpare
    ensures forall q | 0 <= q < AC_MAX :: s.pool.out[q] == |Owned(c, s.pool, q)|
    ensures forall d | c.Reserved() <= d < c.numTokens :: NibbleFits(c, s.pool, d)
    ensures forall d | d in s.pool.busy :: Owner(c, s.pool, d) == AcOf(s.tokFlow[d])
  {
    ReachableInv(c, s);
    forall d | d in s.pool.busy ensures Owner(c, s.pool, d) == AcOf(s.tokFlow[d]) {
      assert OwnerOk(c, s, None, d);
    }
  }

  /** Without spare tokens there is nothing that the multicast queue could take. */
  lemma NoSparesNoMcSpare(c: Config, s: Tx)
    requires Reachable(c, s) && c.Spares() == 0
    ensures !s.mcSpare
  {
    ReachableInv(c, s);
  }

  /**
   A command carries the destination (the first six bytes) and the source (the next six) of its frames,
   which all agree in both, and it lists where each frame is and how long; the frames fit a token.
   */
  lemma CommandsWellFormed(c: Config, s: Tx, i: nat)
    requires Reachable(c, s) && i < |s.log|
    ensures EntryOk(c, s.log[i])
    ensures var e := s.log[i];
            && e.frames != []
            && e.cmd.dest == e.frames[0].data[0..6] && e.cmd.src == e.frames[0].data[6..12]
            && (forall f | f in e.frames :: f.data[0..12] == e.frames[0].data[0..12])
            && (e.cmd.emergency <==> e.frames[0].priority == 0xFF)
            && |e.cmd.bufs| == |e.frames|
            && (forall j | 0 <= j < |e.frames| :: e.cmd.bufs[j].len == |e.frames[j].data|)
  {
    ReachableInv(c, s);
    var e := s.log[i];
    assert EntryOk(c, e) && e.frames[0] in e.frames;
    forall f | f in e.frames ensures f.data[0..12] == e.frames[0].data[0..12] {
      AddrBytes(f, e.frames[0]);
    }
  }

  /** The pending bitmap that the firmware reads for a client of an access point is exact. */
  lemma BitmapExact(c: Config, s: Tx, k: nat)
    requires Reachable(c, s) && k < FLOWS && PeerOf(k) < MAX_PEERS && s.peers[PeerOf(k)].ap
    ensures Bits.Bit(s.peers[PeerOf(k)].pendBmp, AcOf(k)) <==> s.pend[k] != []
  {
    ReachableInv(c, s);
    assert BmpOk(c, s, k);
  }
}
