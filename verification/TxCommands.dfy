/**
 Exactly which configurations keep commands whole.  Command memory has `cmdSize` bytes for each token
 and nothing checks the length of a command, so a batch with many frames reaches into the slot of the
 next token, whose command the RPU may not have read.
 */
module TxCommands {
  import opened Basics
  import opened TxConfig
  import opened Bounce
  import opened PoolModel
  import opened CmdRing
  import opened Aggregation
  import opened TxModel
  import opened TxInvariant
  import opened TxDispatch
  import opened TxSteps
  import opened TxGrowth
  import opened TxTheorems
  import opened PeerTable
  import opened TxFlood

  // -------------------------------------------------------- how long batches get

  /** `n` frames fit in one batch if they are as short as a frame can be. */
  predicate Batchable(c: Config, n: nat) {
    && 1 <= n <= c.pendLimit
    && (n == 1 || (n <= c.maxAgg && n * (c.headroom + ETH_HDR_LEN) < c.Avail()))
  }

  /** The command for every possible batch stays in its slot. */
  predicate CommandsFit(c: Config) {
    forall n | 1 <= n <= c.pendLimit && Batchable(c, n) :: CmdLen(n) <= c.cmdSize
  }

  lemma OneMore(n: nat, u: nat)
    requires 0 < n
    ensures n * u == (n - 1) * u + u
  {
  }

  lemma {:induction false} BytesAtLeast(c: Config, batch: seq<Frame>)
    ensures |batch| * (c.headroom + ETH_HDR_LEN) <= BatchBytes(c, batch)
  {
    if batch != [] {
      var n := |batch| - 1;
      BytesAtLeast(c, batch[..n]);
      OneMore(n + 1, c.headroom + ETH_HDR_LEN);
    }
  }

  lemma BatchableLess(c: Config, m: nat, n: nat)
    requires Batchable(c, n) && 1 <= m <= n
    ensures Batchable(c, m)
  {
    Scale(c.headroom + ETH_HDR_LEN, m, n);
  }

  /** In the slots of the firmware interface the commands fit exactly when a batch never has sixteen frames. */
  lemma SixteenFrames(c: Config)
    requires c.cmdSize == 148
    ensures CommandsFit(c) <==> !Batchable(c, 16)
  {
    if Batchable(c, 16) { assert CmdLen(16) == 149; }
    forall n | 1 <= n <= c.pendLimit && Batchable(c, n) && CmdLen(n) > 148 ensures Batchable(c, 16) {
      BatchableLess(c, 16, n);
    }
  }

  /** The length of a command that has been posted is that of a possible batch. */
  lemma CommandLength(c: Config, s: Tx, i: nat)
    requires Reachable(c, s) && i < |s.log|
    ensures Batchable(c, |s.log[i].frames|) && Len(s.log[i].cmd) == CmdLen(|s.log[i].frames|)
  {
    CommandsWellFormed(c, s, i);
    ReachableTidy(c, s);
    BytesAtLeast(c, s.log[i].frames);
  }

  // -------------------------------------------------------- commands that fit

  lemma UnreadDiffer(c: Config, s: Tx, i: nat, j: nat)
    requires Reachable(c, s) && s.taken <= i < j < |s.log|
    ensures s.log[i].cmd.desc != s.log[j].cmd.desc
  {
    ReachableInv(c, s);
  }

  lemma FittingUndisturbed(c: Config, s: Tx, i: nat)
    requires Reachable(c, s) && CommandsFit(c) && s.taken <= i < |s.log|
    ensures Undisturbed(c, Cmds(s.log), i)
  {
    forall j | i < j < |s.log| ensures !Clash(c, Cmds(s.log)[j], Cmds(s.log)[i]) {
      UnreadDiffer(c, s, i, j);
      CommandLength(c, s, i);
      CommandLength(c, s, j);
      SlotsApart(c, s.log[j].cmd, s.log[i].cmd);
    }
  }

  /** The RPU finds the oldest unread command as it was posted. */
  ghost predicate NextIntact(c: Config, s: Tx)
    requires Shape(c, s)
  {
    s.taken < |s.log| ==> Peek(s.ring) == Some(s.log[s.taken].cmd)
  }

  lemma FittingIntact(c: Config, s: Tx)
    requires Reachable(c, s) && CommandsFit(c)
    ensures NextIntact(c, s)
  {
    if s.taken < |s.log| {
      DeliveredInOrder(c, s);
      FittingUndisturbed(c, s, s.taken);
    }
  }

  // ------------------------------------------------------ a run that damages one

  const VO_FLOW: nat := Flow(0, AC_VO)
  const VI_FLOW: nat := Flow(0, AC_VI)

  /** Starts of IP packets for the client, of user priorities 6 and 4. */
  function VoiceFrame(): Frame { Nbuf(0, CLIENT_ADDR + FROM_BRIDGE, [0x45, 0xC0, 0], 0) }
  function VideoFrame(id: nat): Frame { Nbuf(id, CLIENT_ADDR + FROM_BRIDGE, [0x45, 0x80, 0], 0) }

  function VideoFrames(n: nat): (q: seq<Frame>)
    ensures |q| == n
    ensures forall i | 0 <= i < n :: q[i] == VideoFrame(i + 1)
  {
    if n == 0 then [] else VideoFrames(n - 1) + [VideoFrame(n)]
  }

  lemma {:induction false} VideoBytes(c: Config, n: nat)
    ensures BatchBytes(c, VideoFrames(n)) == n * (c.headroom + ETH_HDR_LEN)
  {
    if n > 0 {
      VideoBytes(c, n - 1);
      assert VideoFrames(n)[..n - 1] == VideoFrames(n - 1);
      OneMore(n, c.headroom + ETH_HDR_LEN);
    }
  }

  lemma WholeQueue(c: Config, q: seq<Frame>)
    requires q != [] && (|q| == 1 || Aggregable(c, false, q, |q|))
    ensures BatchLen(c, false, q) == |q|
  {
    BatchLenIff(c, false, q, |q|);
  }

  lemma {:induction false} VideoAggregable(c: Config, n: nat)
    requires Batchable(c, n) && n > 1
    ensures Aggregable(c, false, VideoFrames(n), n)
  {
    var q := VideoFrames(n);
    VideoBytes(c, n);
    assert q[..n] == q;
    forall i | 0 <= i < n ensures SameAddrs(q[i], q[0]) {
      assert q[i] == VideoFrame(i + 1) && q[0] == VideoFrame(1);
    }
  }

  /** All of them travel in one command, when so many short frames can. */
  lemma {:induction false} VideoBatch(c: Config, n: nat)
    requires Batchable(c, n)
    ensures BatchLen(c, false, VideoFrames(n)) == n
  {
    if n > 1 { VideoAggregable(c, n); }
    WholeQueue(c, VideoFrames(n));
  }

  lemma ClientFrameArrives(tid: nat, ac: nat, f: Frame)
    requires Dest(f) == CLIENT_ADDR && ac < AC_MC && MapAcFromTid(tid) == ac
    ensures Arrives(OneClient(), EvXmit(Flow(0, ac), f))
  {
    assert !Multicast(CLIENT_ADDR) && StationOf(None) && Receiver(None, f) == CLIENT_ADDR;
    assert Route(OneClient(), Receiver(None, f), tid, Flow(0, ac));
  }

  /** Client 0 gets its frames in batches and has turns of no kind to come; no token is in use and nothing has been posted. */
  ghost predicate Waits(c: Config, s: Tx, asleep: bool, voice: seq<Frame>, video: seq<Frame>) {
    && Shape(c, s) && Ready(s, asleep)
    && s.pend[VO_FLOW] == voice && s.pend[VI_FLOW] == video
    && s.pool.busy == {} && s.log == [] && s.taken == 0
    && s.opp[AC_VO] == 0 && s.opp[AC_VI] == 0
  }

  ghost predicate Ready(s: Tx, asleep: bool) {
    && |s.peers| == MAX_SW_PEERS
    && s.peers[0].ps == asleep && !s.peers[0].legacy && s.peers[0].psTokens == 0
    && forall x | x in s.wake :: x == 0
  }

  lemma QueueVideo(c: Config, s: Tx, voice: seq<Frame>, n: nat) returns (s': Tx)
    requires Delivered(c, OneClient(), s) && Waits(c, s, true, voice, VideoFrames(n)) && n < c.pendLimit
    ensures Delivered(c, OneClient(), s') && Waits(c, s', true, voice, VideoFrames(n + 1))
  {
    var e := EvXmit(VI_FLOW, VideoFrame(n + 1));
    ClientFrameArrives(4, AC_VI, VideoFrame(n + 1));
    StepDelivered(c, OneClient(), s, e);
    s' := Step(c, s, e);
    assert s' == Enqueue(c, s, VI_FLOW, VideoFrame(n + 1));
  }

  lemma {:induction false} QueueVideos(c: Config, s: Tx, voice: seq<Frame>, n: nat) returns (s': Tx)
    requires Delivered(c, OneClient(), s) && Waits(c, s, true, voice, []) && n <= c.pendLimit
    ensures Delivered(c, OneClient(), s') && Waits(c, s', true, voice, VideoFrames(n))
  {
    if n == 0 {
      s' := s;
    } else {
      var s1 := QueueVideos(c, s, voice, n - 1);
      s' := QueueVideo(c, s1, voice, n - 1);
    }
  }

  lemma QueueVoice(c: Config, s: Tx) returns (s': Tx)
    requires Delivered(c, OneClient(), s) && Waits(c, s, true, [], []) && 0 < c.pendLimit
    ensures Delivered(c, OneClient(), s') && Waits(c, s', true, [VoiceFrame()], [])
  {
    var e := EvXmit(VO_FLOW, VoiceFrame());
    ClientFrameArrives(6, AC_VO, VoiceFrame());
    StepDelivered(c, OneClient(), s, e);
    s' := Step(c, s, e);
    assert s' == Enqueue(c, s, VO_FLOW, VoiceFrame());
  }

  lemma FallsAsleep(c: Config) returns (s: Tx)
    requires c.Valid()
    ensures Delivered(c, OneClient(), s) && Waits(c, s, true, [], [])
  {
    var s0 := StartState(c, false);
    StartIs(c, OneClient(), false);
    StepDelivered(c, OneClient(), s0, EvPmMode(0, true));
    s := Step(c, s0, EvPmMode(0, true));
    assert s == SetPs(c, s0, 0, true);
  }

  /** The client sleeps, with one voice frame and `n` video frames pending. */
  lemma QueuedAsleep(c: Config, n: nat) returns (s: Tx)
    requires c.Valid() && 1 <= n <= c.pendLimit
    ensures Delivered(c, OneClient(), s) && Waits(c, s, true, [VoiceFrame()], VideoFrames(n))
  {
    var s1 := FallsAsleep(c);
    var s2 := QueueVoice(c, s1);
    s := QueueVideos(c, s2, [VoiceFrame()], n);
  }

  // ------------------------------------------------------------ the client wakes

  lemma {:induction false} NobodyWoken(c: Config, s: Tx, ac: nat, i: nat)
    requires Shape(c, s) && Ready(s, false) && ac < AC_MAX && i <= |s.wake|
    ensures FirstWoken(c, s, ac, i) == None
    decreases |s.wake| - i
  {
    if i < |s.wake| {
      assert s.wake[i] in s.wake;
      NobodyWoken(c, s, ac, i + 1);
    }
  }

  lemma ClientChosen(c: Config, s: Tx, ac: nat)
    requires Shape(c, s) && Ready(s, false) && ac < AC_MC && s.opp[ac] == 0 && s.pend[Flow(0, ac)] != []
    ensures Choose(c, s, ac) == Turn(0)
  {
    NobodyWoken(c, s, ac, 0);
    assert Cyclic(s.opp[ac], 0) == 0 && Eligible(s, 0, ac);
  }

  lemma FirstToken(c: Config, s: Tx, ac: nat)
    requires Shape(c, s) && ac < AC_MC && ac !in s.pool.busy
    ensures Grant(c, s, ac).Some? && Grant(c, s, ac).value.1 == ac
    ensures var s1 := Grant(c, s, ac).value.0; s1 == s.(pool := s1.pool, mcSpare := s1.mcSpare) && s1.pool.busy == s.pool.busy + {ac}
  {
    TokenSplit(c);
    FindFreeIs(c, s.pool.busy, ac);
    assert ac < c.Reserved() && ac % AC_MAX == ac;
  }

  lemma LeavesReady(c: Config, s: Tx, d: nat, ac: nat)
    requires Shape(c, s) && Ready(s, false) && d < c.numTokens && ac < AC_MC && Dispatch(c, s, d, ac).Some?
    requires Choose(c, s, ac) == Turn(0)
    ensures Ready(Dispatch(c, s, d, ac).value, false)
    ensures forall b | 0 <= b < AC_MAX && b != ac :: Dispatch(c, s, d, ac).value.opp[b] == s.opp[b]
  {
  }

  /** A token for `ac` goes to the client, with the whole batch. */
  lemma KickSends(c: Config, s: Tx, ac: nat, q: seq<Frame>, n: nat) returns (s': Tx)
    requires Shape(c, s) && Ready(s, false) && ac < AC_MC && s.opp[ac] == 0 && ac !in s.pool.busy
    requires s.pend[Flow(0, ac)] == q && q != [] && n == BatchLen(c, false, q)
    ensures s' == Kick(c, s, ac) && Shape(c, s') && Ready(s', false) && s'.pool.busy == s.pool.busy + {ac}
    ensures forall b | 0 <= b < AC_MAX && b != ac :: s'.opp[b] == s.opp[b] && s'.pend[Flow(0, b)] == s.pend[Flow(0, b)]
    ensures |s'.log| == |s.log| + 1 && s.log <= s'.log && s'.taken == s.taken
    ensures var e := s'.log[|s.log|]; e.cmd.desc == ac && |e.cmd.bufs| == n
  {
    FirstToken(c, s, ac);
    var (s1, d) := Grant(c, s, ac).value;
    ClientChosen(c, s1, ac);
    var k, m, e := DispatchMoves(c, s1, ac, ac);
    LeavesReady(c, s1, ac, ac);
    s' := Dispatch(c, s1, ac, ac).value;
  }

  lemma KicksPost(c: Config, s: Tx, n: nat) returns (s': Tx)
    requires Shape(c, s) && Batchable(c, n) && Waits(c, s, false, [VoiceFrame()], VideoFrames(n))
    ensures s' == KickDown(c, s, AC_VO) && Shape(c, s') && s'.taken == 0 && |s'.log| >= 2
    ensures s'.log[0].cmd.desc == AC_VO && s'.log[1].cmd.desc == AC_VI && |s'.log[1].cmd.bufs| == n
  {
    WholeQueue(c, [VoiceFrame()]);
    VideoBatch(c, n);
    var s1 := KickSends(c, s, AC_VO, [VoiceFrame()], 1);
    var s2 := KickSends(c, s1, AC_VI, VideoFrames(n), n);
    KickDownStep(c, s, AC_VO);
    KickDownStep(c, s1, AC_VI);
    KickDownGrows(c, s2, AC_BE);
    s' := KickDown(c, s2, AC_BE);
    assert s2.log[0] == s1.log[0];
    assert s'.log[0] == s2.log[0] && s'.log[1] == s2.log[1];
  }

  lemma Wakes(c: Config, s: Tx, voice: seq<Frame>, video: seq<Frame>)
    requires Waits(c, s, true, voice, video)
    ensures Waits(c, SetPs(c, s, 0, false), false, voice, video)
  {
  }

  lemma WakingPosts(c: Config, s: Tx, n: nat) returns (s': Tx)
    requires Delivered(c, OneClient(), s) && Waits(c, s, true, [VoiceFrame()], VideoFrames(n)) && Batchable(c, n)
    ensures Delivered(c, OneClient(), s') && s' == KickDown(c, SetPs(c, s, 0, false), AC_VO)
  {
    StepDelivered(c, OneClient(), s, EvPmMode(0, false));
    s' := Step(c, s, EvPmMode(0, false));
  }

  /** A command that is longer than its slot damages that of the next token. */
  lemma LongCommandDamages(c: Config, s: Tx, n: nat)
    requires Reachable(c, s) && s.taken == 0 && |s.log| >= 2
    requires s.log[1].cmd.desc + 1 == s.log[0].cmd.desc && c.cmdSize < CmdLen(n) && |s.log[1].cmd.bufs| == n
    ensures Peek(s.ring) == None && !NextIntact(c, s)
  {
    DeliveredInOrder(c, s);
    ClashIff(c, s.log[1].cmd, s.log[0].cmd);
    assert Clash(c, Cmds(s.log)[1], Cmds(s.log)[0]);
  }

  /**
   A run in which the RPU finds a command damaged: a client of an access point sleeps while a voice
   frame and `n` video frames for it are queued; when it wakes, the voice frame goes out with one
   token and the others with the token before.
   */
  lemma DamagingRun(c: Config, n: nat) returns (s: Tx)
    requires c.Valid() && Batchable(c, n) && c.cmdSize < CmdLen(n)
    ensures Delivered(c, OneClient(), s) && s.taken < |s.log| && Peek(s.ring) == None && !NextIntact(c, s)
  {
    var s0 := QueuedAsleep(c, n);
    s := WakingPosts(c, s0, n);
    Wakes(c, s0, [VoiceFrame()], VideoFrames(n));
    var s1 := KicksPost(c, SetPs(c, s0, 0, false), n);
    DeliveredReachable(c, OneClient(), s);
    LongCommandDamages(c, s, n);
  }

  /**
   The RPU always finds the oldest unread command whole exactly when every batch that the limits
   allow has a command that stays in its slot; whatever the arrivals, or with those only that the
   entry point can make.
   */
  lemma CommandsIntactIff(c: Config)
    requires c.Valid()
    ensures (forall s | Reachable(c, s) :: NextIntact(c, s)) <==> CommandsFit(c)
    ensures (forall table, s | Delivered(c, table, s) :: NextIntact(c, s)) <==> CommandsFit(c)
  {
    if CommandsFit(c) {
      forall s | Reachable(c, s) ensures NextIntact(c, s) {
        FittingIntact(c, s);
      }
      forall table, s | Delivered(c, table, s) ensures NextIntact(c, s) {
        DeliveredReachable(c, table, s);
      }
    } else {
      var n :| 1 <= n <= c.pendLimit && Batchable(c, n) && CmdLen(n) > c.cmdSize;
      var s := DamagingRun(c, n);
      DeliveredReachable(c, OneClient(), s);
    }
  }
}
