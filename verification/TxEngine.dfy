/**
 The transmit engine as the driver runs it: tx.c and the power-save half of fmac_ap.c, in place, over
 the queues, the token pool, the tables of mapped buffers and the command ring.  Every entry point
 does what the step of the same name in module TxModel does, so what is proved of runs holds of it.
 */
module TxEngine {
  import opened Basics
  import opened TxConfig
  import opened Bounce
  import opened CmdRing
  import opened PoolModel
  import opened TxModel
  import opened TxInvariant
  import opened TxDispatch
  import opened TxSteps
  import TokenPool
  import TxMapper
  import TxQueues

  /** The abstract state that tx_init sets up. */
  function Initial(c: Config, peers: seq<Peer>, ram: seq<byte>, ring: Ring): Tx {
    Tx(peers, seq(FLOWS, _ => []), seq(c.numTokens, _ => []), seq(c.numTokens, _ => 0), Pool({}, {}, [0, 0, 0, 0, 0]),
       [0, 0, 0, 0, 0], [], ram, ring, 0, 0, [], 0, [], [], false)
  }

  lemma InitialIsInit(c: Config, peers: seq<Peer>, ram: seq<byte>, ring: Ring)
    requires c.Valid() && |peers| == MAX_SW_PEERS && |ram| == c.ramSize
    requires forall p | 0 <= p < MAX_SW_PEERS :: !peers[p].ps && peers[p].psTokens == 0 && peers[p].pendBmp == 0
    requires InStep(c, ring, [], 0) && ring.host == ring.rpu == 0
    ensures Init(c, Initial(c, peers, ram, ring))
  {
  }

  lemma TakeFits(c: Config, s: Tx, d: nat, ac: nat)
    requires Shape(c, s) && Pending(c, s) && d < c.numTokens && ac < AC_MAX && TakeBatch(c, s, d, ac).Some?
    ensures Fits(c, TakeBatch(c, s, d, ac).value.tok[d])
  {
    MovedFits(c, s, d, ac);
  }

  lemma GrantedEmpty(c: Config, s: Tx, ac: nat)
    requires Inv(c, s, None) && ac < AC_MAX && Grant(c, s, ac).Some?
    ensures var (s1, d) := Grant(c, s, ac).value; s1.tok[d] == [] && Pending(c, s1)
  {
    var (s1, d) := Grant(c, s, ac).value;
    GrantInv(c, s, ac);
    assert TokenOk(c, s1, Some(d), d);
  }

  lemma XmitReachable(c: Config, s: Tx, k: nat, f: Frame)
    requires Reachable(c, s) && Enabled(c, s, EvXmit(k, f))
    ensures Reachable(c, Xmit(c, s, k, f).0)
    ensures |s.pend[k]| < c.pendLimit ==> Inv(c, Enqueue(c, s, k, f), None)
  {
    ReachableInv(c, s);
    StepReachable(c, s, EvXmit(k, f));
    if |s.pend[k]| < c.pendLimit {
      EnqueueInv(c, s, k, f);
    }
  }

  /** Where the search for work for a token begins and ends: a reserved token only serves its own queue. */
  function First(c: Config, s: Tx, d: nat): (ac: nat)
    requires c.Valid()
    ensures ac < AC_MAX
  {
    if d < c.Reserved() then Owner(c, s.pool, d) else AC_VO
  }

  function Last(c: Config, s: Tx, d: nat): (ac: nat)
    requires c.Valid()
    ensures ac <= First(c, s, d)
  {
    if d < c.Reserved() then Owner(c, s.pool, d) else AC_BK
  }

  /** There is no work for token `d` above access category `ac`. */
  ghost predicate Idle(c: Config, s: Tx, d: nat, ac: nat, start: nat)
    requires Shape(c, s) && d < c.numTokens && start < AC_MAX
  {
    forall b | ac < b <= start :: TakeBatch(c, s, d, b) == None
  }

  lemma StillIdle(c: Config, s: Tx, d: nat, ac: nat, start: nat)
    requires Shape(c, s) && d < c.numTokens && 0 < ac <= start < AC_MAX
    requires Idle(c, s, d, ac, start) && TakeBatch(c, s, d, ac) == None
    ensures Idle(c, s, d, ac - 1, start)
  {
  }

  lemma {:induction false} FirstWorkIs(c: Config, s: Tx, d: nat, start: nat, ac: nat, last: nat)
    requires Shape(c, s) && d < c.numTokens && last <= ac <= start < AC_MAX && Idle(c, s, d, ac, start)
    ensures TakeBatch(c, s, d, ac).Some? ==> FirstWork(c, s, d, start, last) == Some(ac)
    ensures TakeBatch(c, s, d, ac) == None && ac == last ==> FirstWork(c, s, d, start, last) == None
  {
    var r := FirstWork(c, s, d, start, last);
    if r.Some? && r.value != ac {
      assert TakeBatch(c, s, d, r.value).Some?;
    }
  }

  lemma HeldIffBusy(c: Config, s: Tx, d: nat)
    requires Inv(c, s, None) && d < c.numTokens
    ensures d in s.pool.busy <==> s.tok[d] != []
  {
    assert TokenOk(c, s, None, d);
  }

  lemma CompletedEmpty(c: Config, s: Tx, d: nat)
    requires Inv(c, s, None) && d in s.pool.busy && ReadByRpu(s, d)
    ensures Complete(c, s, d).tok[d] == [] && Pending(c, Complete(c, s, d))
  {
    CompleteInv(c, s, d);
  }

  lemma DoneReachable(c: Config, s: Tx, d: nat)
    requires Reachable(c, s) && Enabled(c, s, EvTxDone(d))
    ensures Reachable(c, TxDone(c, s, d)) && Inv(c, s, None)
    ensures d in s.pool.busy ==> d < c.numTokens
    ensures d <= c.numTokens ==> d < c.numTokens && WasSent(s, d) && ReadByRpu(s, d)
  {
    ReachableInv(c, s);
    StepReachable(c, s, EvTxDone(d));
    if d <= c.numTokens {
      var i :| 0 <= i < |s.log| && s.log[i].cmd.desc == d;
      assert EntryOk(c, s.log[i]);
    }
  }

  lemma RequestReachable(c: Config, s: Tx, p: nat, num: int)
    requires Reachable(c, s) && Enabled(c, s, EvPsRequest(p, num))
    ensures Reachable(c, PsRequest(c, s, p, num))
  {
    StepReachable(c, s, EvPsRequest(p, num));
  }

  lemma RequestInv(c: Config, s: Tx, p: nat, num: int)
    requires Reachable(c, s) && p < MAX_PEERS
    ensures Inv(c, Request(c, s, p, num), None)
  {
    ReachableInv(c, s);
    PeersOnlyInv(c, s, Request(c, s, p, num));
  }

  lemma PmModeReachable(c: Config, s: Tx, p: nat, ps: bool)
    requires Reachable(c, s) && Enabled(c, s, EvPmMode(p, ps))
    ensures Reachable(c, PmMode(c, s, p, ps))
  {
    StepReachable(c, s, EvPmMode(p, ps));
  }

  lemma SetPsInv(c: Config, s: Tx, p: nat, ps: bool)
    requires Reachable(c, s) && p < MAX_PEERS
    ensures Inv(c, SetPs(c, s, p, ps), None)
  {
    ReachableInv(c, s);
    PeersOnlyInv(c, s, SetPs(c, s, p, ps));
  }

  lemma ConsumeReachable(c: Config, s: Tx)
    requires Reachable(c, s) && Enabled(c, s, EvConsume)
    ensures Reachable(c, Consume(c, s))
    ensures Peek(s.ring) == if Undisturbed(c, Cmds(s.log), s.taken) then Some(s.log[s.taken].cmd) else None
  {
    StepReachable(c, s, EvConsume);
    ReachableInv(c, s);
    ConsumeInv(c, s);
  }

  /** A token for each queue below `n`, highest first. */
  function KickBelow(c: Config, s: Tx, n: nat): Tx
    requires Shape(c, s) && n <= AC_MAX
  {
    if n == 0 then s else KickDown(c, s, n - 1)
  }

  lemma KickBelowStep(c: Config, s: Tx, n: nat)
    requires Shape(c, s) && 0 < n <= AC_MAX
    ensures KickBelow(c, s, n) == KickBelow(c, Kick(c, s, n - 1), n - 1)
  {
    KickDownStep(c, s, n - 1);
  }

  class TxEngine {
    const c: Config
    const queues: TxQueues.TxQueues
    const pool: TokenPool.TokenPool
    const mapper: TxMapper.TxMapper
    const hpq: SoftHpq
    var totalTxPkts: nat
    var totalTxDonePkts: nat
    ghost var state: Tx

    /** An array that is none of the mapper's. */
    ghost predicate Apart(a: array<nat>) {
      && a != mapper.coalesceCount
      && (a as object) != (mapper.txBufInfo as object)
      && (a as object) != (mapper.hal.txBufInfo as object)
      && (a as object) != (mapper.hal.ram as object)
    }

    ghost predicate Wired() {
      && queues.c == c && pool.c == c && mapper.c == c && hpq.c == c && mapper.Wired()
      && Apart(pool.bufPoolBmp) && Apart(pool.outstanding) && Apart(hpq.txCmdBuffs)
      && pool.bufPoolBmp != hpq.txCmdBuffs && pool.outstanding != hpq.txCmdBuffs
    }

    ghost predicate PoolIs(p: Pool)
      reads pool, pool.bufPoolBmp, pool.outstanding
    {
      pool.Valid() && pool.Abs() == p
    }

    ghost predicate HpqIs(r: Ring)
      reads hpq, hpq.txCmdBuffs
    {
      hpq.Valid() && hpq.Abs() == r
    }

    /** The tables have the frames in `live` mapped, and data RAM is `ram`. */
    ghost predicate MapperIs(live: seq<seq<Frame>>, ram: seq<byte>)
      reads mapper, mapper.hal, mapper.hal.txBufInfo, mapper.hal.ram, mapper.txBufInfo, mapper.coalesceCount
    {
      mapper.Valid() && mapper.live == live && mapper.hal.ram[..] == ram
    }

    /** A token that has ever been sent has a coalesce count. */
    ghost predicate CountsSet(log: seq<Entry>)
      reads mapper.coalesceCount
    {
      forall i | 0 <= i < |log| :: log[i].cmd.desc < mapper.coalesceCount.Length && mapper.coalesceCount[log[i].cmd.desc] > 0
    }

    ghost function Repr(): set<object> {
      {this, queues, pool, pool.bufPoolBmp, pool.outstanding, hpq, hpq.txCmdBuffs,
       mapper, mapper.hal, mapper.hal.txBufInfo, mapper.hal.ram, mapper.txBufInfo, mapper.coalesceCount}
    }

    /** The records agree with the abstract state, when the frames in `live` are mapped. */
    ghost predicate Consistent(live: seq<seq<Frame>>)
      reads Repr()
    {
      && Wired()
      && queues.Holds(state)
      && PoolIs(state.pool) && HpqIs(state.ring) && MapperIs(live, state.ram) && CountsSet(state.log)
      && totalTxPkts == state.total && totalTxDonePkts == state.done
    }

    /** Between steps what the two tables have mapped is what the tokens hold. */
    ghost predicate Valid()
      reads Repr()
    {
      Consistent(state.tok)
    }

    constructor (c: Config, peers: seq<Peer>)
      requires c.Valid() && |peers| == MAX_SW_PEERS
      requires forall p | 0 <= p < MAX_SW_PEERS :: !peers[p].ps && peers[p].psTokens == 0 && peers[p].pendBmp == 0
      ensures Valid() && this.c == c
      ensures Init(c, state)
    {
      this.c := c;
      queues := new TxQueues.TxQueues(c, peers);
      pool := new TokenPool.TokenPool(c);
      mapper := new TxMapper.TxMapper(c);
      hpq := new SoftHpq(c);
      totalTxPkts, totalTxDonePkts := 0, 0;
      new;
      state := Initial(c, peers, mapper.hal.ram[..], hpq.Abs());
      InitialIsInit(c, peers, mapper.hal.ram[..], hpq.Abs());
    }

    // ----------------------------------------------------------- sending

    /** tx_cmd_prepare: map the batch of token `desc` and fill in its command. */
    method CmdPrepare(desc: nat) returns (cmd: Cmd)
      requires desc < |state.tok| && Consistent(state.tok[desc := []])
      requires state.tok[desc] != [] && Fits(c, state.tok[desc])
      modifies this`totalTxPkts, queues`wakeupClientQ
      modifies mapper`live, mapper.hal`txFrameOffset, mapper.hal.txBufInfo, mapper.hal.ram, mapper.txBufInfo, mapper.coalesceCount
      ensures cmd == Command(c, state, desc)
      ensures MapperIs(state.tok, WriteBatch(c, state.ram, desc, state.tok[desc], |state.tok[desc]|))
      ensures totalTxPkts == old(totalTxPkts) + |state.tok[desc]|
      ensures queues.wakeupClientQ == if cmd.eosp then Without(state.wake, PeerOf(state.tokFlow[desc])) else state.wake
      ensures CountsSet(state.log) && mapper.coalesceCount[desc] > 0
    {
      var batch, p := queues.pkt[desc], queues.pktPeer[desc];
      var bufs := mapper.MapBatch(desc, batch);
      totalTxPkts := totalTxPkts + |batch|;
      var count := queues.PendingFramesCount(p, state);
      var more := queues.peers[p].moreIf && count != 0;
      var eosp := queues.peers[p].psTokens == 0;
      if eosp {
        queues.DelFromWakeupQ(p);
      }
      cmd := Cmd(desc, Dest(batch[0]), Src(batch[0]), bufs, batch[0].priority == TWT_EMERGENCY, more, eosp);
      assert state.tok == state.tok[desc := []][desc := batch];
    }

    /** All records but the command ring agree with the state `s`. */
    ghost predicate Prepared(s: TxModel.Tx)
      reads Repr()
    {
      && Wired()
      && queues.Holds(s) && PoolIs(s.pool) && MapperIs(s.tok, s.ram) && CountsSet(s.log)
      && totalTxPkts == s.total && totalTxDonePkts == s.done
    }

    /** The second half of tx_cmd_init. */
    method PostCmd(cmd: Cmd, ghost s: TxModel.Tx)
      requires Prepared(s) && HpqIs(state.ring) && state.ring.host < |state.ring.slots| && s.ring == Post(c, state.ring, cmd)
      modifies this`state, hpq`cmdMem, hpq`hostTxCmdBusyIndex, hpq.txCmdBuffs
      ensures Valid() && state == s
    {
      hpq.DataCmdSend(cmd);
      state := s;
    }

    /** tx_cmd_init: prepare the command and post it. */
    method CmdInit(desc: nat, ghost turn: bool)
      requires desc < |state.tok| && Consistent(state.tok[desc := []])
      requires state.tok[desc] != [] && Fits(c, state.tok[desc])
      modifies Repr()
      ensures Valid() && state == Send(c, old(state), desc, turn)
    {
      var cmd := CmdPrepare(desc);
      PostCmd(cmd, Send(c, state, desc, turn));
    }

    // ------------------------------------------------------------- tokens

    method DescGet(ac: nat) returns (desc: nat)
      requires Valid() && ac < AC_MAX
      modifies Repr()
      ensures Valid()
      ensures match Grant(c, old(state), ac)
        case None => desc == c.numTokens && state == old(state)
        case Some((s1, d)) => desc == d && state == s1
    {
      FindFreeIs(c, state.pool.busy, ac);
      desc := pool.DescGet(ac);
      if desc < c.numTokens {
        state := Grant(c, state, ac).value.0;
      }
    }

    method DescFree(desc: nat, ac: nat)
      requires Valid() && desc < c.numTokens && ac < AC_MAX
      modifies Repr()
      ensures Valid() && state == Free(c, old(state), desc, ac)
    {
      pool.DescFree(desc, ac);
      state := Free(c, state, desc, ac);
    }

    /** What has become of state `s` when a batch of `work` was looked for on behalf of token `desc`. */
    ghost predicate Loaded(s: TxModel.Tx, desc: nat, work: Option<nat>)
      requires Shape(c, s) && desc < c.numTokens && (work.Some? ==> work.value < AC_MAX)
      reads Repr()
    {
      match work
      case None => state == s && Valid()
      case Some(a) =>
        && TakeBatch(c, s, desc, a) == Some(state)
        && desc < |state.tok| && state.tok[desc] != [] && Consistent(state.tok[desc := []])
    }

    /** Load the next batch of `ac` on an empty token. */
    method Load(desc: nat, ac: nat) returns (len: nat)
      requires Valid() && desc < c.numTokens && ac < AC_MAX && state.tok[desc] == []
      modifies Repr()
      ensures Loaded(old(state), desc, if TakeBatch(c, old(state), desc, ac).Some? then Some(ac) else None)
      ensures len > 0 <==> TakeBatch(c, old(state), desc, ac).Some?
    {
      len := queues.PendingProcess(desc, ac, state);
      if len > 0 {
        assert state.tok == TakeBatch(c, state, desc, ac).value.tok[desc := []];
        state := TakeBatch(c, state, desc, ac).value;
      }
    }

    /** tx_pending_process. */
    method PendingProcess(desc: nat, ac: nat)
      requires Valid() && desc < c.numTokens && ac < AC_MAX && state.tok[desc] == [] && Pending(c, state)
      modifies Repr()
      ensures Valid() && state == ServeOrFree(c, old(state), desc, ac)
    {
      var len := Load(desc, ac);
      if len > 0 {
        TakeFits(c, old(state), desc, ac);
        CmdInit(desc, IsTurn(c, old(state), ac));
      } else {
        DescFree(desc, ac);
      }
    }

    /** The token for the next command of `ac`, if there is one, is put to use. */
    method UseToken(ac: nat) returns (got: bool)
      requires Valid() && ac < AC_MAX && Inv(c, state, None)
      modifies Repr()
      ensures Valid() && state == Kick(c, old(state), ac) && Inv(c, state, None)
      ensures got <==> Grant(c, old(state), ac).Some?
    {
      KickInv(c, state, ac);
      if Grant(c, state, ac).Some? {
        GrantInv(c, state, ac);
        GrantedEmpty(c, state, ac);
      }
      var desc := DescGet(ac);
      got := desc < c.numTokens;
      if got {
        PendingProcess(desc, ac);
      }
    }

    // ----------------------------------------------------------- transmit

    /** tx_process: queue the frame and work out whether to look for a token now. */
    method Process(k: nat, nbuf: Frame) returns (status: Status)
      requires Valid() && k < FLOWS
      modifies Repr()
      ensures Valid()
      ensures status == Fail <==> |old(state).pend[k]| >= c.pendLimit
      ensures status == Fail ==> state == old(state)
      ensures status != Fail ==> state == Enqueue(c, old(state), k, nbuf)
      ensures status == Queued ==> LeftQueued(c, state, k, nbuf)
      ensures status == Success ==> !LeftQueued(c, state, k, nbuf)
    {
      var ok := queues.EnqueueFrame(k, nbuf, state);
      if !ok {
        return Fail;
      }
      state := Enqueue(c, state, k, nbuf);
      var p, ac := PeerOf(k), AcOf(k);
      if queues.peers[p].ps {
        return Queued;
      }
      if pool.outstanding[ac] >= c.PerAc() {
        var aggrStatus := false;
        if |queues.dataPendingTxq[k]| > 0 {
          var first := queues.dataPendingTxq[k][0];
          aggrStatus := true;
          if Dest(nbuf) != Dest(first) {
            aggrStatus := false;
          }
          if Src(nbuf) != Src(first) {
            aggrStatus := false;
          }
        }
        if aggrStatus {
          if |queues.dataPendingTxq[k]| < c.maxAgg {
            return Queued;
          }
        }
      }
      return Success;
    }

    /** nrf_wifi_fmac_tx. */
    method Tx(k: nat, nbuf: Frame) returns (status: Status)
      requires Valid() && Reachable(c, state) && Enabled(c, state, EvXmit(k, nbuf))
      modifies Repr()
      ensures Valid() && Reachable(c, state)
      ensures (state, status) == Xmit(c, old(state), k, nbuf)
    {
      XmitReachable(c, state, k, nbuf);
      status := Process(k, nbuf);
      if status != Success {
        return;
      }
      status := Queued;
      var got := UseToken(AcOf(k));
      if got {
        status := Success;
      }
    }

    // ---------------------------------------------------------- completion

    /** The counters and the queue map follow when a spare token changes hands. */
    method HandOver(desc: nat, from: nat, to: nat)
      requires desc < |state.tok| && Consistent(state.tok[desc := []]) && from < AC_MAX && to < AC_MAX
      requires desc < c.Reserved() ==> from == to
      modifies Repr()
      ensures state == ChangeOwner(c, old(state), desc, from, to) && Consistent(state.tok[desc := []])
    {
      if from != to {
        pool.ChangeQueue(desc, from, to);
      }
      state := ChangeOwner(c, state, desc, from, to);
    }

    /** The search of tx_buff_req_free, from access category `start` down to `last`. */
    method LoadFirst(desc: nat, start: nat, last: nat) returns (len: nat, ac: nat)
      requires Valid() && desc < c.numTokens && state.tok[desc] == [] && last <= start < AC_MAX
      modifies Repr()
      ensures var work := FirstWork(c, old(state), desc, start, last);
              && (len > 0 <==> work.Some?) && (len > 0 ==> ac == work.value)
              && Loaded(old(state), desc, work)
    {
      ghost var s := state;
      ac := start;
      while true
        invariant last <= ac <= start && Loaded(s, desc, None) && Idle(c, s, desc, ac, start)
        decreases ac
      {
        len := Load(desc, ac);
        if len > 0 || ac == last {
          FirstWorkIs(c, s, desc, start, ac, last);
          return;
        }
        StillIdle(c, s, desc, ac, start);
        ac := ac - 1;
      }
    }

    /**
     tx_buff_req_free: find the next batch for a token whose frames are done, or free it.  A spare
     token may serve any queue, and changes hands when it does.
     */
    method BuffReqFree(desc: nat) returns (len: nat, ac: nat)
      requires Valid() && desc < c.numTokens && state.tok[desc] == []
      modifies Repr()
      ensures var s, q := old(state), Owner(c, old(state.pool), desc);
              match FirstWork(c, s, desc, First(c, s, desc), Last(c, s, desc))
              case None => len == 0 && Valid() && state == Free(c, s, desc, q)
              case Some(a) =>
                && len > 0 && ac == a && state == ChangeOwner(c, TakeBatch(c, s, desc, a).value, desc, q, a)
                && state.tok[desc] != [] && Consistent(state.tok[desc := []])
    {
      var doneQ := pool.TxDoneQueue(desc);
      var startAc, endAc := doneQ, doneQ;
      if desc >= c.Reserved() {
        startAc, endAc := AC_VO, AC_BK;
      }
      len, ac := LoadFirst(desc, startAc, endAc);
      if len > 0 {
        HandOver(desc, doneQ, ac);
      } else {
        DescFree(desc, doneQ);
      }
    }

    /** The first half of tx_done_process.  A second completion of the same command is refused. */
    method Unload(desc: nat) returns (ok: bool)
      requires Valid() && WasSent(state, desc) && desc < c.numTokens
      requires desc in state.pool.busy <==> state.tok[desc] != []
      modifies Repr()
      ensures Valid()
      ensures ok <==> desc in old(state.pool.busy)
      ensures state == if ok then Complete(c, old(state), desc) else old(state)
    {
      ok := mapper.UnmapBatch(desc);
      assert !ok ==> state.tok[desc := []] == state.tok;
      if ok {
        var batch := queues.FreeFrames(desc);
        totalTxDonePkts := totalTxDonePkts + |batch|;
        state := Complete(c, state, desc);
      }
    }

    /** The second half of tx_done_process: the token gets the next batch, which is sent, or becomes free. */
    method Reload(desc: nat)
      requires Valid() && desc < c.numTokens && state.tok[desc] == [] && Pending(c, state)
      modifies Repr()
      ensures Valid()
      ensures state == Refill(c, old(state), desc, Owner(c, old(state.pool), desc),
                              First(c, old(state), desc), Last(c, old(state), desc))
    {
      var len, ac := BuffReqFree(desc);
      if len > 0 {
        TakeFits(c, old(state), desc, ac);
        CmdInit(desc, IsTurn(c, old(state), ac));
      }
    }

    /** tx_done_process. */
    method DoneProcess(desc: nat) returns (ok: bool)
      requires Valid() && Reachable(c, state) && Enabled(c, state, EvTxDone(desc))
      modifies Repr()
      ensures Valid() && Reachable(c, state)
      ensures state == TxDone(c, old(state), desc)
      ensures ok <==> desc in old(state.pool.busy)
    {
      DoneReachable(c, state, desc);
      if desc > c.numTokens {
        return false;
      }
      HeldIffBusy(c, state, desc);
      ok := Unload(desc);
      if ok {
        CompletedEmpty(c, old(state), desc);
        Reload(desc);
      }
    }

    // ---------------------------------------------------------- power save

    method UseTokenOf(ac: nat, ghost work: TxModel.Tx)
      requires Valid() && Inv(c, state, None) && ac < AC_MAX && work == KickBelow(c, state, ac + 1)
      modifies Repr()
      ensures Valid() && Inv(c, state, None) && work == KickBelow(c, state, ac)
    {
      KickBelowStep(c, state, ac + 1);
      var got := UseToken(ac);
    }

    /** The loop that ends both power-save handlers: one token for every queue, highest first. */
    method UseTokens()
      requires Valid() && Inv(c, state, None)
      modifies Repr()
      ensures Valid() && state == KickDown(c, old(state), AC_VO)
    {
      ghost var work := KickDown(c, state, AC_VO);
      var ac := AC_VO + 1;
      while ac > 0
        invariant 0 <= ac <= AC_VO + 1 && Valid() && Inv(c, state, None) && work == KickBelow(c, state, ac)
      {
        ac := ac - 1;
        UseTokenOf(ac, work);
      }
    }

    method NoteRequest(id: nat, numFrames: int)
      requires Valid() && id < MAX_PEERS
      modifies Repr()
      ensures Valid() && state == Request(c, old(state), id, numFrames)
    {
      queues.peers := queues.peers[id := queues.peers[id].(psTokens := numFrames)];
      queues.wakeupClientQ := queues.wakeupClientQ + [id];
      state := Request(c, state, id, numFrames);
    }

    method NotePsState(id: nat, ps: bool)
      requires Valid() && id < MAX_PEERS
      modifies Repr()
      ensures Valid() && state == SetPs(c, old(state), id, ps)
    {
      queues.peers := queues.peers[id := queues.peers[id].(ps := ps)];
      if !ps {
        queues.wakeupClientQ := queues.wakeupClientQ + [id];
      }
      state := SetPs(c, state, id, ps);
    }

    /** sap_client_ps_get_frames, for a client that is known. */
    method SapClientPsGetFrames(id: nat, numFrames: int)
      requires Valid() && Reachable(c, state) && Enabled(c, state, EvPsRequest(id, numFrames))
      modifies Repr()
      ensures Valid() && Reachable(c, state)
      ensures state == PsRequest(c, old(state), id, numFrames)
    {
      RequestReachable(c, state, id, numFrames);
      RequestInv(c, state, id, numFrames);
      NoteRequest(id, numFrames);
      UseTokens();
    }

    /** sap_client_update_pmmode, for a client that is known. */
    method SapClientUpdatePmmode(id: nat, ps: bool)
      requires Valid() && Reachable(c, state) && Enabled(c, state, EvPmMode(id, ps))
      modifies Repr()
      ensures Valid() && Reachable(c, state)
      ensures state == PmMode(c, old(state), id, ps)
    {
      PmModeReachable(c, state, id, ps);
      SetPsInv(c, state, id, ps);
      NotePsState(id, ps);
      if !ps {
        UseTokens();
      }
    }

    // ----------------------------------------------------- the other side

    /** The RPU takes the next command from the ring. */
    method RpuReads() returns (cmd: Option<Cmd>)
      requires Valid() && Reachable(c, state) && Enabled(c, state, EvConsume)
      modifies Repr()
      ensures Valid() && Reachable(c, state)
      ensures state == Consume(c, old(state))
      ensures var s := old(state);
              cmd == if Undisturbed(c, Cmds(s.log), s.taken) then Some(s.log[s.taken].cmd) else None
    {
      ConsumeReachable(c, state);
      cmd := hpq.RpuNext();
      state := Consume(c, state);
    }

    /**
     Map-flag agreement: buffer `f` of token `d` is mapped, in the table of the FMAC layer and in that
     of the HAL, exactly when the token is in use and `f` is below its coalesce count.
     */
    lemma MapFlagsAgree(d: nat, f: nat)
      requires Valid() && Reachable(c, state) && d < c.numTokens && f < c.maxAgg
      ensures var i := d * c.maxAgg + f;
              && i < mapper.txBufInfo.Length == mapper.hal.txBufInfo.Length
              && (mapper.txBufInfo[i].mapped <==> d in state.pool.busy && f < mapper.coalesceCount[d])
              && (mapper.hal.txBufInfo[i].mapped <==> mapper.txBufInfo[i].mapped)
    {
      ReachableInv(c, state);
      HeldIffBusy(c, state, d);
      mapper.FlagsAgree(d, f);
    }
  }
}
