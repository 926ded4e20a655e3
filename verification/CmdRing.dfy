/**
 The transmit half of the soft HPQM: the host writes the address of each TX command into a ring of
 HOST_RPU_TX_DESC words and advances an index that wraps; the RPU follows with its own index.
 */
module CmdRing {
  import opened Basics
  import opened TxConfig

  /** One entry of tx_buff_info: where the frame is, as the RPU sees it, and its length. */
  datatype BufRef = BufRef(addr: nat, len: nat)

  /** The parts of a TX command that depend on the state of the driver. */
  datatype Cmd = Cmd(desc: nat, dest: seq<byte>, src: seq<byte>, bufs: seq<BufRef>,
                     emergency: bool, more: bool, eosp: bool)

  // Packed sizes in bytes: host_rpu_msg and nrf_wifi_tx_buff, and nrf_wifi_tx_buff_info for each frame.
  const TX_CMD_HEAD: nat := 12 + 41
  const TX_BUFF_INFO_LEN: nat := 6

  /** The bytes of the command for `n` frames. */
  function CmdLen(n: nat): nat { TX_CMD_HEAD + TX_BUFF_INFO_LEN * n }

  function Len(cmd: Cmd): nat { CmdLen(|cmd.bufs|) }

  /**
   `cmds`: the commands in command memory, by the address of their first byte, that are still whole;
   `host` and `rpu` are the two indices.
   */
  datatype Ring = Ring(slots: seq<nat>, host: nat, rpu: nat, cmds: map<nat, Cmd>)

  /** `m` bytes at `a` and `n` bytes at `b` have one in common. */
  predicate Overlap(a: nat, m: nat, b: nat, n: nat) { a < b + n && b < a + m }

  /** Command memory after a command has been written at `addr`: what its bytes fall on is damaged. */
  function Written(cmds: map<nat, Cmd>, addr: nat, cmd: Cmd): map<nat, Cmd> {
    (map a | a in cmds && !Overlap(a, Len(cmds[a]), addr, Len(cmd)) :: cmds[a])[addr := cmd]
  }

  /** An index that wraps. */
  function Wrap(m: nat, i: nat): nat { if i + 1 == m then 0 else i + 1 }

  function Next(c: Config, i: nat): nat { Wrap(c.ringSize, i) }

  /** nrf_wifi_hal_data_cmd_send for a TX command. */
  function Post(c: Config, r: Ring, cmd: Cmd): Ring
    requires r.host < |r.slots|
  {
    var addr := c.CmdAddr(cmd.desc);
    r.(cmds := Written(r.cmds, addr, cmd), slots := r.slots[r.host := addr], host := Next(c, r.host))
  }

  /** The command that the RPU reads next; none when it is damaged. */
  function Peek(r: Ring): Option<Cmd>
    requires r.rpu < |r.slots|
  {
    var addr := r.slots[r.rpu];
    if addr in r.cmds then Some(r.cmds[addr]) else None
  }

  function Advance(c: Config, r: Ring): Ring { r.(rpu := Next(c, r.rpu)) }

  /** The bytes of command `x` fall on those of command `y`. */
  predicate Clash(c: Config, x: Cmd, y: Cmd) { Overlap(c.CmdAddr(x.desc), Len(x), c.CmdAddr(y.desc), Len(y)) }

  /** No command posted after number `i` was written over it. */
  ghost predicate Undisturbed(c: Config, posted: seq<Cmd>, i: nat)
    requires i < |posted|
  {
    forall j | i < j < |posted| :: !Clash(c, posted[j], posted[i])
  }

  /**
   `posted` are the commands written so far, of which the RPU has read `taken`.  The rest are still
   in the ring, in order, and those that no later one disturbed are unchanged.
   */
  ghost predicate InStep(c: Config, r: Ring, posted: seq<Cmd>, taken: nat) {
    && c.Valid()
    && |r.slots| == c.ringSize
    && taken <= |posted| <= taken + c.ringSize
    && r.host == |posted| % c.ringSize && r.rpu == taken % c.ringSize
    && (forall i | taken <= i < |posted| :: Holds(c, r, posted, i))
  }

  ghost predicate Holds(c: Config, r: Ring, posted: seq<Cmd>, i: nat)
    requires 0 < c.ringSize == |r.slots| && i < |posted|
  {
    var addr := c.CmdAddr(posted[i].desc);
    && r.slots[i % c.ringSize] == addr
    && (addr in r.cmds <==> Undisturbed(c, posted, i))
    && (addr in r.cmds ==> r.cmds[addr] == posted[i])
  }

  lemma WrapMod(m: nat, n: nat)
    requires 0 < m
    ensures Wrap(m, n % m) == (n + 1) % m
  {
    var q, k := n / m, n % m;
    assert n == m * q + k;
    if k + 1 == m {
      assert n + 1 == m * (q + 1);
      ModIs(m, q + 1, 0);
    } else {
      assert n + 1 == m * q + (k + 1);
      ModIs(m, q, k + 1);
    }
  }

  lemma {:induction false} ModIs(m: nat, q: nat, k: nat)
    requires k < m
    ensures (m * q + k) % m == k
  {
    var n := m * q + k;
    var q', k' := n / m, n % m;
    assert n == m * q' + k';
    if q' < q {
      assert m * (q' + 1) == m * q' + m;
      Scale(m, q' + 1, q);
    } else if q < q' {
      assert m * (q + 1) == m * q + m;
      Scale(m, q + 1, q');
    }
  }

  /** Two positions closer than the ring is long use different slots. */
  lemma SlotsDiffer(m: nat, i: nat, j: nat)
    requires i < j < i + m
    ensures i % m != j % m
  {
    if i % m == j % m {
      var a, b := i / m, j / m;
      assert i == m * a + i % m && j == m * b + j % m;
      assert m * (a + 1) == m * a + m;
      if b <= a { Scale(m, b, a); } else { Scale(m, a + 1, b); }
    }
  }

  lemma UndisturbedStep(c: Config, posted: seq<Cmd>, cmd: Cmd, i: nat)
    requires i < |posted|
    ensures Undisturbed(c, posted + [cmd], i) <==> Undisturbed(c, posted, i) && !Clash(c, cmd, posted[i])
  {
    var posted' := posted + [cmd];
    if Undisturbed(c, posted', i) {
      assert posted'[|posted|] == cmd;
      forall j | i < j < |posted| ensures !Clash(c, posted[j], posted[i]) { assert posted'[j] == posted[j]; }
    }
  }

  lemma PostHolds(c: Config, r: Ring, posted: seq<Cmd>, cmd: Cmd, i: nat)
    requires c.Valid() && |r.slots| == c.ringSize && r.host == |posted| % c.ringSize
    requires i < |posted| < i + c.ringSize && Holds(c, r, posted, i) && posted[i].desc != cmd.desc
    ensures Holds(c, Post(c, r, cmd), posted + [cmd], i)
  {
    SlotsDiffer(c.ringSize, i, |posted|);
    CmdAddrInjective(c, posted[i].desc, cmd.desc);
    UndisturbedStep(c, posted, cmd, i);
  }

  /**
   Posting with room in the ring keeps every unread entry, and every unread command of another token
   but those that the bytes of the new one fall on.
   */
  lemma PostInStep(c: Config, r: Ring, posted: seq<Cmd>, taken: nat, cmd: Cmd)
    requires InStep(c, r, posted, taken)
    requires |posted| < taken + c.ringSize
    requires forall i | taken <= i < |posted| :: posted[i].desc != cmd.desc
    ensures InStep(c, Post(c, r, cmd), posted + [cmd], taken)
  {
    var r', posted' := Post(c, r, cmd), posted + [cmd];
    WrapMod(c.ringSize, |posted|);
    forall i | taken <= i < |posted'| ensures Holds(c, r', posted', i) {
      if i < |posted| {
        PostHolds(c, r, posted, cmd, i);
      }
    }
  }

  lemma AdvanceInStep(c: Config, r: Ring, posted: seq<Cmd>, taken: nat)
    requires InStep(c, r, posted, taken) && taken < |posted|
    ensures Peek(r) == if Undisturbed(c, posted, taken) then Some(posted[taken]) else None
    ensures InStep(c, Advance(c, r), posted, taken + 1)
  {
    assert Holds(c, r, posted, taken);
    WrapMod(c.ringSize, taken);
    forall i | taken + 1 <= i < |posted| ensures Holds(c, Advance(c, r), posted, i) {
      assert Holds(c, r, posted, i);
    }
  }

  /** Command slots begin `cmdSize` bytes apart, so a command falls on a later one exactly when it is longer than the slots between. */
  lemma ClashIff(c: Config, x: Cmd, y: Cmd)
    requires x.desc < y.desc
    ensures Clash(c, x, y) <==> c.cmdSize * (y.desc - x.desc) < Len(x)
    ensures Clash(c, y, x) <==> Clash(c, x, y)
  {
    assert c.cmdSize * y.desc == c.cmdSize * x.desc + c.cmdSize * (y.desc - x.desc);
  }

  /** Commands that stay in their slots do not fall on one another. */
  lemma SlotsApart(c: Config, x: Cmd, y: Cmd)
    requires x.desc != y.desc && Len(x) <= c.cmdSize && Len(y) <= c.cmdSize
    ensures !Clash(c, x, y)
  {
    if x.desc < y.desc {
      ClashIff(c, x, y);
      Scale(c.cmdSize, 1, y.desc - x.desc);
    } else {
      ClashIff(c, y, x);
      Scale(c.cmdSize, 1, x.desc - y.desc);
    }
  }

  /** The ring and the command slots in device memory. */
  class SoftHpq {
    const c: Config
    const txCmdBuffs: array<nat>
    var hostTxCmdBusyIndex: nat
    var rpuTxCmdBusyIndex: nat
    var cmdMem: map<nat, Cmd>

    ghost predicate Valid()
      reads this, txCmdBuffs
    {
      && c.Valid()
      && txCmdBuffs.Length == c.ringSize
      && hostTxCmdBusyIndex < c.ringSize && rpuTxCmdBusyIndex < c.ringSize
    }

    ghost function Abs(): Ring
      reads this, txCmdBuffs
    {
      Ring(txCmdBuffs[..], hostTxCmdBusyIndex, rpuTxCmdBusyIndex, cmdMem)
    }

    constructor (c: Config)
      requires c.Valid()
      ensures Valid() && this.c == c && fresh(txCmdBuffs)
      ensures InStep(c, Abs(), [], 0) && Abs().host == Abs().rpu == 0
    {
      this.c := c;
      txCmdBuffs := new nat[c.ringSize](_ => 0);
      hostTxCmdBusyIndex, rpuTxCmdBusyIndex, cmdMem := 0, 0, map[];
    }

    method DataCmdSend(cmd: Cmd)
      requires Valid()
      modifies this`cmdMem, this`hostTxCmdBusyIndex, txCmdBuffs
      ensures Valid() && Abs() == Post(c, old(Abs()), cmd)
    {
      var addr := c.cmdBase + c.cmdSize * cmd.desc;
      cmdMem := Written(cmdMem, addr, cmd);
      var currentIndex := hostTxCmdBusyIndex;
      txCmdBuffs[currentIndex] := addr;
      currentIndex := currentIndex + 1;
      if currentIndex == c.ringSize {
        currentIndex := 0;
      }
      hostTxCmdBusyIndex := currentIndex;
    }

    /** The RPU's half: look up the next entry and advance its own index. */
    method RpuNext() returns (cmd: Option<Cmd>)
      requires Valid()
      modifies this`rpuTxCmdBusyIndex
      ensures Valid() && Abs() == Advance(c, old(Abs())) && cmd == Peek(old(Abs()))
    {
      var addr := txCmdBuffs[rpuTxCmdBusyIndex];
      cmd := if addr in cmdMem then Some(cmdMem[addr]) else None;
      rpuTxCmdBusyIndex := if rpuTxCmdBusyIndex + 1 == c.ringSize then 0 else rpuTxCmdBusyIndex + 1;
    }
  }
}
