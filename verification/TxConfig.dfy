/** Constants, configuration and network buffers of the transmit path. */
module TxConfig {
  import opened Basics

  // Access categories, in the order of the firmware interface.
  const AC_BK: nat := 0
  const AC_BE: nat := 1
  const AC_VI: nat := 2
  const AC_VO: nat := 3
  const AC_MC: nat := 4
  const AC_MAX: nat := 5

  const MAX_PEERS: nat := 5
  const MAX_SW_PEERS: nat := 6
  const FLOWS: nat := 30

  const ETH_ADDR_LEN: nat := 6
  const ETH_HDR_LEN: nat := 14
  const TWT_EMERGENCY: nat := 0xFF
  const ALIGN_OVERHEAD: nat := 6
  const UINT_MAX: nat := 0xFFFF_FFFF

  /** A network buffer: `slack` is what follows the frame in the buffer, which a rounded-up copy also reads. */
  datatype Nbuf = Nbuf(id: nat, data: seq<byte>, slack: seq<byte>, priority: nat)

  /** A buffer that the transmit entry point did not reject as shorter than an Ethernet header. */
  type Frame = f: Nbuf | |f.data| >= ETH_HDR_LEN && |f.slack| == 3
    witness Nbuf(0, [0, 0, 0, 0, 0, 0, 0, 0, 0, 0, 0, 0, 0, 0], [0, 0, 0], 0)

  function Dest(f: Frame): seq<byte> { f.data[..ETH_ADDR_LEN] }
  function Src(f: Frame): seq<byte> { f.data[ETH_ADDR_LEN..2 * ETH_ADDR_LEN] }
  predicate SameAddrs(f: Frame, g: Frame) { Dest(f) == Dest(g) && Src(f) == Src(g) }

  /** Destination and source are the first twelve bytes of a frame, in this order. */
  lemma AddrBytes(f: Frame, g: Frame)
    ensures Dest(f) == f.data[0..6] && Src(f) == f.data[6..12]
    ensures SameAddrs(f, g) <==> f.data[0..12] == g.data[0..12]
  {
    assert f.data[0..12] == f.data[0..6] + f.data[6..12] && g.data[0..12] == g.data[0..6] + g.data[6..12];
    assert f.data[0..12][0..6] == f.data[0..6] && f.data[0..12][6..12] == f.data[6..12];
    assert g.data[0..12][0..6] == g.data[0..6] && g.data[0..12][6..12] == g.data[6..12];
  }

  predicate Emergency(f: Frame) { f.priority == TWT_EMERGENCY }

  /** The row-major index of the pending queue of a (peer, access category) pair. */
  function Flow(peer: nat, ac: nat): (k: nat)
    requires peer < MAX_SW_PEERS && ac < AC_MAX
    ensures k < FLOWS && PeerOf(k) == peer && AcOf(k) == ac
  {
    peer * AC_MAX + ac
  }
  function PeerOf(k: nat): nat { k / AC_MAX }
  function AcOf(k: nat): nat { k % AC_MAX }

  datatype Config = Config(
    numTokens: nat,   // CONFIG_NRF700X_MAX_TX_TOKENS
    maxAgg: nat,      // max_tx_aggregation
    pendLimit: nat,   // CONFIG_NRF700X_MAX_TX_PENDING_QLEN
    tokenLen: nat,    // max_ampdu_len_per_token
    headroom: nat,    // tx_buf_headroom_sz
    maxFrm: nat,      // max_tx_frm_sz
    base: nat,        // addr_rpu_pktram_base
    rxStart: nat,     // offset of the first RX pool in data RAM
    ramSize: nat,     // RPU_DATA_RAM_SIZE
    ringSize: nat,    // HOST_RPU_TX_DESC
    cmdBase: nat,     // rpu_info.tx_cmd_base
    cmdSize: nat)     // RPU_DATA_CMD_SIZE_MAX_TX
  {
    function PerAc(): nat { numTokens / AC_MAX }
    function Reserved(): nat { PerAc() * AC_MAX }
    function Spares(): nat { numTokens % AC_MAX }

    /** avail_ampdu_len_per_token, which the aggregator reads as a signed number. */
    function Avail(): int { tokenLen - ALIGN_OVERHEAD * maxAgg }

    ghost predicate Valid() {
      && AC_MAX <= numTokens < 256
      && 1 <= maxAgg < 256
      && tokenLen % 4 == 0
      && headroom + ETH_HDR_LEN <= maxFrm
      && maxFrm + 3 <= tokenLen
      && numTokens * tokenLen <= rxStart <= ramSize
      && base % 4 == 0 && 0 < base
      && numTokens <= ringSize
      && 0 < cmdSize
    }

    /** The copy of a frame of this size is not refused by the bounce-buffer mapper. */
    predicate Mappable(f: Frame) { |f.data| + headroom <= maxFrm }

    function TokenBase(d: nat): nat { d * tokenLen }
    function CmdAddr(d: nat): nat { cmdBase + cmdSize * d }
  }

  lemma Scale(n: nat, a: nat, b: nat)
    requires a <= b
    ensures n * a <= n * b
  {
    assert n * b == n * a + n * (b - a);
  }

  lemma TokenSplit(c: Config)
    ensures c.Reserved() + c.Spares() == c.numTokens && c.Spares() < AC_MAX
    ensures c.numTokens >= AC_MAX ==> 1 <= c.PerAc() && AC_MAX <= c.Reserved()
  {
  }

  lemma CmdAddrInjective(c: Config, d: nat, e: nat)
    requires 0 < c.cmdSize && d != e
    ensures c.CmdAddr(d) != c.CmdAddr(e)
  {
    var lo, hi := if d < e then d else e, if d < e then e else d;
    Scale(c.cmdSize, lo + 1, hi);
    assert c.cmdSize * (lo + 1) == c.cmdSize * lo + c.cmdSize;
  }

  /** Tokens own disjoint regions, all of them below the RX pools. */
  lemma TokenRegions(c: Config, d: nat, e: nat)
    requires d < e
    ensures c.TokenBase(d) + c.tokenLen <= c.TokenBase(e)
  {
    Scale(c.tokenLen, d + 1, e);
    assert c.tokenLen * (d + 1) == c.tokenLen * d + c.tokenLen;
  }

  lemma TokenRegionInRam(c: Config, d: nat)
    requires c.Valid() && d < c.numTokens
    ensures c.TokenBase(d) + c.tokenLen <= c.rxStart <= c.ramSize
    ensures c.TokenBase(d) % 4 == 0
  {
    TokenRegions(c, d, c.numTokens);
    var q := c.tokenLen / 4;
    assert c.tokenLen == 4 * q;
    assert d * c.tokenLen == 4 * (d * q);
  }

  /**
   The token size computed once at load time: the data RAM that the RX buffers leave, divided
   among the tokens and rounded down to a word.  The tokens fit below the RX buffers, and no larger
   word-aligned size would.
   */
  method TokenBudget(ramSize: nat, rxBufs: nat, rxSize: nat, tokens: nat, maxAgg: nat)
    returns (maxLen: nat, avail: int)
    requires 0 < tokens && rxBufs * rxSize <= ramSize
    ensures maxLen % 4 == 0
    ensures tokens * maxLen <= ramSize - rxBufs * rxSize < tokens * (maxLen + 4)
    ensures avail == maxLen - ALIGN_OVERHEAD * maxAgg
  {
    var room := ramSize - rxBufs * rxSize;
    maxLen := room / tokens;
    ghost var exact := maxLen;
    maxLen := maxLen - maxLen % 4;
    avail := maxLen - ALIGN_OVERHEAD * maxAgg;
    assert room == tokens * exact + room % tokens;
    Scale(tokens, maxLen, exact);
    Scale(tokens, exact + 1, maxLen + 4);
    assert tokens * (exact + 1) == tokens * exact + tokens;
  }
}
