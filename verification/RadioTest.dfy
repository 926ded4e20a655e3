/**
 The configuration of the radio-test build: settings arrive one by one and are checked against what
 is stored.  A setting is a typed value here; ConfText says which branch its text selects.
 */
module RadioTest {
  // enum rpu_tput_mode, rpu_ch_bw and rpu_op_mode
  const LEGACY: nat := 0
  const HT: nat := 1
  const VHT: nat := 2
  const HE_SU: nat := 3
  const HE_ER_SU: nat := 4
  const TPUT_MODE_MAX: nat := 6
  const BW_20: nat := 0
  const BW_40: nat := 1
  const BW_MAX: nat := 2
  const MODE_RADIO_TEST: nat := 0
  const MODE_FCM: nat := 1
  const NONE: int := -1

  // -------------------------------------------------------------- channels

  /** The lower and the upper channels of the 40 MHz pairs in the 5 GHz bands. */
  predicate LowerOfPair(p: nat) { p in {36, 44, 52, 60, 100, 108, 116, 124, 132, 140, 149, 157} }
  predicate UpperOfPair(p: nat) { p in {40, 48, 56, 64, 104, 112, 120, 128, 136, 144, 153, 161} }

  predicate Band2G(p: nat) { 1 <= p <= 14 }

  /** check_valid_channel. */
  predicate CheckValidChannel(chan: nat) {
    || Band2G(chan)
    || chan in {36, 38, 40, 44, 46, 48, 52, 54, 56, 60, 62, 64}
    || chan in {100, 102, 104, 108, 110, 112, 116, 118, 120, 124, 126, 128, 132, 134, 136, 140, 142, 144}
    || chan in {149, 151, 153, 157, 159, 161, 165}
  }

  datatype Chan = Chan(primary: nat, bw: nat, sec20: int, sec40: int)

  predicate Sec20Ok5G(p: nat, sec20: int) {
    if sec20 == 1 then !UpperOfPair(p) else if sec20 == -1 then !LowerOfPair(p) else true
  }

  predicate Sec20Ok(p: nat, sec20: int) {
    if Band2G(p) then
      if p <= 4 then sec20 == 1 else if p >= 8 then sec20 == -1 else true
    else Sec20Ok5G(p, sec20)
  }

  /** check_channel_settings. */
  predicate CheckChannelSettings(tput: nat, ch: Chan) {
    if tput == LEGACY then
      ch.bw == BW_20 && ch.sec20 == 0 && ch.sec40 == 0
    else if tput == HT || tput == HE_SU || tput == HE_ER_SU then
      if ch.bw == BW_20 then ch.sec20 == 0 && ch.sec40 == 0
      else ch.bw == BW_40 && ch.sec40 == 0 && ch.sec20 != 0 && Sec20Ok(ch.primary, ch.sec20)
    else if tput == VHT then
      if Band2G(ch.primary) then false
      else if ch.bw == BW_20 then ch.sec20 == 0 && ch.sec40 == 0
      else ch.bw == BW_40 && ch.sec40 == 0 && ch.sec20 != 0 && Sec20Ok5G(ch.primary, ch.sec20)
    else false
  }

  /** Two channels that are bonded to 40 MHz. */
  predicate Bonded(lower: nat, upper: int) { LowerOfPair(lower) && upper == lower + 4 }

  /**
   In the 5 GHz bands a 40 MHz setting that passes names a real pair, unless its primary channel is
   in no pair at all: the centre channels and channel 165 pass with either neighbour.
   */
  lemma FortyMHzIff(tput: nat, ch: Chan)
    requires tput in {HT, VHT, HE_SU, HE_ER_SU} && CheckValidChannel(ch.primary) && !Band2G(ch.primary)
    requires ch.bw == BW_40 && ch.sec40 == 0 && ch.sec20 in {-1, 1}
    ensures CheckChannelSettings(tput, ch) <==>
              || (!LowerOfPair(ch.primary) && !UpperOfPair(ch.primary))
              || (ch.sec20 == 1 && Bonded(ch.primary, ch.primary + 4))
              || (ch.sec20 == -1 && ch.primary >= 4 && Bonded(ch.primary - 4, ch.primary))
  {
    var p := ch.primary;
    assert UpperOfPair(p) <==> p >= 4 && LowerOfPair(p - 4);
    assert !(LowerOfPair(p) && UpperOfPair(p));
  }

  /** The channels that exist: 1 to 14, and in the 5 GHz bands the pairs, their centres, and 165. */
  lemma ValidChannelIff(p: nat)
    ensures CheckValidChannel(p) <==>
              || 1 <= p <= 14
              || LowerOfPair(p) || (p >= 2 && LowerOfPair(p - 2)) || (p >= 4 && LowerOfPair(p - 4))
              || p == 165
  {
  }

  /** In the 2.4 GHz band a 40 MHz setting passes exactly when the second channel, four further up or down, is one of 1 to 11; and never in VHT. */
  lemma FortyMHz2GIff(tput: nat, ch: Chan)
    requires 1 <= ch.primary <= 14 && ch.bw == BW_40 && ch.sec40 == 0 && ch.sec20 in {-1, 1} && tput < TPUT_MODE_MAX
    ensures CheckChannelSettings(tput, ch) <==> tput in {HT, HE_SU, HE_ER_SU} && 1 <= ch.primary + 4 * ch.sec20 <= 11
  {
  }

  /** A 20 MHz setting passes exactly without a second channel, in every mode but the last, and for VHT in the 5 GHz bands only. */
  lemma TwentyMHzIff(tput: nat, ch: Chan)
    requires ch.bw == BW_20 && tput < TPUT_MODE_MAX
    ensures CheckChannelSettings(tput, ch) <==>
              ch.sec20 == 0 && ch.sec40 == 0 && tput <= HE_ER_SU && (tput == VHT ==> !(1 <= ch.primary <= 14))
  {
  }

  /** Forty MHz needs a second channel, no second 40 MHz offset, and a mode that bonds. */
  lemma FortyMHzNeeds(tput: nat, ch: Chan)
    requires ch.bw == BW_40 && CheckChannelSettings(tput, ch)
    ensures ch.sec20 != 0 && ch.sec40 == 0 && tput in {HT, VHT, HE_SU, HE_ER_SU}
  {
  }

  // ----------------------------------------------------------------- rates

  /** check_valid_data_rate; `w` is the rate as a 32-bit pattern, with bit 7 set for an MCS. */
  predicate CheckValidDataRate(tput: nat, nss: nat, w: nat) {
    if w == 0xFFFF_FFFF then true
    else if w / 128 % 2 == 1 then
      var dr := w % 128;
      if tput % 2 == 1 then (nss == 2 && 8 <= dr <= 15) || (nss == 1 && dr <= 7)
      else if tput == VHT then dr <= 9
      else if tput == HE_SU then dr <= 7
      else if tput == HE_ER_SU then dr <= 2
      else false
    else tput == LEGACY && w in {1, 2, 55, 11, 6, 9, 12, 18, 24, 36, 48, 54}
  }

  /** The pattern of `sval | 0x80`, and of `sval` as it is. */
  function Word(sval: int): nat { sval % 0x1_0000_0000 }
  function OrMcsFlag(w: nat): nat { if w / 128 % 2 == 1 then w else w + 128 }

  /** A signed char. */
  function S8(x: int): int { (x + 128) % 256 - 128 }

  /** The widths: 32 bits, bit 7 set, and a signed byte. */
  lemma Widths(x: int, k: int)
    ensures 0 <= x < 0x1_0000_0000 ==> Word(x) == x
    ensures -0x1_0000_0000 <= x < 0 ==> Word(x) == x + 0x1_0000_0000
    ensures 0 <= x < 128 ==> OrMcsFlag(x) == OrMcsFlag(x + 128) == x + 128
    ensures -128 <= x < 128 ==> S8(x) == x
    ensures S8(x + 256 * k) == S8(x)
  {
    SameByte256(x + 128, k);
  }

  lemma SameByte256(y: int, k: int)
    ensures (y + 256 * k) % 256 == y % 256
  {
    var q := y / 256;
    assert y + 256 * k == 256 * (q + k) + y % 256;
  }

  /**
   The mode is compared with HT bit by bit, so the rule for HE SU is never reached: its MCS are those
   of HT, which is the documented 0 to 7 exactly for one spatial stream.
   */
  lemma HeSuMcsIff(nss: nat, mcs: nat)
    requires nss in {1, 2} && mcs < 128
    ensures CheckValidDataRate(HE_SU, nss, OrMcsFlag(mcs)) == CheckValidDataRate(HT, nss, OrMcsFlag(mcs))
    ensures mcs <= 15 ==> ((CheckValidDataRate(HE_SU, nss, OrMcsFlag(mcs)) <==> mcs <= 7) <==> nss == 1)
  {
    assert OrMcsFlag(mcs) == mcs + 128 && (mcs + 128) % 128 == mcs && (mcs + 128) / 128 % 2 == 1;
  }

  /**
   The rates of each mode, as bytes with the MCS flag: legacy rates carry no flag; HT and HE SU have
   eight MCS a stream, VHT ten and HE ER SU three; and "not set" passes everywhere.
   */
  lemma RatesIff(tput: nat, nss: nat, w: nat)
    requires tput <= HE_ER_SU && nss in {1, 2} && w < 256
    ensures CheckValidDataRate(tput, nss, 0xFFFF_FFFF)
    ensures CheckValidDataRate(tput, nss, w) <==>
              if tput == LEGACY then w in {1, 2, 6, 9, 11, 12, 18, 24, 36, 48, 54, 55}
              else if tput == VHT then 128 <= w <= 137
              else if tput == HE_ER_SU then 128 <= w <= 130
              else if nss == 1 then 128 <= w <= 135
              else 136 <= w <= 143
  {
    FlagOfByte(w);
  }

  lemma FlagOfByte(w: nat)
    requires w < 256
    ensures w / 128 % 2 == (if w >= 128 then 1 else 0) && w % 128 == if w >= 128 then w - 128 else w
  {
  }

  /** A rate that passes is stored as "not set" only when it is. */
  lemma StoredRateIsSet(tput: nat, nss: nat, sval: int)
    requires CheckValidDataRate(tput, nss, Word(sval)) && S8(sval) == NONE
    ensures Word(sval) == 0xFFFF_FFFF
  {
    LowBits(sval);
  }

  lemma LowBits(sval: int)
    requires S8(sval) == NONE
    ensures Word(sval) % 128 == 127 && Word(sval) / 128 % 2 == 1
  {
    LowByte(sval);
    ByteOfWord(sval);
    BitsOf255(Word(sval));
  }

  lemma LowByte(sval: int)
    requires S8(sval) == NONE
    ensures sval % 256 == 255
  {
  }

  lemma ByteOfWord(sval: int)
    ensures Word(sval) % 256 == sval % 256
  {
    var w, q := Word(sval), sval / 0x1_0000_0000;
    SameByte(sval, w, 0x100_0000 * q);
  }

  lemma SameByte(x: int, y: nat, k: int)
    requires x == y + 256 * k
    ensures x % 256 == y % 256
  {
    var q := y / 256;
    assert x == 256 * (q + k) + y % 256;
  }

  lemma BitsOf255(w: nat)
    requires w % 256 == 255
    ensures w % 128 == 127 && w / 128 % 2 == 1
  {
    var q := w / 256;
    assert w == 128 * (2 * q + 1) + 127;
  }

  // ----------------------------------------------------------------- settings

  /** `nss`: the streams of the device; `txNss`: those of the packets sent. */
  datatype Conf = Conf(opMode: nat, tputMode: nat, nss: nat, txNss: nat, mcs: int, rate: int, chan: Chan, tx: bool, rx: bool)

  /** nrf_wifi_lnx_wlan_fmac_conf_init. */
  const CONF_INIT: Conf := Conf(MODE_RADIO_TEST, LEGACY, 1, 1, NONE, NONE, Chan(1, BW_20, 0, 0), false, false)

  datatype Setting =
    | Nss(v: nat) | TputMode(v: nat) | TxNss(v: nat) | Mcs(s: int) | Rate(s: int) | OpMode(v: nat)
    | Primary(v: nat) | Bw(v: nat) | Sec20(s: int) | Sec40(s: int) | SetTx(v: nat) | SetRx(v: nat)

  /** Neither direction is on; what FCM mode has stored for reception does not matter. */
  predicate Quiet(c: Conf) { !c.tx && !(c.opMode == MODE_RADIO_TEST && c.rx) }

  /** The settings that the branches of the handler accept. */
  predicate Allowed(c: Conf, s: Setting) {
    match s
    case SetTx(v) =>
      && v <= 1
      && (v == 1 && !c.tx ==>
            && Quiet(c) && CheckChannelSettings(c.tputMode, c.chan)
            && (c.rate == NONE || c.mcs == NONE))
      && (v == 1 && c.tx ==> !(c.opMode == MODE_RADIO_TEST && c.rx))
    case SetRx(v) => c.opMode == MODE_RADIO_TEST && v <= 1 && (v == 1 ==> !c.tx)
    case OpMode(v) => Quiet(c) && v in {MODE_RADIO_TEST, MODE_FCM}
    case TputMode(v) => Quiet(c) && v < TPUT_MODE_MAX
    case Nss(v) => Quiet(c) && v in {1, 2}
    case TxNss(v) => Quiet(c) && v in {1, 2} && v <= c.nss
    case Mcs(x) => Quiet(c) && c.rate == NONE && CheckValidDataRate(c.tputMode, c.txNss, OrMcsFlag(Word(x)))
    case Rate(x) => Quiet(c) && c.mcs == NONE && CheckValidDataRate(c.tputMode, c.txNss, Word(x))
    case Primary(v) => Quiet(c) && CheckValidChannel(v % 256)
    case Bw(v) => Quiet(c) && v < BW_MAX
    case Sec20(x) => Quiet(c) && c.chan.bw != BW_20 && (c.chan.bw in {1, 2} ==> x in {-1, 0, 1})
    case Sec40(x) => Quiet(c) && c.chan.bw !in {0, 1} && (c.chan.bw == 2 ==> x in {-1, 0, 1})
  }

  /** The configuration with one setting stored, in the width of its field. */
  function Store(c: Conf, s: Setting): Conf {
    match s
    case SetTx(v) => c.(tx := v == 1)
    case SetRx(v) => c.(rx := v == 1)
    case OpMode(v) => c.(opMode := v)
    case TputMode(v) => c.(tputMode := v)
    case Nss(v) => c.(nss := v)
    case TxNss(v) => c.(txNss := v)
    case Mcs(x) => c.(mcs := S8(x))
    case Rate(x) => c.(rate := S8(x))
    case Primary(v) => c.(chan := c.chan.(primary := v % 0x1_0000_0000))
    case Bw(v) => c.(chan := c.chan.(bw := v))
    case Sec20(x) => c.(chan := c.chan.(sec20 := x))
    case Sec40(x) => c.(chan := c.chan.(sec40 := x))
  }

  function Apply(c: Conf, s: Setting): Conf { if Allowed(c, s) then Store(c, s) else c }

  function ApplyAll(c: Conf, ss: seq<Setting>): Conf {
    if ss == [] then c else Apply(ApplyAll(c, ss[..|ss| - 1]), ss[|ss| - 1])
  }

  /**
   What the checks are for: transmission and reception exclude each other, a rate and an MCS exclude
   each other, FCM mode does not receive, and while transmitting the stored channel fits the mode.
   */
  predicate Safe(c: Conf) {
    && c.opMode in {MODE_RADIO_TEST, MODE_FCM}
    && !(c.tx && c.rx)
    && (c.rate == NONE || c.mcs == NONE)
    && (c.opMode == MODE_FCM ==> !c.rx)
    && (c.tx ==> CheckChannelSettings(c.tputMode, c.chan))
    && c.chan.bw < BW_MAX && c.chan.sec40 == 0 && c.chan.sec20 in {-1, 0, 1}
  }

  lemma ApplySafe(c: Conf, s: Setting)
    requires Safe(c)
    ensures Safe(Apply(c, s))
  {
  }

  /** Every sequence of settings leaves a safe configuration. */
  lemma {:induction false} ConfigurationSafe(ss: seq<Setting>)
    ensures Safe(ApplyAll(CONF_INIT, ss))
  {
    if ss != [] {
      ConfigurationSafe(ss[..|ss| - 1]);
      ApplySafe(ApplyAll(CONF_INIT, ss[..|ss| - 1]), ss[|ss| - 1]);
    }
  }

  /** While packets are sent, or received outside FCM mode, only transmission and reception can be switched. */
  lemma BusyRefuses(c: Conf, s: Setting)
    requires (c.tx || (c.opMode == MODE_RADIO_TEST && c.rx)) && Allowed(c, s)
    ensures s.SetTx? || s.SetRx?
  {
  }

  /** When nothing is on, every value in range is accepted for the settings that depend on nothing else; a rate and an MCS exclude each other. */
  lemma QuietAccepts(c: Conf, v: nat)
    requires !c.tx && !c.rx
    ensures Allowed(c, OpMode(v)) <==> v in {MODE_RADIO_TEST, MODE_FCM}
    ensures Allowed(c, TputMode(v)) <==> v < 6
    ensures Allowed(c, Nss(v)) <==> v in {1, 2}
    ensures Allowed(c, TxNss(v)) <==> v in {1, 2} && v <= c.nss
    ensures Allowed(c, Bw(v)) <==> v in {BW_20, BW_40}
    ensures Allowed(c, Primary(v)) <==> CheckValidChannel(v % 256)
    ensures Allowed(c, SetRx(v)) <==> c.opMode == MODE_RADIO_TEST && v in {0, 1}
    ensures Allowed(c, SetTx(v)) <==>
              v == 0 || (v == 1 && CheckChannelSettings(c.tputMode, c.chan) && (c.rate == NONE || c.mcs == NONE))
  {
  }

  /** An offset of the second channel is accepted exactly for 40 MHz, and is then one of the three values. */
  lemma Sec20Iff(c: Conf, x: int)
    requires !c.tx && !c.rx && c.chan.bw < BW_MAX
    ensures Allowed(c, Sec20(x)) <==> c.chan.bw == BW_40 && x in {-1, 0, 1}
  {
  }

  /** No sequence of settings gets a second 40 MHz offset accepted: its check admits no bandwidth there is. */
  lemma {:induction false} Sec40NeverAllowed(ss: seq<Setting>, x: int)
    ensures !Allowed(ApplyAll(CONF_INIT, ss), Sec40(x))
  {
    ConfigurationSafe(ss);
  }

  /**
   The channel number is checked in eight bits and stored in thirty-two: an accepted one is stored as
   a channel that exists exactly when it fits in eight.
   */
  lemma StoredChannelValidIff(c: Conf, v: nat)
    requires Allowed(c, Primary(v)) && v < 0x1_0000_0000
    ensures CheckValidChannel(Store(c, Primary(v)).chan.primary) <==> v < 256
  {
    if v < 256 { assert v % 256 == v; }
  }

  // ----------------------------------------------------- the debugfs handler

  class RadioConf {
    var conf: Conf

    constructor ()
      ensures conf == CONF_INIT
      ensures conf.opMode == MODE_RADIO_TEST && conf.tputMode == LEGACY && conf.nss == conf.txNss == 1
      ensures conf.mcs == conf.rate == -1 && conf.chan == Chan(1, BW_20, 0, 0) && !conf.tx && !conf.rx
    {
      conf := CONF_INIT;
    }

    /** The two guards that most settings share. */
    method GuardQuiet() returns (ok: bool)
      ensures ok <==> Quiet(conf)
    {
      if conf.opMode == MODE_RADIO_TEST {
        if conf.rx {
          return false;
        }
      }
      if conf.tx {
        return false;
      }
      ok := true;
    }

    /** The setting `tx=1`, in the order of the source; programming the RPU succeeds. */
    method TxOn() returns (ok: bool)
      modifies this
      ensures ok <==> Allowed(old(conf), SetTx(1))
      ensures conf == Apply(old(conf), SetTx(1))
    {
      if conf.opMode == MODE_RADIO_TEST && conf.rx {
        return false;
      }
      if conf.tx {
        return true;
      }
      if conf.chan.sec20 != 0 {
        if conf.chan.bw <= 0 {
          return false;
        }
      }
      if conf.chan.sec40 != 0 {
        if conf.chan.bw != 2 {
          return false;
        }
      }
      if conf.chan.bw == 0 {
        if conf.chan.sec20 != 0 {
          assert false;  // the check above has seen to that
        }
        if conf.chan.sec40 != 0 {
          assert false;
        }
      }
      if !CheckChannelSettings(conf.tputMode, conf.chan) {
        return false;
      }
      if conf.rate != NONE && conf.mcs != NONE {
        return false;
      }
      conf := conf.(tx := true);
      ok := true;
    }

    /** One branch of nrf_wifi_lnx_wlan_fmac_conf_write. */
    method Write(s: Setting) returns (ok: bool)
      modifies this
      ensures ok <==> Allowed(old(conf), s)
      ensures conf == Apply(old(conf), s)
      ensures old(Safe(conf)) ==> Safe(conf)
    {
      if old(Safe(conf)) { ApplySafe(conf, s); }
      var quiet := GuardQuiet();
      match s
      case SetTx(v) =>
        if v > 1 { return false; }
        if v == 1 {
          ok := TxOn();
        } else {
          conf := conf.(tx := false);
          ok := true;
        }
      case SetRx(v) =>
        if conf.opMode != MODE_RADIO_TEST { return false; }
        if v > 1 { return false; }
        if v == 1 && conf.tx { return false; }
        conf := conf.(rx := v == 1);
        ok := true;
      case OpMode(v) =>
        if v != MODE_RADIO_TEST && v != MODE_FCM { return false; }
        if !quiet { return false; }
        conf := conf.(opMode := v);
        ok := true;
      case TputMode(v) =>
        if v >= TPUT_MODE_MAX { return false; }
        if !quiet { return false; }
        conf := conf.(tputMode := v);
        ok := true;
      case Nss(v) =>
        if v != 1 && v != 2 { return false; }
        if !quiet { return false; }
        conf := conf.(nss := v);
        ok := true;
      case TxNss(v) =>
        if v != 1 && v != 2 { return false; }
        if !quiet { return false; }
        if v > conf.nss { return false; }
        conf := conf.(txNss := v);
        ok := true;
      case Mcs(x) =>
        if !quiet { return false; }
        if conf.rate != NONE { return false; }
        if !CheckValidDataRate(conf.tputMode, conf.txNss, OrMcsFlag(Word(x))) { return false; }
        conf := conf.(mcs := S8(x));
        ok := true;
      case Rate(x) =>
        if !quiet { return false; }
        if conf.mcs != NONE { return false; }
        if !CheckValidDataRate(conf.tputMode, conf.txNss, Word(x)) { return false; }
        conf := conf.(rate := S8(x));
        ok := true;
      case Primary(v) =>
        if !CheckValidChannel(v % 256) { return false; }
        if !quiet { return false; }
        conf := conf.(chan := conf.chan.(primary := v % 0x1_0000_0000));
        ok := true;
      case Bw(v) =>
        if v >= BW_MAX { return false; }
        if !quiet { return false; }
        conf := conf.(chan := conf.chan.(bw := v));
        ok := true;
      case Sec20(x) =>
        if !quiet { return false; }
        if conf.chan.bw == BW_20 { return false; }
        if (conf.chan.bw == 1 || conf.chan.bw == 2) && x != -1 && x != 1 && x != 0 { return false; }
        conf := conf.(chan := conf.chan.(sec20 := x));
        ok := true;
      case Sec40(x) =>
        if !quiet { return false; }
        if conf.chan.bw == 0 || conf.chan.bw == 1 { return false; }
        if conf.chan.bw == 2 && x != -1 && x != 1 && x != 0 { return false; }
        conf := conf.(chan := conf.chan.(sec40 := x));
        ok := true;
    }
  }
}
