/**
 Which branch of the debugfs handler the text of a command selects: the first whose key occurs in the
 text, wherever it occurs, provided the number after the first `=` parses.
 */
module ConfText {
  import opened RadioTest

  /** A key without its `=`. */
  function Name(s: Setting): string {
    match s
    case Nss(_) => "nss"
    case TputMode(_) => "tx_pkt_tput_mode"
    case TxNss(_) => "tx_pkt_nss"
    case Mcs(_) => "tx_pkt_mcs"
    case Rate(_) => "tx_pkt_rate"
    case OpMode(_) => "op_mode"
    case Primary(_) => "chnl_primary"
    case Bw(_) => "chnl_bw"
    case Sec20(_) => "chnl_sec_20_offset"
    case Sec40(_) => "chnl_sec_40_offset"
    case SetTx(_) => "tx"
    case SetRx(_) => "rx"
  }

  /** The order in which the handler looks for the keys. */
  function Rank(s: Setting): nat {
    match s
    case Nss(_) => 0
    case TputMode(_) => 1
    case TxNss(_) => 2
    case Mcs(_) => 3
    case Rate(_) => 4
    case OpMode(_) => 5
    case Primary(_) => 6
    case Bw(_) => 7
    case Sec20(_) => 8
    case Sec40(_) => 9
    case SetTx(_) => 10
    case SetRx(_) => 11
  }

  ghost predicate OccursAt(text: string, key: string, i: nat) {
    i + |key| <= |text| && text[i..i + |key|] == key
  }

  /** strstr. */
  ghost predicate Occurs(text: string, key: string) { exists i :: OccursAt(text, key, i) }

  /** The branch of setting `s` is the first whose key occurs in the text. */
  ghost predicate Selects(text: string, s: Setting) {
    Occurs(text, Name(s) + "=") && forall r: Setting | Rank(r) < Rank(s) :: !Occurs(text, Name(r) + "=")
  }

  predicate EndsWith(name: string, key: string) { |key| <= |name| && name[|name| - |key|..] == key }

  lemma OccursAtEnd(name: string, value: string, key: string)
    requires EndsWith(name, key)
    ensures Occurs(name + "=" + value, key + "=")
  {
    var text, i := name + "=" + value, |name| - |key|;
    assert text[i..|name|] == name[i..] && text[|name|] == '=';
    assert text[i..i + |key + "="|] == key + "=";
    assert OccursAt(text, key + "=", i);
  }

  lemma OccursOnlyThere(name: string, value: string, key: string, i: nat)
    requires '=' !in name && '=' !in value && OccursAt(name + "=" + value, key + "=", i)
    ensures EndsWith(name, key)
  {
    var text, k := name + "=" + value, key + "=";
    assert text[i..i + |k|][|key|] == text[i + |key|] && k[|key|] == '=';
    EqualsAt(name, value, i + |key|);
    assert text[i..i + |k|][..|key|] == name[i..] && k[..|key|] == key;
  }

  /** The text `name=value`, for a number `value`, holds a key exactly when the name ends with it. */
  lemma OccursIff(name: string, value: string, key: string)
    requires '=' !in name && '=' !in value
    ensures Occurs(name + "=" + value, key + "=") <==> EndsWith(name, key)
  {
    if EndsWith(name, key) {
      OccursAtEnd(name, value, key);
    }
    if Occurs(name + "=" + value, key + "=") {
      var i: nat :| OccursAt(name + "=" + value, key + "=", i);
      OccursOnlyThere(name, value, key, i);
    }
  }

  lemma EqualsAt(name: string, value: string, i: nat)
    requires '=' !in name && '=' !in value
    requires i < |name + "=" + value| && (name + "=" + value)[i] == '='
    ensures i == |name|
  {
  }

  lemma SameEnd(n: string, m: string, i: nat)
    requires 0 < i <= |m| <= |n|
    ensures EndsWith(n, m) ==> m[|m| - i] == n[|n| - i]
  {
  }

  lemma DifferentEnds(n: string, m: string)
    requires |n| >= 2 && |m| >= 2 && (n[|n| - 2], n[|n| - 1]) != (m[|m| - 2], m[|m| - 1])
    ensures !EndsWith(n, m)
  {
    if |m| <= |n| {
      SameEnd(n, m, 1);
      SameEnd(n, m, 2);
    }
  }

  /** The last letter of a name and the one before tell most names apart. */
  function Ending(s: Setting): (char, char) {
    match s
    case Nss(_) => ('s', 's')
    case TputMode(_) => ('d', 'e')
    case TxNss(_) => ('s', 's')
    case Mcs(_) => ('c', 's')
    case Rate(_) => ('t', 'e')
    case OpMode(_) => ('d', 'e')
    case Primary(_) => ('r', 'y')
    case Bw(_) => ('b', 'w')
    case Sec20(_) => ('e', 't')
    case Sec40(_) => ('e', 't')
    case SetTx(_) => ('t', 'x')
    case SetRx(_) => ('r', 'x')
  }

  lemma EndingOf(s: Setting)
    ensures var n := Name(s); |n| >= 2 && (n[|n| - 2], n[|n| - 1]) == Ending(s)
  {
  }

  lemma SharedEnding(r: Setting, s: Setting)
    requires Rank(r) < Rank(s) && Ending(r) == Ending(s)
    ensures EndsWith(Name(s), Name(r)) <==> r.Nss? && s.TxNss?
  {
    if r.Sec20? { SameEnd(Name(s), Name(r), 9); }
  }

  lemma Endings(r: Setting, s: Setting)
    requires Rank(r) < Rank(s)
    ensures EndsWith(Name(s), Name(r)) <==> r.Nss? && s.TxNss?
  {
    if Ending(r) == Ending(s) {
      SharedEnding(r, s);
    } else {
      EndingOf(r);
      EndingOf(s);
      DifferentEnds(Name(s), Name(r));
    }
  }

  lemma NoEqualsInNames(s: Setting)
    ensures '=' !in Name(s)
  {
  }

  /** A text that names a setting selects its branch, except that `tx_pkt_nss=` is taken for `nss=`. */
  lemma SelectedIff(s: Setting, value: string)
    requires '=' !in value
    ensures Selects(Name(s) + "=" + value, s) <==> !s.TxNss?
    ensures s.TxNss? ==> Selects(Name(s) + "=" + value, Nss(s.v))
  {
    forall r: Setting
      ensures Occurs(Name(s) + "=" + value, Name(r) + "=") <==> EndsWith(Name(s), Name(r))
    {
      NoEqualsInNames(s);
      OccursIff(Name(s), value, Name(r));
    }
    assert EndsWith(Name(s), Name(s));
    forall r: Setting | Rank(r) < Rank(s)
      ensures EndsWith(Name(s), Name(r)) <==> r.Nss? && s.TxNss?
    {
      Endings(r, s);
    }
    if s.TxNss? { assert Rank(Nss(s.v)) < Rank(s); }
  }

  lemma NssInside(text: string, v: nat)
    requires Occurs(text, Name(TxNss(v)) + "=")
    ensures Occurs(text, Name(Nss(v)) + "=")
  {
    var key := Name(TxNss(v)) + "=";
    var i: nat :| OccursAt(text, key, i);
    assert text[i + 7..i + 11] == text[i..i + |key|][7..11];
    assert key[7..11] == Name(Nss(v)) + "=";
    assert OccursAt(text, Name(Nss(v)) + "=", i + 7);
  }

  /** Whatever the text, the branch for `tx_pkt_nss=` is not the one selected. */
  lemma TxNssTakenForNss(text: string, v: nat)
    ensures !Selects(text, TxNss(v))
  {
    if Occurs(text, Name(TxNss(v)) + "=") {
      NssInside(text, v);
      assert Rank(Nss(v)) < Rank(TxNss(v));
    }
  }

  // ------------------------------------------------------------- runs of texts

  /** What the handler makes of a text: the branch that it selects runs, for some number, or none does. */
  ghost predicate Handles(c: Conf, text: string, c': Conf) {
    c' == c || exists s :: Selects(text, s) && c' == Apply(c, s)
  }

  /** The configurations in `cs` follow one another by the texts in `texts`. */
  ghost predicate TextRun(cs: seq<Conf>, texts: seq<string>) {
    && |cs| == |texts| + 1 && cs[0] == CONF_INIT
    && forall i {:trigger texts[i]} | 0 <= i < |texts| :: Handles(cs[i], texts[i], cs[i + 1])
  }

  lemma HandlesKeepsStreams(c: Conf, text: string, c': Conf)
    requires Handles(c, text, c')
    ensures c'.txNss == c.txNss
  {
    if c' != c {
      var s :| Selects(text, s) && c' == Apply(c, s);
      if s.TxNss? {
        TxNssTakenForNss(text, s.v);
        assert false;
      }
    }
  }

  /** Whatever texts are written, packets are sent in one stream. */
  lemma {:induction false} PacketStreamsNeverSet(cs: seq<Conf>, texts: seq<string>, i: nat)
    requires TextRun(cs, texts) && i <= |texts|
    ensures cs[i].txNss == 1
  {
    if i > 0 {
      PacketStreamsNeverSet(cs, texts, i - 1);
      assert Handles(cs[i - 1], texts[i - 1], cs[i]);
      HandlesKeepsStreams(cs[i - 1], texts[i - 1], cs[i]);
    }
  }

  /** So the rule for HT does no harm to HE SU: in either mode exactly the MCS 0 to 7 are accepted. */
  lemma AcceptedMcsIff(cs: seq<Conf>, texts: seq<string>, i: nat, mcs: nat)
    requires TextRun(cs, texts) && i <= |texts| && mcs < 128
    requires cs[i].tputMode in {HT, HE_SU} && Quiet(cs[i]) && cs[i].rate == NONE
    ensures Allowed(cs[i], Mcs(mcs)) <==> mcs <= 7
  {
    PacketStreamsNeverSet(cs, texts, i);
    assert OrMcsFlag(Word(mcs)) == mcs + 128 && (mcs + 128) % 128 == mcs && (mcs + 128) / 128 % 2 == 1;
  }

  /** And the configuration after any texts is a safe one. */
  lemma {:induction false} TextsSafe(cs: seq<Conf>, texts: seq<string>, i: nat)
    requires TextRun(cs, texts) && i <= |texts|
    ensures Safe(cs[i])
  {
    if i > 0 {
      TextsSafe(cs, texts, i - 1);
      assert Handles(cs[i - 1], texts[i - 1], cs[i]);
      if cs[i] != cs[i - 1] {
        var s :| Selects(texts[i - 1], s) && cs[i] == Apply(cs[i - 1], s);
        ApplySafe(cs[i - 1], s);
      }
    }
  }
}
