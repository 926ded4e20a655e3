/** Printing sections as a firmware image, and what loading the image leaves in memory. */
module HexImage {
  import opened Basics
  import opened HexLoader

  datatype Section = Section(addr: nat, data: seq<octet>)

  predicate Fits(s: Section) { s.addr < SPACE && |Padded(s.data)| <= SPACE }

  function Padded(data: seq<octet>): seq<octet> { data + Zeros(PadLen(|data|)) }

  function HexChar(d: nat): (c: char)
    requires d < 16
    ensures c == DIGITS[d] && Digit(c) == Some(d)
  {
    if d < 10 then '0' + d as char else 'a' + (d - 10) as char
  }

  function Hex(v: nat, n: nat): (s: string)
    ensures |s| == n
  {
    if n == 0 then "" else Hex(v / 16, n - 1) + [HexChar(v % 16)]
  }

  lemma {:induction false} HexRoundTrip(v: nat, n: nat)
    requires v < Pow16(n)
    ensures HexVal(Hex(v, n)) == Some(v)
  {
    if n > 0 { HexRoundTrip(v / 16, n - 1); }
  }

  function PrintData(data: seq<octet>): string {
    if data == [] then "" else PrintData(data[..|data| - 1]) + Hex(data[|data| - 1], BYTE_LEN) + " "
  }

  function PrintSection(s: Section): string { "@" + Hex(s.addr, ADDR_LEN) + "\n" + PrintData(s.data) + "\n" }

  function Print(ss: seq<Section>): string {
    if ss == [] then "" else Print(ss[..|ss| - 1]) + PrintSection(ss[|ss| - 1])
  }

  function BytesOf(data: seq<octet>): seq<Token> {
    if data == [] then [] else BytesOf(data[..|data| - 1]) + [Byte(data[|data| - 1])]
  }

  function TokensOf(ss: seq<Section>): seq<Token> {
    if ss == [] then []
    else var last := ss[|ss| - 1]; TokensOf(ss[..|ss| - 1]) + [At(last.addr)] + BytesOf(last.data)
  }

  // ----------------------------------------------------- printing and reading

  lemma {:induction false} BlankSkipped(c: char, rest: string)
    requires c == ' ' || c == '\n' || c == '\r'
    ensures Tokens([c] + rest) == Tokens(rest)
  {
    assert ([c] + rest)[1..] == rest;
  }

  lemma DigitIsData(d: nat)
    requires d < 16
    ensures !Blank(HexChar(d)) && HexChar(d) != '@'
  {
  }

  lemma {:induction false} ByteRead(v: octet, rest: string)
    ensures Tokens(Hex(v, BYTE_LEN) + rest) == ([Byte(v)] + Tokens(rest).0, Tokens(rest).1)
  {
    var t := Hex(v, BYTE_LEN) + rest;
    assert Hex(v, 2)[..1] == Hex(v / 16, 1) && Hex(v / 16, 1) == Hex(v / 16 / 16, 0) + [HexChar(v / 16 % 16)];
    assert t[0] == HexChar(v / 16 % 16);
    DigitIsData(v / 16 % 16);
    assert t[..BYTE_LEN] == Hex(v, BYTE_LEN) && t[BYTE_LEN..] == rest;
    HexBoundIf("");
    HexRoundTrip(v, BYTE_LEN);
  }

  lemma {:induction false} AddressRead(a: nat, rest: string)
    requires a < SPACE
    ensures Tokens("@" + Hex(a, ADDR_LEN) + rest) == ([At(a)] + Tokens(rest).0, Tokens(rest).1)
  {
    var t := "@" + Hex(a, ADDR_LEN) + rest;
    assert t[1..1 + ADDR_LEN] == Hex(a, ADDR_LEN) && t[1 + ADDR_LEN..] == rest;
    HexBoundIf("");
    HexRoundTrip(a, ADDR_LEN);
    NoPrefix(Hex(a, ADDR_LEN));
  }

  lemma {:induction false} DataRead(data: seq<octet>, rest: string)
    ensures Tokens(PrintData(data) + rest) == (BytesOf(data) + Tokens(rest).0, Tokens(rest).1)
  {
    if data == [] {
      assert "" + rest == rest && [] + Tokens(rest).0 == Tokens(rest).0;
    } else {
      var front, v := data[..|data| - 1], data[|data| - 1];
      var rest' := Hex(v, BYTE_LEN) + (" " + rest);
      assert PrintData(data) + rest == PrintData(front) + rest';
      DataRead(front, rest');
      ByteRead(v, " " + rest);
      BlankSkipped(' ', rest);
      assert BytesOf(front) + ([Byte(v)] + Tokens(rest).0) == BytesOf(data) + Tokens(rest).0;
    }
  }

  lemma Joined<T>(a: seq<T>, b: seq<T>, c: seq<T>)
    ensures a + (b + c) == a + b + c
  {
  }

  lemma {:induction false} SectionBody(s: Section, rest: string)
    ensures Tokens("\n" + PrintData(s.data) + ("\n" + rest)) == (BytesOf(s.data) + Tokens(rest).0, Tokens(rest).1)
  {
    var body := PrintData(s.data) + ("\n" + rest);
    assert "\n" + PrintData(s.data) + ("\n" + rest) == ['\n'] + body;
    BlankSkipped('\n', body);
    DataRead(s.data, "\n" + rest);
    BlankSkipped('\n', rest);
  }

  lemma {:induction false} SectionRead(s: Section, rest: string)
    requires s.addr < SPACE
    ensures Tokens(PrintSection(s) + rest) == (SectionTokens(s) + Tokens(rest).0, Tokens(rest).1)
  {
    var body := "\n" + PrintData(s.data) + ("\n" + rest);
    assert PrintSection(s) + rest == "@" + Hex(s.addr, ADDR_LEN) + body;
    AddressRead(s.addr, body);
    SectionBody(s, rest);
    Joined([At(s.addr)], BytesOf(s.data), Tokens(rest).0);
  }

  function SectionTokens(s: Section): seq<Token> { [At(s.addr)] + BytesOf(s.data) }

  lemma SectionsAppend(ss: seq<Section>, rest: string)
    requires ss != []
    ensures var front, last := ss[..|ss| - 1], ss[|ss| - 1];
            && Print(ss) + rest == Print(front) + (PrintSection(last) + rest)
            && TokensOf(ss) == TokensOf(front) + SectionTokens(last)
  {
    var front, last := ss[..|ss| - 1], ss[|ss| - 1];
    Joined(Print(front), PrintSection(last), rest);
    Joined(TokensOf(front), [At(last.addr)], BytesOf(last.data));
  }

  lemma {:induction false} SectionsRead(ss: seq<Section>, rest: string)
    requires forall i | 0 <= i < |ss| :: ss[i].addr < SPACE
    ensures Tokens(Print(ss) + rest) == (TokensOf(ss) + Tokens(rest).0, Tokens(rest).1)
    decreases |ss|
  {
    if ss == [] {
      assert "" + rest == rest && [] + Tokens(rest).0 == Tokens(rest).0;
    } else {
      var front, last := ss[..|ss| - 1], ss[|ss| - 1];
      SectionsAppend(ss, rest);
      SectionsRead(front, PrintSection(last) + rest);
      SectionRead(last, rest);
      Joined(TokensOf(front), SectionTokens(last), Tokens(rest).0);
    }
  }

  // -------------------------------------------------------------- either case

  /** The capital of a letter digit. */
  function Capital(c: char): char {
    match c
    case 'a' => 'A' case 'b' => 'B' case 'c' => 'C' case 'd' => 'D' case 'e' => 'E' case 'f' => 'F'
    case _ => c
  }

  /** `t` is `s` with some of its letter digits capitalised. */
  ghost predicate SameButCase(t: string, s: string) {
    |t| == |s| && forall i | 0 <= i < |s| :: t[i] == s[i] || t[i] == Capital(s[i])
  }

  lemma SameDigit(c: char)
    ensures Digit(Capital(c)) == Digit(c) && Blank(Capital(c)) == Blank(c)
    ensures Capital(c) == '@' <==> c == '@'
    ensures Capital(c) == c || Digit(c).Some?
  {
  }

  /** The value of a number does not depend on the case of its digits. */
  lemma {:induction false} SameValue(t: string, s: string)
    requires SameButCase(t, s)
    ensures HexVal(t) == HexVal(s)
  {
    if s != "" {
      SameDigit(s[|s| - 1]);
      SameValue(t[..|t| - 1], s[..|s| - 1]);
    }
  }

  lemma SamePart(t: string, s: string, i: nat, j: nat)
    requires SameButCase(t, s) && i <= j <= |s|
    ensures SameButCase(t[i..j], s[i..j])
  {
  }

  lemma SameAddress(t: string, s: string)
    requires SameButCase(t, s) && |s| >= 1 + ADDR_LEN
    ensures ParseAddress(t) == ParseAddress(s)
  {
    var a, b := t[1..1 + ADDR_LEN], s[1..1 + ADDR_LEN];
    SamePart(t, s, 1, 1 + ADDR_LEN);
    SameDigit(b[0]);
    SameDigit(b[1]);
    if SkipPrefix(b) != b { SamePart(a, b, 2, |b|); }
    SameValue(SkipPrefix(a), SkipPrefix(b));
  }

  lemma SameByte(t: string, s: string)
    requires SameButCase(t, s) && |s| >= BYTE_LEN
    ensures ParseData(t) == ParseData(s)
  {
    SamePart(t, s, 0, BYTE_LEN);
    SameValue(t[..BYTE_LEN], s[..BYTE_LEN]);
  }

  /** So neither does what is read from an image. */
  lemma {:induction false} SameTokens(t: string, s: string)
    requires SameButCase(t, s)
    ensures Tokens(t) == Tokens(s)
    decreases |s|
  {
    if s != "" {
      var n := if Blank(s[0]) then 1 else if s[0] == '@' then 1 + ADDR_LEN else BYTE_LEN;
      SameDigit(s[0]);
      if n <= |s| {
        if n == 1 + ADDR_LEN { SameAddress(t, s); } else if n == BYTE_LEN { SameByte(t, s); }
        SamePart(t, s, n, |s|);
        assert t[n..|s|] == t[n..] && s[n..|s|] == s[n..];
        SameTokens(t[n..], s[n..]);
      }
    }
  }

  /** Reading what was printed, with digits in either case, gives the sections back. */
  lemma {:induction false} PrintReadRoundTrip(ss: seq<Section>, t: string)
    requires (forall i | 0 <= i < |ss| :: ss[i].addr < SPACE) && SameButCase(t, Print(ss))
    ensures Tokens(t) == (TokensOf(ss), Done)
  {
    SameTokens(t, Print(ss));
    SectionsRead(ss, "");
    assert Print(ss) + "" == Print(ss);
    assert TokensOf(ss) + [] == TokensOf(ss);
  }

  // ------------------------------------------------------------ memory

  function Offset(x: nat, a: nat): nat
    requires x < SPACE && a < SPACE
  {
    (x + SPACE - a) % SPACE
  }

  function Look(mem: Mem, x: nat): Option<octet> { if x in mem then Some(mem[x]) else None }

  lemma OffsetIs(x: nat, a: nat, k: nat)
    requires x < SPACE && a < SPACE && k < SPACE
    ensures x == (a + k) % SPACE <==> Offset(x, a) == k
  {
  }

  lemma {:induction false} PutAllLook(m: Mem, a: nat, n: nat, vs: seq<octet>, x: nat)
    requires a < SPACE && x < SPACE && |vs| <= SPACE
    ensures Look(PutAll(Cursor(m, a, n), vs).mem, x)
         == if Offset(x, a) < |vs| then Some(vs[Offset(x, a)]) else Look(m, x)
  {
    if vs != [] {
      var k := |vs| - 1;
      PutAllLook(m, a, n, vs[..k], x);
      PutAllNext(Cursor(m, a, n), vs[..k]);
      OffsetIs(x, a, k);
    }
  }

  /** What a list of sections says about address `x`: the last section that covers it decides. */
  function Says(mem: Mem, ss: seq<Section>, x: nat): Option<octet>
    requires x < SPACE && forall i | 0 <= i < |ss| :: ss[i].addr < SPACE
    decreases |ss|
  {
    if ss == [] then Look(mem, x)
    else
      var last := ss[|ss| - 1];
      if Offset(x, last.addr) < |Padded(last.data)| then Some(Padded(last.data)[Offset(x, last.addr)])
      else Says(mem, ss[..|ss| - 1], x)
  }

  lemma {:induction false} BytesRun(mem: Mem, toks: seq<Token>, a: nat, data: seq<octet>)
    ensures ByteRun(mem, toks + [At(a)] + BytesOf(data)) == PutAll(Cursor(ByteLoad(mem, toks), a, 0), data)
    decreases |data|
  {
    if data == [] {
      assert toks + [At(a)] + [] == toks + [At(a)];
      SeenMore(mem, toks, At(a));
    } else {
      var front, v := data[..|data| - 1], data[|data| - 1];
      BytesRun(mem, toks, a, front);
      assert toks + [At(a)] + BytesOf(data) == toks + [At(a)] + BytesOf(front) + [Byte(v)];
      SeenMore(mem, toks + [At(a)] + BytesOf(front), Byte(v));
    }
  }

  lemma {:induction false} BytesOfPrefix(data: seq<octet>, n: nat)
    requires n <= |data|
    ensures |BytesOf(data)| == |data| && BytesOf(data)[..n] == BytesOf(data[..n])
    decreases |data|
  {
    if n < |data| {
      BytesOfPrefix(data[..|data| - 1], n);
      assert data[..|data| - 1][..n] == data[..n];
    } else {
      assert data[..n] == data;
      if n > 0 { BytesOfPrefix(data[..n - 1], n - 1); }
    }
  }

  lemma {:induction false} SectionPrefix(toks: seq<Token>, a: nat, data: seq<octet>, n: nat)
    requires n <= |data|
    ensures var all := toks + [At(a)] + BytesOf(data);
            |all| == |toks| + 1 + |data| && all[..|toks| + 1 + n] == toks + [At(a)] + BytesOf(data[..n])
  {
    BytesOfPrefix(data, n);
    var head, bytes := toks + [At(a)], BytesOf(data);
    assert (head + bytes)[..|head| + n] == head + bytes[..n];
  }

  lemma Rest4(m: nat, n: nat)
    requires n % 4 == 0 && n <= m < n + 4
    ensures m % 4 == m - n
  {
  }

  lemma {:induction false} WholeWordsAt(mem: Mem, toks: seq<Token>, m: nat, n: nat)
    requires ByteRun(mem, toks).n == m && n % 4 == 0 && n <= m < n + 4 && m - n <= |toks|
    ensures WholeWords(mem, toks) == ByteRun(mem, toks[..|toks| - (m - n)]).mem
  {
    Rest4(m, n);
  }

  lemma {:induction false} RunLength(mem: Mem, toks: seq<Token>, a: nat, data: seq<octet>)
    ensures ByteRun(mem, toks + [At(a)] + BytesOf(data)).n == |data|
  {
    BytesRun(mem, toks, a, data);
  }

  lemma {:induction false} WordsOfSection(mem: Mem, toks: seq<Token>, a: nat, data: seq<octet>, n: nat)
    requires n % 4 == 0 && n <= |data| < n + 4
    ensures WholeWords(mem, toks + [At(a)] + BytesOf(data)) == ByteRun(mem, toks + [At(a)] + BytesOf(data[..n])).mem
  {
    var all := toks + [At(a)] + BytesOf(data);
    RunLength(mem, toks, a, data);
    SectionPrefix(toks, a, data, n);
    assert |all| - (|data| - n) == |toks| + 1 + n;
    WholeWordsAt(mem, all, |data|, n);
  }

  /** Of a section that breaks off at a bad byte, only the whole words are stored: `n` bytes. */
  lemma {:induction false} OnlyWholeWords(mem: Mem, toks: seq<Token>, a: nat, data: seq<octet>, n: nat)
    requires n % 4 == 0 && n <= |data| < n + 4
    ensures WholeWords(mem, toks + [At(a)] + BytesOf(data))
         == PutAll(Cursor(ByteLoad(mem, toks), a, 0), data[..n]).mem
  {
    WordsOfSection(mem, toks, a, data, n);
    BytesRun(mem, toks, a, data[..n]);
  }

  lemma SectionLoad(mem: Mem, toks: seq<Token>, s: Section)
    ensures ByteLoad(mem, toks + [At(s.addr)] + BytesOf(s.data))
         == PutAll(Cursor(ByteLoad(mem, toks), s.addr, 0), Padded(s.data)).mem
  {
    BytesRun(mem, toks, s.addr, s.data);
    PutAllConcat(Cursor(ByteLoad(mem, toks), s.addr, 0), s.data, Zeros(PadLen(|s.data|)));
  }

  /** Loading leaves at every address exactly what the sections say. */
  lemma {:induction false} LoadedMemory(mem: Mem, ss: seq<Section>, x: nat)
    requires x < SPACE && (forall i | 0 <= i < |ss| :: ss[i].addr < SPACE) && (forall i | 0 <= i < |ss| :: Fits(ss[i]))
    ensures Look(ByteLoad(mem, TokensOf(ss)), x) == Says(mem, ss, x)
    decreases |ss|
  {
    if ss == [] {
      assert Pad(Cursor(mem, 0, 0)) == PutAll(Cursor(mem, 0, 0), Zeros(0));
    } else {
      var front, last := ss[..|ss| - 1], ss[|ss| - 1];
      assert Fits(last);
      LoadedMemory(mem, front, x);
      SectionLoad(mem, TokensOf(front), last);
      PutAllLook(ByteLoad(mem, TokensOf(front)), last.addr, 0, Padded(last.data), x);
    }
  }

  predicate Covers(s: Section, x: nat)
    requires x < SPACE && s.addr < SPACE
  {
    Offset(x, s.addr) < |Padded(s.data)|
  }

  lemma {:induction false} SaysOnly(mem: Mem, ss: seq<Section>, i: nat, x: nat)
    requires i < |ss| && x < SPACE && (forall j | 0 <= j < |ss| :: ss[j].addr < SPACE)
    requires Covers(ss[i], x) && forall j | i < j < |ss| :: !Covers(ss[j], x)
    ensures Says(mem, ss, x) == Some(Padded(ss[i].data)[Offset(x, ss[i].addr)])
    decreases |ss|
  {
    if i < |ss| - 1 {
      var front := ss[..|ss| - 1];
      assert front[i] == ss[i] && !Covers(ss[|ss| - 1], x);
      SaysOnly(mem, front, i, x);
    }
  }

  lemma SaysData(mem: Mem, ss: seq<Section>, i: nat, k: nat)
    requires (forall j | 0 <= j < |ss| :: ss[j].addr < SPACE) && i < |ss| && k < |ss[i].data| && Fits(ss[i])
    requires forall j | i < j < |ss| :: !Covers(ss[j], (ss[i].addr + k) % SPACE)
    ensures Says(mem, ss, (ss[i].addr + k) % SPACE) == Some(ss[i].data[k])
  {
    var x := (ss[i].addr + k) % SPACE;
    OffsetIs(x, ss[i].addr, k);
    SaysOnly(mem, ss, i, x);
  }

  lemma {:induction false} DataTokens(data: seq<octet>)
    requires data != []
    ensures HasData(BytesOf(data))
  {
    var toks := BytesOf(data);
    assert toks[|toks| - 1].Byte?;
  }

  lemma HasDataIn(a: seq<Token>, b: seq<Token>, c: seq<Token>)
    requires HasData(a) || HasData(c)
    ensures HasData(a + b + c)
  {
    var all := a + b + c;
    if HasData(a) {
      var i :| 0 <= i < |a| && a[i].Byte?;
      assert all[i].Byte?;
    } else {
      var i :| 0 <= i < |c| && c[i].Byte?;
      assert all[|a + b| + i].Byte?;
    }
  }

  lemma {:induction false} SomeData(ss: seq<Section>, i: nat)
    requires i < |ss| && ss[i].data != []
    ensures HasData(TokensOf(ss))
  {
    var front, last := ss[..|ss| - 1], ss[|ss| - 1];
    if i < |front| { SomeData(front, i); } else { DataTokens(last.data); }
    HasDataIn(TokensOf(front), [At(last.addr)], BytesOf(last.data));
  }

  lemma {:induction false} NoTokens(ss: seq<Section>)
    requires forall i | 0 <= i < |ss| :: ss[i].data == []
    ensures !HasData(TokensOf(ss))
  {
    if ss != [] {
      NoTokens(ss[..|ss| - 1]);
      assert BytesOf(ss[|ss| - 1].data) == [];
    }
  }

  /** An image of sections without data reads to the end, and is reported as a failure all the same. */
  lemma {:induction false} NoDataFails(ss: seq<Section>, t: string)
    requires (forall i | 0 <= i < |ss| :: ss[i].addr < SPACE) && SameButCase(t, Print(ss))
    requires forall i | 0 <= i < |ss| :: ss[i].data == []
    ensures Tokens(t).1 == Done && Verdict(Tokens(t).0, Done) == Fail
  {
    PrintReadRoundTrip(ss, t);
    NoTokens(ss);
  }

  /**
   Round trip: a printed image, its digits in either case, reads without error, and when no later section overwrites it, the
   bytes of a section are in memory afterwards, one behind the other from its address.
   */
  lemma {:induction false} PrintLoadRoundTrip(mem: Mem, ss: seq<Section>, t: string, i: nat, k: nat)
    requires (forall j | 0 <= j < |ss| :: ss[j].addr < SPACE) && (forall j | 0 <= j < |ss| :: Fits(ss[j]))
    requires i < |ss| && k < |ss[i].data| && SameButCase(t, Print(ss))
    requires forall j | i < j < |ss| :: !Covers(ss[j], (ss[i].addr + k) % SPACE)
    ensures var (toks, scan) := Tokens(t);
            && Verdict(toks, scan) == Success
            && Look(Loaded(mem, toks, scan), (ss[i].addr + k) % SPACE) == Some(ss[i].data[k])
  {
    PrintReadRoundTrip(ss, t);
    SomeData(ss, i);
    LoadedMemory(mem, ss, (ss[i].addr + k) % SPACE);
    SaysData(mem, ss, i, k);
  }
}
