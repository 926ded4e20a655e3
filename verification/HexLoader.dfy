/**
 The loader of firmware images in hexadecimal text.  An image is a list of sections: `@` and eight
 digits for the address, then a pair of digits for every byte, with blanks between them.
 */
module HexLoader {
  import opened Basics
  import Bits

  const ADDR_LEN: nat := 8    // FWLDR_ADDR_LEN
  const BYTE_LEN: nat := 2    // FWLDR_BYTE_LEN
  const SPACE: nat := 0x1_0000_0000

  type octet = x: nat | x < 256

  /** Device memory, by address. */
  type Mem = map<nat, octet>

  // ------------------------------------------------------------------- text

  function Digit(c: char): (d: Option<nat>)
    ensures d.Some? ==> d.value < 16
  {
    if '0' <= c <= '9' then Some(c as nat - '0' as nat)
    else if 'a' <= c <= 'f' then Some(c as nat - 'a' as nat + 10)
    else if 'A' <= c <= 'F' then Some(c as nat - 'A' as nat + 10)
    else None
  }

  /** The number that a string of hexadecimal digits stands for. */
  function HexVal(s: string): Option<nat> {
    if s == "" then Some(0)
    else
      match (HexVal(s[..|s| - 1]), Digit(s[|s| - 1]))
      case (Some(v), Some(d)) => Some(16 * v + d)
      case _ => None
  }

  /** The sixteen digits, in either case. */
  const DIGITS: string := "0123456789abcdef"
  const CAPITAL_DIGITS: string := "0123456789ABCDEF"

  /** A character is a digit of value `d` exactly when it is number `d` in one of the two lists. */
  lemma DigitIff(c: char, d: nat)
    ensures Digit(c) == Some(d) <==> d < 16 && (c == DIGITS[d] || c == CAPITAL_DIGITS[d])
  {
  }

  /** A digit weighs sixteen times as much one place further left. */
  lemma {:induction false} HexValLast(s: string, v: nat, d: nat)
    requires s != "" && HexVal(s[..|s| - 1]) == Some(v) && Digit(s[|s| - 1]) == Some(d)
    ensures HexVal(s) == Some(16 * v + d)
  {
  }

  function Pow16(n: nat): nat { if n == 0 then 1 else 16 * Pow16(n - 1) }

  lemma {:induction false} HexBound(s: string)
    requires HexVal(s).Some?
    ensures HexVal(s).value < Pow16(|s|)
  {
    if s != "" { HexBound(s[..|s| - 1]); }
  }

  predicate Blank(c: char) { c == '\n' || c == '\r' || c == ' ' }

  datatype Token = At(addr: nat) | Byte(value: octet)

  /** How reading an image ends; the flag says that it ends in an address. */
  datatype Scan = Done | Bad(inAddress: bool) | Overrun(inAddress: bool)

  /** parse_data. */
  function ParseData(t: string): (v: Option<octet>)
    requires |t| >= BYTE_LEN
  {
    HexBoundIf(t[..BYTE_LEN]);
    HexVal(t[..BYTE_LEN])
  }

  /** A number in base 16 may start with `0x`, which takes two of the places for digits. */
  function SkipPrefix(s: string): string {
    if |s| > 2 && s[0] == '0' && (s[1] == 'x' || s[1] == 'X') then s[2..] else s
  }

  /** parse_address, after the `@`. */
  function ParseAddress(t: string): (v: Option<nat>)
    requires |t| >= 1 + ADDR_LEN
    ensures v.Some? ==> v.value < SPACE
  {
    HexBoundIf(SkipPrefix(t[1..1 + ADDR_LEN]));
    HexVal(SkipPrefix(t[1..1 + ADDR_LEN]))
  }

  /** After `0x` there are six digits for an address. */
  lemma {:induction false} PrefixedAddress(x: char, digits: string, rest: string)
    requires (x == 'x' || x == 'X') && |digits| == 6
    ensures ParseAddress(['@', '0', x] + digits + rest) == HexVal(digits)
  {
    var t := ['@', '0', x] + digits + rest;
    assert t[1..9] == ['0', x] + digits && (['0', x] + digits)[2..] == digits;
  }

  lemma {:induction false} HexDigits(s: string, i: nat)
    requires HexVal(s).Some? && i < |s|
    ensures Digit(s[i]).Some?
  {
    if i < |s| - 1 { HexDigits(s[..|s| - 1], i); }
  }

  lemma {:induction false} NoPrefix(s: string)
    requires HexVal(s).Some?
    ensures SkipPrefix(s) == s
  {
    if |s| > 2 { HexDigits(s, 1); }
  }

  lemma {:induction false} HexBoundIf(s: string)
    ensures HexVal(s).Some? ==> HexVal(s).value < Pow16(|s|)
    ensures Pow16(BYTE_LEN) == 256 && Pow16(ADDR_LEN) == SPACE && Pow16(ADDR_LEN - 2) < SPACE
  {
    if HexVal(s).Some? { HexBound(s); }
    assert Pow16(4) == 65536;
    assert Pow16(6) == 0x100_0000;
  }

  /** The tokens of an image, up to where reading it ends. */
  function Tokens(t: string): (r: (seq<Token>, Scan))
    decreases |t|
  {
    if t == "" then ([], Done)
    else if Blank(t[0]) then Tokens(t[1..])
    else if t[0] == '@' then
      if |t| < 1 + ADDR_LEN then ([], Overrun(true))
      else
        match ParseAddress(t)
        case None => ([], Bad(true))
        case Some(a) => var (toks, scan) := Tokens(t[1 + ADDR_LEN..]); ([At(a)] + toks, scan)
    else
      if |t| < BYTE_LEN then ([], Overrun(false))
      else
        match ParseData(t)
        case None => ([], Bad(false))
        case Some(v) => var (toks, scan) := Tokens(t[BYTE_LEN..]); ([Byte(v)] + toks, scan)
  }

  predicate HasData(toks: seq<Token>) { exists i :: 0 <= i < |toks| && toks[i].Byte? }

  // ------------------------------------------- loading one byte at a time

  /** `next`: the address of the next byte; `n`: how many bytes the section has had. */
  datatype Cursor = Cursor(mem: Mem, next: nat, n: nat)

  function Put(cur: Cursor, v: octet): Cursor {
    Cursor(cur.mem[cur.next := v], (cur.next + 1) % SPACE, cur.n + 1)
  }

  function PutAll(cur: Cursor, vs: seq<octet>): (r: Cursor)
    ensures r.n == cur.n + |vs|
  {
    if vs == [] then cur else Put(PutAll(cur, vs[..|vs| - 1]), vs[|vs| - 1])
  }

  function Zeros(n: nat): (r: seq<octet>)
    ensures |r| == n
  {
    seq(n, _ => 0)
  }

  function PadLen(n: nat): nat { (4 - n % 4) % 4 }

  /** A section is padded with zeros to a whole number of words. */
  function Pad(cur: Cursor): Cursor { PutAll(cur, Zeros(PadLen(cur.n))) }

  function ByteStep(cur: Cursor, tok: Token): Cursor {
    match tok
    case At(a) => Cursor(Pad(cur).mem, a, 0)
    case Byte(v) => Put(cur, v)
  }

  function ByteRun(mem: Mem, toks: seq<Token>): Cursor {
    if toks == [] then Cursor(mem, 0, 0) else ByteStep(ByteRun(mem, toks[..|toks| - 1]), toks[|toks| - 1])
  }

  /** What an image does to memory, byte by byte. */
  function ByteLoad(mem: Mem, toks: seq<Token>): Mem { Pad(ByteRun(mem, toks)).mem }

  /** The same without the last word, if that is not complete. */
  function WholeWords(mem: Mem, toks: seq<Token>): Mem {
    var left := ByteRun(mem, toks).n % 4;
    if left <= |toks| then ByteRun(mem, toks[..|toks| - left]).mem else mem
  }

  lemma {:induction false} PutAllConcat(cur: Cursor, a: seq<octet>, b: seq<octet>)
    ensures PutAll(cur, a + b) == PutAll(PutAll(cur, a), b)
  {
    if b == [] {
      assert a + b == a;
    } else {
      assert (a + b)[..|a + b| - 1] == a + b[..|b| - 1];
      PutAllConcat(cur, a, b[..|b| - 1]);
    }
  }

  // ------------------------------------------------------------------- words

  /** The word that holds the bytes `bs`, the first in the lowest bits. */
  function Pack(bs: seq<octet>): nat {
    if bs == [] then 0 else bs[0] + 256 * Pack(bs[1..])
  }

  /** The four bytes that writing a word stores. */
  function Unpack(w: nat): seq<octet> {
    [w % 256, w / 256 % 256, w / 256 / 256 % 256, w / 256 / 256 / 256 % 256]
  }

  lemma {:induction false} PackBound(bs: seq<octet>)
    ensures Pack(bs) < Bits.Pow2(8 * |bs|)
  {
    if bs != [] {
      PackBound(bs[1..]);
      Pow2Byte(|bs| - 1);
    }
  }

  lemma {:induction false} Pow2Byte(n: nat)
    ensures Bits.Pow2(8 * (n + 1)) == 256 * Bits.Pow2(8 * n)
  {
    assert 8 * (n + 1) == 8 * n + 8;
    assert Bits.Pow2(8 * n + 8) == 2 * Bits.Pow2(8 * n + 7);
    assert Bits.Pow2(8 * n + 7) == 2 * Bits.Pow2(8 * n + 6);
    assert Bits.Pow2(8 * n + 6) == 2 * Bits.Pow2(8 * n + 5);
    assert Bits.Pow2(8 * n + 5) == 2 * Bits.Pow2(8 * n + 4);
    assert Bits.Pow2(8 * n + 4) == 2 * Bits.Pow2(8 * n + 3);
    assert Bits.Pow2(8 * n + 3) == 2 * Bits.Pow2(8 * n + 2);
    assert Bits.Pow2(8 * n + 2) == 2 * Bits.Pow2(8 * n + 1);
    assert Bits.Pow2(8 * n + 1) == 2 * Bits.Pow2(8 * n);
  }

  lemma {:induction false} PackAppend(bs: seq<octet>, v: octet)
    ensures Pack(bs + [v]) == Pack(bs) + v * Bits.Pow2(8 * |bs|)
  {
    if bs == [] {
      assert Pack([v]) == v + 256 * Pack([]);
    } else {
      assert (bs + [v])[1..] == bs[1..] + [v];
      PackAppend(bs[1..], v);
      Pow2Byte(|bs| - 1);
      Regroup(v, Bits.Pow2(8 * (|bs| - 1)));
    }
  }

  lemma Regroup(v: nat, p: nat)
    ensures 256 * (v * p) == v * (256 * p)
  {
  }

  /** `word |= byte << (8 * |bs|)` adds a byte to the word. */
  lemma {:induction false} OrAppends(bs: seq<octet>, v: octet)
    ensures Bits.Or(Pack(bs), v * Bits.Pow2(8 * |bs|)) == Pack(bs + [v])
  {
    PackBound(bs);
    Bits.OrIsSum(Pack(bs), v, 8 * |bs|);
    PackAppend(bs, v);
  }

  function OrByte(word: nat, n: nat, v: octet): nat { Bits.Or(word, v * Bits.Pow2(8 * n)) }

  lemma {:induction false} OrByteIs(bs: seq<octet>, v: octet)
    ensures OrByte(Pack(bs), |bs|, v) == Pack(bs + [v])
  {
    OrAppends(bs, v);
  }

  /** Storing a word stores its bytes, and zeros for those it does not have. */
  lemma {:induction false} UnpackPack(bs: seq<octet>)
    requires |bs| <= 4
    ensures Unpack(Pack(bs)) == bs + Zeros(4 - |bs|)
  {
    ShiftOut(bs);
    if |bs| > 0 {
      ShiftOut(bs[1..]);
      if |bs| > 1 {
        ShiftOut(bs[2..]);
        assert bs[1..][1..] == bs[2..];
        if |bs| > 2 {
          ShiftOut(bs[3..]);
          assert bs[2..][1..] == bs[3..];
        }
      }
    }
  }

  lemma {:induction false} ShiftOut(bs: seq<octet>)
    ensures bs != [] ==> Pack(bs) % 256 == bs[0] && Pack(bs) / 256 == Pack(bs[1..])
    ensures bs == [] ==> Pack(bs) == 0
  {
  }

  // ------------------------------------------ loading one word at a time

  lemma {:induction false} PutAllAddr(m: Mem, a: nat, n: nat, k: nat, vs: seq<octet>)
    ensures PutAll(Cursor(m, a, n), vs).mem == PutAll(Cursor(m, a, k), vs).mem
    ensures PutAll(Cursor(m, a, n), vs).next == PutAll(Cursor(m, a, k), vs).next
  {
    if vs != [] { PutAllAddr(m, a, n, k, vs[..|vs| - 1]); }
  }

  lemma {:induction false} PutAllNext(cur: Cursor, vs: seq<octet>)
    requires cur.next < SPACE
    ensures PutAll(cur, vs).next == (cur.next + |vs|) % SPACE
  {
    if vs != [] {
      PutAllNext(cur, vs[..|vs| - 1]);
      NextAddr(cur.next + |vs| - 1);
    }
  }

  lemma NextAddr(x: nat)
    ensures (x % SPACE + 1) % SPACE == (x + 1) % SPACE
  {
  }

  /**
   The word loader has dealt with the tokens in `seen` but for the last bytes `bs`, which it keeps in
   its word: memory is what the byte loader had before these, and `addr` is where they will go.
   */
  ghost predicate Lags(mem0: Mem, seen: seq<Token>, bs: seq<octet>, mem: Mem, addr: nat) {
    && |bs| < 4 && |bs| <= |seen| && addr < SPACE
    && var cur := Behind(mem0, seen, bs);
       cur.mem == mem && cur.next == addr && cur.n % 4 == 0 && ByteRun(mem0, seen) == PutAll(cur, bs)
  }

  lemma {:induction false} SeenMore(mem0: Mem, seen: seq<Token>, tok: Token)
    ensures ByteRun(mem0, seen + [tok]) == ByteStep(ByteRun(mem0, seen), tok)
    ensures HasData(seen + [tok]) <==> HasData(seen) || tok.Byte?
  {
    assert (seen + [tok])[..|seen|] == seen;
    assert (seen + [tok])[|seen|] == tok;
    if HasData(seen) {
      var i :| 0 <= i < |seen| && seen[i].Byte?;
      assert (seen + [tok])[i].Byte?;
    }
  }

  /** Where the byte loader was before the bytes `bs` that the word loader still keeps. */
  function Behind(mem0: Mem, seen: seq<Token>, bs: seq<octet>): Cursor
    requires |bs| <= |seen|
  {
    ByteRun(mem0, seen[..|seen| - |bs|])
  }

  lemma {:induction false} LagsByte(mem0: Mem, seen: seq<Token>, bs: seq<octet>, mem: Mem, addr: nat, v: octet)
    requires Lags(mem0, seen, bs, mem, addr)
    ensures ByteRun(mem0, seen + [Byte(v)]) == PutAll(Behind(mem0, seen, bs), bs + [v])
    ensures Behind(mem0, seen + [Byte(v)], bs + [v]) == Behind(mem0, seen, bs)
  {
    SeenMore(mem0, seen, Byte(v));
    var seen', bs' := seen + [Byte(v)], bs + [v];
    assert bs'[..|bs|] == bs && seen'[..|seen'| - |bs'|] == seen[..|seen| - |bs|];
  }

  lemma {:induction false} LagsWord(mem0: Mem, seen: seq<Token>, bs: seq<octet>, mem: Mem, addr: nat, v: octet)
    requires Lags(mem0, seen, bs, mem, addr) && |bs| == 3
    ensures Lags(mem0, seen + [Byte(v)], [], PutAll(Cursor(mem, addr, 0), bs + [v]).mem, (addr + 4) % SPACE)
  {
    var seen', cur := seen + [Byte(v)], Behind(mem0, seen, bs);
    LagsByte(mem0, seen, bs, mem, addr, v);
    PutAllAddr(mem, addr, 0, cur.n, bs + [v]);
    PutAllNext(cur, bs + [v]);
    assert seen'[..|seen'|] == seen';
    FourMore(cur.n);
  }

  lemma FourMore(n: nat)
    requires n % 4 == 0
    ensures (n + 4) % 4 == 0
  {
  }

  lemma PadRest(n: nat, k: nat)
    requires n % 4 == 0 && k < 4
    ensures (n + k) % 4 == k && PadLen(n + k) == (4 - k) % 4
  {
  }

  lemma {:induction false} PadIs(cur: Cursor, bs: seq<octet>, k: nat)
    requires cur.n % 4 == 0 && |bs| < 4 && k == (4 - |bs|) % 4
    ensures Pad(PutAll(cur, bs)) == PutAll(cur, bs + Zeros(k))
    ensures PutAll(cur, bs).n % 4 == |bs|
  {
    PadRest(cur.n, |bs|);
    PutAllConcat(cur, bs, Zeros(k));
  }

  lemma {:induction false} LagsFlush(mem0: Mem, seen: seq<Token>, bs: seq<octet>, mem: Mem, addr: nat)
    requires Lags(mem0, seen, bs, mem, addr)
    ensures ByteLoad(mem0, seen) == PutAll(Cursor(mem, addr, 0), bs + Zeros((4 - |bs|) % 4)).mem
    ensures WholeWords(mem0, seen) == mem
  {
    var cur, k := Behind(mem0, seen, bs), (4 - |bs|) % 4;
    PadIs(cur, bs, k);
    PutAllAddr(mem, addr, 0, cur.n, bs + Zeros(k));
  }

  lemma LagsAt(mem0: Mem, seen: seq<Token>, a: nat)
    requires a < SPACE
    ensures Lags(mem0, seen + [At(a)], [], ByteLoad(mem0, seen), a)
  {
    SeenMore(mem0, seen, At(a));
    assert (seen + [At(a)])[..|seen| + 1] == seen + [At(a)];
  }

  /** The tokens in `seen` have been read; `rest` has yet to be. */
  ghost predicate Reading(all: string, seen: seq<Token>, rest: string) {
    Tokens(all) == (seen + Tokens(rest).0, Tokens(rest).1)
  }

  lemma ReadStart(all: string)
    ensures Reading(all, [], all)
  {
    assert [] + Tokens(all).0 == Tokens(all).0;
  }

  lemma ReadBlank(all: string, seen: seq<Token>, rest: string)
    requires Reading(all, seen, rest) && rest != "" && Blank(rest[0])
    ensures Reading(all, seen, rest[1..])
  {
  }

  lemma ReadAt(all: string, seen: seq<Token>, t: string)
    requires Reading(all, seen, t) && |t| >= 1 + ADDR_LEN && t[0] == '@' && ParseAddress(t).Some?
    ensures Reading(all, seen + [At(ParseAddress(t).value)], t[1 + ADDR_LEN..])
  {
    var a, rest := ParseAddress(t).value, Tokens(t[1 + ADDR_LEN..]);
    assert Tokens(t) == ([At(a)] + rest.0, rest.1);
    assert seen + ([At(a)] + rest.0) == seen + [At(a)] + rest.0;
  }

  lemma ReadByte(all: string, seen: seq<Token>, t: string)
    requires Reading(all, seen, t) && |t| >= BYTE_LEN && !Blank(t[0]) && t[0] != '@' && ParseData(t).Some?
    ensures Reading(all, seen + [Byte(ParseData(t).value)], t[BYTE_LEN..])
  {
    var v, rest := ParseData(t).value, Tokens(t[BYTE_LEN..]);
    assert Tokens(t) == ([Byte(v)] + rest.0, rest.1);
    assert seen + ([Byte(v)] + rest.0) == seen + [Byte(v)] + rest.0;
  }

  lemma {:induction false} ReadEnd(all: string, seen: seq<Token>, rest: string, scan: Scan)
    requires Reading(all, seen, rest) && Tokens(rest) == ([], scan)
    ensures Tokens(all) == (seen, scan)
  {
    assert seen + [] == seen;
  }

  /** The memory that loading leaves; after a bad or cut-off byte the last, incomplete word is missing. */
  function Loaded(mem: Mem, toks: seq<Token>, scan: Scan): Mem {
    if scan == Bad(false) || scan == Overrun(false) then WholeWords(mem, toks) else ByteLoad(mem, toks)
  }

  function Verdict(toks: seq<Token>, scan: Scan): Status {
    match scan
    case Done => if HasData(toks) then Success else Fail
    case Bad(_) => Fail
    case Overrun(_) => ReadPastEnd
  }

  datatype Status = Success | Fail | ReadPastEnd

  class Rpu {
    var mem: Mem

    /** hal_rpu_mem_write of one word, which is assumed to succeed. */
    method MemWrite(addr: nat, word: nat)
      modifies this
      ensures mem == PutAll(Cursor(old(mem), addr, 0), Unpack(word)).mem
    {
      mem := PutAll(Cursor(mem, addr, 0), Unpack(word)).mem;
    }

    /** Write the word that holds `bs`. */
    method WriteWord(address: nat, word: nat, ghost bs: seq<octet>)
      requires |bs| <= 4 && word == Pack(bs)
      modifies this
      ensures mem == PutAll(Cursor(old(mem), address, 0), bs + Zeros(4 - |bs|)).mem
    {
      UnpackPack(bs);
      MemWrite(address, word);
    }

    /** Write the word that a section leaves incomplete. */
    method Flush(address: nat, word: nat, byteCount: nat, ghost mem0: Mem, ghost seen: seq<Token>, ghost bs: seq<octet>)
      requires Lags(mem0, seen, bs, mem, address) && word == Pack(bs) && byteCount == |bs|
      modifies this
      ensures mem == ByteLoad(mem0, seen)
    {
      LagsFlush(mem0, seen, bs, mem, address);
      if byteCount != 0 {
        WriteWord(address, word, bs);
      } else {
        assert bs + Zeros(0) == [];
      }
    }

    /** The fourth byte completes a word, which is written. */
    method WordDone(address: nat, word: nat, v: octet, ghost mem0: Mem, ghost seen: seq<Token>, ghost bs: seq<octet>)
      requires Lags(mem0, seen, bs, mem, address) && |bs| == 3 && word == Pack(bs + [v])
      modifies this
      ensures Lags(mem0, seen + [Byte(v)], [], mem, (address + 4) % SPACE)
    {
      LagsWord(mem0, seen, bs, mem, address, v);
      WriteWord(address, word, bs + [v]);
      assert bs + [v] + Zeros(0) == bs + [v];
    }

    /** `word |= byte << (byteCount * 8)`. */
    method AddByte(word: nat, byteCount: nat, v: octet, ghost bs: seq<octet>) returns (word': nat)
      requires word == Pack(bs) && byteCount == |bs|
      ensures word' == Pack(bs + [v])
    {
      OrByteIs(bs, v);
      word' := OrByte(word, byteCount, v);
    }

    /** One data byte. */
    method DataByte(address: nat, word: nat, byteCount: nat, v: octet,
                    ghost mem0: Mem, ghost seen: seq<Token>, ghost bs: seq<octet>)
      returns (address': nat, word': nat, byteCount': nat, ghost bs': seq<octet>)
      requires Lags(mem0, seen, bs, mem, address) && word == Pack(bs) && byteCount == |bs|
      modifies this
      ensures Lags(mem0, seen + [Byte(v)], bs', mem, address') && word' == Pack(bs') && byteCount' == |bs'|
      ensures byteCount' == 0 <==> byteCount == 3
    {
      word' := AddByte(word, byteCount, v, bs);
      address', byteCount', bs' := address, byteCount + 1, bs + [v];
      if byteCount' == 4 {
        WordDone(address, word', v, mem0, seen, bs);
        address', word', byteCount', bs' := (address + 4) % SPACE, 0, 0, [];
      } else {
        LagsByte(mem0, seen, bs, mem, address, v);
      }
    }

    /** The `@` item at the start of `rest` ends a section and begins another. */
    method AddressItem(rest: string, address: nat, word: nat, byteCount: nat,
                       ghost mem0: Mem, ghost seen: seq<Token>, ghost bs: seq<octet>)
      returns (error: Option<Status>, address': nat)
      requires Lags(mem0, seen, bs, mem, address) && word == Pack(bs) && byteCount == |bs|
      requires rest != "" && rest[0] == '@'
      modifies this
      ensures error.Some? ==> Tokens(rest) == ([], if error == Some(Fail) then Bad(true) else Overrun(true))
      ensures error.Some? ==> error.value != Success && mem == ByteLoad(mem0, seen)
      ensures error == None ==>
                && |rest| >= 1 + ADDR_LEN && ParseAddress(rest) == Some(address')
                && Lags(mem0, seen + [At(address')], [], mem, address')
    {
      Flush(address, word, byteCount, mem0, seen, bs);
      address' := 0;
      if |rest| < 1 + ADDR_LEN {
        return Some(ReadPastEnd), address';
      }
      var val := ParseAddress(rest);
      if val == None {
        return Some(Fail), address';
      }
      LagsAt(mem0, seen, val.value);
      return None, val.value;
    }

    /** The pair of digits at the start of `rest` is a byte of data. */
    method DataItem(rest: string, address: nat, word: nat, byteCount: nat,
                    ghost mem0: Mem, ghost seen: seq<Token>, ghost bs: seq<octet>)
      returns (error: Option<Status>, address': nat, word': nat, byteCount': nat, ghost bs': seq<octet>)
      requires Lags(mem0, seen, bs, mem, address) && word == Pack(bs) && byteCount == |bs|
      requires rest != "" && rest[0] != '@' && !Blank(rest[0])
      modifies this
      ensures error.Some? ==> Tokens(rest) == ([], if error == Some(Fail) then Bad(false) else Overrun(false))
      ensures error.Some? ==> error.value != Success && mem == WholeWords(mem0, seen)
      ensures error == None ==>
                && |rest| >= BYTE_LEN && ParseData(rest).Some?
                && Lags(mem0, seen + [Byte(ParseData(rest).value)], bs', mem, address')
                && word' == Pack(bs') && byteCount' == |bs'| && (byteCount' == 0 <==> byteCount == 3)
    {
      LagsFlush(mem0, seen, bs, mem, address);
      address', word', byteCount', bs' := address, word, byteCount, bs;
      error := None;
      if |rest| < BYTE_LEN {
        error := Some(ReadPastEnd);
        return;
      }
      var val := ParseData(rest);
      if val == None {
        error := Some(Fail);
        return;
      }
      address', word', byteCount', bs' := DataByte(address, word, byteCount, val.value, mem0, seen, bs);
    }

    /** One round of the loop below. */
    method Item(ghost all: string, rest: string, address: nat, word: nat, byteCount: nat, wrote: bool,
                ghost mem0: Mem, ghost seen: seq<Token>, ghost bs: seq<octet>)
      returns (error: Option<Status>, rest': string, address': nat, word': nat, byteCount': nat, wrote': bool,
               ghost seen': seq<Token>, ghost bs': seq<octet>)
      requires Reading(all, seen, rest) && Lags(mem0, seen, bs, mem, address) && rest != ""
      requires word == Pack(bs) && byteCount == |bs| && (wrote || byteCount > 0 <==> HasData(seen))
      modifies this
      ensures error.Some? ==>
        var (toks, scan) := Tokens(all); error.value == Verdict(toks, scan) && mem == Loaded(mem0, toks, scan)
      ensures error == None ==> Reading(all, seen', rest') && Lags(mem0, seen', bs', mem, address') && |rest'| < |rest|
      ensures error == None ==> word' == Pack(bs') && byteCount' == |bs'| && (wrote' || byteCount' > 0 <==> HasData(seen'))
    {
      error, rest', address', word', byteCount', wrote', seen', bs' :=
        None, rest, address, word, byteCount, wrote, seen, bs;
      if Blank(rest[0]) {
        ReadBlank(all, seen, rest);
        rest' := rest[1..];
      } else if rest[0] == '@' {
        error, address' := AddressItem(rest, address, word, byteCount, mem0, seen, bs);
        if error.Some? {
          ReadEnd(all, seen, rest, Tokens(rest).1);
          return;
        }
        SeenMore(mem0, seen, At(address'));
        ReadAt(all, seen, rest);
        wrote' := wrote || byteCount != 0;
        word', byteCount', seen', bs' := 0, 0, seen + [At(address')], [];
        rest' := rest[1 + ADDR_LEN..];
      } else {
        error, address', word', byteCount', bs' := DataItem(rest, address, word, byteCount, mem0, seen, bs);
        if error.Some? {
          ReadEnd(all, seen, rest, Tokens(rest).1);
          return;
        }
        SeenMore(mem0, seen, Byte(ParseData(rest).value));
        ReadByte(all, seen, rest);
        wrote' := wrote || byteCount == 3;
        seen' := seen + [Byte(ParseData(rest).value)];
        rest' := rest[BYTE_LEN..];
      }
    }

    /**
     nrf_wifi_hal_fw_hex_load_data.  A complete image leaves in memory what the byte loader leaves;
     but an image without a single data byte is reported as a failure.  An image that stops in the
     middle of an item is read past its end.
     */
    method HexLoad(fwData: string) returns (status: Status)
      modifies this
      ensures fwData == "" ==> status == ReadPastEnd && mem == old(mem)
      ensures fwData != "" && fwData[0] != '@' ==> status == Fail && mem == old(mem)
      ensures fwData != "" && fwData[0] == '@' ==>
        var (toks, scan) := Tokens(fwData); status == Verdict(toks, scan) && mem == Loaded(old(mem), toks, scan)
    {
      if |fwData| == 0 {
        return ReadPastEnd;
      }
      if fwData[0] != '@' {
        return Fail;
      }
      ghost var mem0, seen, bs := mem, [], [];
      var address, word, byteCount := 0, 0, 0;
      var rest := fwData;
      var wrote := false;
      ReadStart(fwData);
      while rest != ""
        invariant Reading(fwData, seen, rest)
        invariant Lags(mem0, seen, bs, mem, address) && word == Pack(bs) && byteCount == |bs|
        invariant wrote || byteCount > 0 <==> HasData(seen)
        decreases |rest|
      {
        var error;
        error, rest, address, word, byteCount, wrote, seen, bs :=
          Item(fwData, rest, address, word, byteCount, wrote, mem0, seen, bs);
        if error.Some? {
          return error.value;
        }
      }
      Flush(address, word, byteCount, mem0, seen, bs);
      ReadEnd(fwData, seen, rest, Done);
      status := if wrote || byteCount != 0 then Success else Fail;
    }
  }
}
