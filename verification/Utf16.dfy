/** Conversion between UTF-8 and UTF-16 (UTF8ToUTF16 and UTF16ToUTF8), on a little-endian machine.

    The converter as written decodes the low surrogate before moving on from the high one, so it sees
    the high surrogate twice; `Corrected` is the variant that looks at the second word. */
module Utf16 {
  import opened Octets
  import opened Utf8

  type Word = w: int | 0 <= w < 0x1_0000

  // ---------- words and bytes ----------

  /** Words in native byte order. */
  function Pack(ws: seq<Word>): Bytes {
    if ws == [] then [] else [ws[0] % 0x100, ws[0] / 0x100] + Pack(ws[1..])
  }

  function Native(low: UInt8, high: UInt8): Word { low as int + high as int * 0x100 }

  /** decode16 at a position. */
  function Decode16(s: Bytes, data: nat, byteSwapped: bool): Word
    requires data + 2 <= |s|
  {
    if byteSwapped then Native(s[data + 1], s[data]) else Native(s[data], s[data + 1])
  }

  /** All words; an odd last byte is ignored. */
  function Words(s: Bytes, byteSwapped: bool): (ws: seq<Word>)
    ensures |ws| == |s| / 2
  {
    if |s| < 2 then [] else [Decode16(s, 0, byteSwapped)] + Words(s[2..], byteSwapped)
  }

  lemma {:induction false} WordsOfPack(ws: seq<Word>)
    ensures Words(Pack(ws), false) == ws
  {
    if ws != [] {
      WordsOfPack(ws[1..]);
      assert Pack(ws)[2..] == Pack(ws[1..]);
    }
  }

  // ---------- UTF-8 to UTF-16 ----------

  /** One character below 0x110000 as one or two words. */
  function Units(c: int): seq<Word>
    requires 0 <= c < 0x11_0000
  {
    if c < 0x1_0000 then [c]
    else [(c - 0x1_0000) / 0x400 + 0xd800, (c - 0x1_0000) % 0x400 + 0xdc00]
  }

  /** The words, and whether some character has no UTF-16 form.  Malformed input is replaced silently. */
  function ToWords(v: Variant, s: Bytes): (seq<Word>, bool) {
    if s == [] then ([], false) else
    var (c, used) := FromUtf8(v, s);
    var (rest, bad) := ToWords(v, s[used..]);
    if c == INVALID then ([REPLACEMENT] + rest, bad)
    else if c >= 0x11_0000 then ([REPLACEMENT] + rest, true)
    else
      CharNonNegative(v, s);
      (Units(c) + rest, bad)
  }

  lemma CharNonNegative(v: Variant, s: Bytes)
    requires s != []
    ensures FromUtf8(v, s).0 >= 0
  {
    var size := Announced(s[0]);
    if 1 <= size <= |s| {
      AssembleRange(v, s, size);
    }
  }

  // ---------- UTF-16 to UTF-8 ----------

  predicate High(w: int) { 0xd800 <= w <= 0xdbff }

  predicate Low(w: int) { 0xdc00 <= w <= 0xdfff }

  function Combine(high: int, low: int): int { (high - 0xd800) * 0x400 + (low - 0xdc00) + 0x1_0000 }

  /** The text, and whether some word could not be decoded. */
  function FromWords(v: Variant, ws: seq<Word>): (Bytes, bool)
    decreases |ws|
  {
    if ws == [] then ([], false)
    else if !Surrogate(ws[0]) then
      var (rest, bad) := FromWords(v, ws[1..]);
      (ToUtf8(ws[0]) + rest, bad)
    else if |ws| == 1 then (ToUtf8(REPLACEMENT), true)
    else if High(ws[0]) then
      var second := if v.AsWritten? then ws[0] else ws[1];
      var (rest, bad) := FromWords(v, ws[2..]);
      if !Low(second) then (ToUtf8(REPLACEMENT) + rest, true)
      else (ToUtf8(Combine(ws[0], second)) + rest, bad)
    else
      var (rest, bad) := FromWords(v, ws[1..]);
      (ToUtf8(REPLACEMENT) + rest, true)
  }

  const BOM := 0xfeff
  const SWAPPED_BOM := 0xfffe

  /** A leading byte order mark is taken off; the swapped one also swaps what follows. */
  function Utf16ToUtf8(v: Variant, s: Bytes): (Bytes, bool) {
    var ws := Words(s, false);
    if ws != [] && ws[0] == BOM then FromWords(v, ws[1..])
    else if ws != [] && ws[0] == SWAPPED_BOM then FromWords(v, Words(s[2..], true))
    else FromWords(v, ws)
  }

  // ---------- the round trip ----------

  /** UTF-8 to UTF-16 and back; the flag tells whether either direction reported an error. */
  function RoundTrip(v: Variant, s: Bytes): (Bytes, bool) {
    var (ws, bad) := ToWords(v, s);
    var (text, bad') := Utf16ToUtf8(v, Pack(ws));
    (text, bad || bad')
  }

  /** The characters of any byte string, malformed parts read as replacement characters. */
  function Decoded(s: Bytes): seq<Char> {
    if s == [] then [] else
    var (c, used) := FromUtf8(Corrected, s);
    if c == INVALID then [REPLACEMENT] + Decoded(s[used..])
    else
      EncodeDecode(s);
      [c] + Decoded(s[used..])
  }

  /** The first character that does not survive: as written, everything beyond the BMP is lost. */
  function Limit(v: Variant): int { if v.AsWritten? then 0x1_0000 else 0x11_0000 }

  function Fate(v: Variant, c: Char): Char { if c < Limit(v) then c else REPLACEMENT }

  function Fates(v: Variant, cs: seq<Char>): seq<Char> {
    if cs == [] then [] else [Fate(v, cs[0])] + Fates(v, cs[1..])
  }

  predicate SomeLost(v: Variant, cs: seq<Char>) {
    cs != [] && (cs[0] >= Limit(v) || SomeLost(v, cs[1..]))
  }

  function StripBom(cs: seq<Char>): seq<Char> {
    if cs != [] && cs[0] == BOM then cs[1..] else cs
  }

  lemma UnitsBack(c: int, rest: seq<Word>)
    requires 0x1_0000 <= c < 0x11_0000
    ensures var ws := Units(c) + rest;
      && |ws| >= 2 && ws[2..] == rest && High(ws[0]) && Low(ws[1]) && !Low(ws[0])
      && Combine(ws[0], ws[1]) == c
  {
  }

  /** One character on its way through both converters. */
  lemma CharThrough(v: Variant, s: Bytes, rest: seq<Word>)
    requires s != []
    ensures var (c, used) := FromUtf8(v, s);
      var first: seq<Word> := if c == INVALID || c >= 0x11_0000 || c < 0 then [REPLACEMENT] else Units(c);
      var d := Decoded(s)[0];
      var (text, bad) := FromWords(v, rest);
      && first != [] && (first[0] == BOM <==> d == BOM) && first[0] != SWAPPED_BOM
      && (d == BOM ==> first == [BOM])
      && FromWords(v, first + rest).0 == Encode(Fate(v, d)) + text
      && ((c != INVALID && c >= 0x11_0000) || FromWords(v, first + rest).1 <==> d >= Limit(v) || bad)
  {
    VariantsAgree(s);
    CharNonNegative(v, s);
    var (c, used) := FromUtf8(v, s);
    if 0x1_0000 <= c < 0x11_0000 {
      UnitsBack(c, rest);
    } else if c != INVALID && c < 0x1_0000 {
      EncodeDecode(s);
      assert ([c] + rest)[1..] == rest;
    } else {
      var r: seq<Word> := [REPLACEMENT];
      assert (r + rest)[1..] == rest;
    }
  }

  /** Both converters in a row, before byte order marks are looked at. */
  lemma {:induction false} ThroughWords(v: Variant, s: Bytes)
    ensures var (ws, bad) := ToWords(v, s);
      var (text, bad') := FromWords(v, ws);
      && text == EncodeAll(Fates(v, Decoded(s)))
      && (bad || bad' <==> SomeLost(v, Decoded(s)))
  {
    if s != [] {
      var used := FromUtf8(v, s).1;
      VariantsAgree(s);
      CharNonNegative(v, s);
      CharThrough(v, s, ToWords(v, s[used..]).0);
      ThroughWords(v, s[used..]);
    }
  }

  /** A leading mark is one word and is taken off; nothing else is mistaken for a mark. */
  lemma FirstWord(v: Variant, s: Bytes)
    requires s != []
    ensures var ws := ToWords(v, s).0;
      && ws != [] && (ws[0] == BOM <==> Decoded(s)[0] == BOM) && ws[0] != SWAPPED_BOM
      && (ws[0] == BOM ==>
           ws[1..] == ToWords(v, s[FromUtf8(v, s).1..]).0
           && ToWords(v, s).1 == ToWords(v, s[FromUtf8(v, s).1..]).1
           && Decoded(s)[1..] == Decoded(s[FromUtf8(v, s).1..]))
  {
    VariantsAgree(s);
    CharNonNegative(v, s);
    CharThrough(v, s, ToWords(v, s[FromUtf8(v, s).1..]).0);
  }

  /** What any byte string becomes on the way to UTF-16 and back: every character below the limit is
      kept, every other one is replaced and reported, and a leading byte order mark is dropped. */
  lemma RoundTripIs(v: Variant, s: Bytes)
    ensures RoundTrip(v, s).0 == EncodeAll(StripBom(Fates(v, Decoded(s))))
    ensures RoundTrip(v, s).1 <==> SomeLost(v, Decoded(s))
  {
    var ws := ToWords(v, s).0;
    WordsOfPack(ws);
    if s == [] {
    } else {
      FirstWord(v, s);
      if ws[0] == BOM {
        ThroughWords(v, s[FromUtf8(v, s).1..]);
        assert Fates(v, Decoded(s)) == [BOM] + Fates(v, Decoded(s)[1..]);
      } else {
        ThroughWords(v, s);
      }
    }
  }

  lemma {:induction false} FatesLength(v: Variant, cs: seq<Char>)
    ensures |Fates(v, cs)| == |cs|
    ensures Fates(v, cs) == cs <==> !SomeLost(v, cs)
  {
    if cs != [] {
      FatesLength(v, cs[1..]);
      if Fates(v, cs) == cs {
        assert Fates(v, cs)[0] == cs[0] && Fates(v, cs)[1..] == cs[1..];
      }
    }
  }

  lemma {:induction false} DecodedOfValid(s: Bytes)
    requires IsUtf8(s)
    ensures Decoded(s) == DecodeAll(s)
  {
    if s != [] {
      VariantsAgree(s);
      DecodedOfValid(s[FromUtf8(Corrected, s).1..]);
    }
  }

  /** The round trip is the identity on exactly the valid strings without a character at or above the
      limit and without a leading byte order mark, and it then reports no error.  As written the limit
      is the end of the BMP; in the corrected variant it is the end of Unicode. */
  lemma RoundTripIdentity(v: Variant, s: Bytes)
    ensures RoundTrip(v, s).0 == s <==>
      IsUtf8(s) && !SomeLost(v, DecodeAll(s)) && (s == [] || DecodeAll(s)[0] != BOM)
    ensures RoundTrip(v, s).0 == s ==> !RoundTrip(v, s).1
  {
    var cs := Decoded(s);
    var kept := StripBom(Fates(v, cs));
    RoundTripIs(v, s);
    FatesLength(v, cs);
    if EncodeAll(kept) == s {
      EncodedIsValid(kept);
      DecodedOfValid(s);
    } else if IsUtf8(s) {
      DecodedOfValid(s);
      ValidIsEncoded(s);
    }
  }

  /** No character of UTF-16 outside the BMP, intact in UTF-8, survives the converters as written. */
  lemma SupplementaryLost(c: Char)
    requires 0x1_0000 <= c < 0x11_0000
    ensures var s := Encode(c);
      IsUtf8(s) && RoundTrip(AsWritten, s) == (Encode(REPLACEMENT), true) && RoundTrip(Corrected, s) == (s, false)
  {
    var cs: seq<Char> := [c];
    var s := Encode(c);
    assert EncodeAll(cs) == s by {
      assert EncodeAll(cs[1..]) == [];
    }
    EncodedIsValid(cs);
    DecodedOfValid(s);
    RoundTripIs(AsWritten, s);
    RoundTripIs(Corrected, s);
    assert cs[1..] == [];
    assert Fates(AsWritten, cs) == [REPLACEMENT];
    assert Fates(Corrected, cs) == cs;
    var r: seq<Char> := [REPLACEMENT];
    assert EncodeAll(r) == Encode(REPLACEMENT) by {
      assert EncodeAll(r[1..]) == [];
    }
  }

  // ---------- byte order marks ----------

  /** Words in the other byte order. */
  function PackSwapped(ws: seq<Word>): Bytes {
    if ws == [] then [] else [ws[0] / 0x100, ws[0] % 0x100] + PackSwapped(ws[1..])
  }

  lemma {:induction false} WordsOfSwapped(ws: seq<Word>)
    ensures Words(PackSwapped(ws), true) == ws
  {
    if ws != [] {
      WordsOfSwapped(ws[1..]);
      assert PackSwapped(ws)[2..] == PackSwapped(ws[1..]);
    }
  }

  /** Text with a byte order mark in either order is read as the same words, and so is text in native
      order without one. */
  lemma MarksTellOrder(v: Variant, ws: seq<Word>)
    ensures Utf16ToUtf8(v, PackSwapped([0xfeff] + ws)) == FromWords(v, ws)
    ensures Utf16ToUtf8(v, Pack([0xfeff] + ws)) == FromWords(v, ws)
    ensures ws == [] || ws[0] !in {0xfeff, 0xfffe} ==> Utf16ToUtf8(v, Pack(ws)) == FromWords(v, ws)
  {
    WordsOfPack(ws);
    WordsOfPack([0xfeff] + ws);
    var s := PackSwapped([0xfeff] + ws);
    assert ([0xfeff] + ws)[1..] == ws;
    assert s[2..] == PackSwapped(ws);
    WordsOfSwapped(ws);
    assert Words(s, false)[0] == SWAPPED_BOM;
  }

  /** U+12345 in words and in little-endian bytes, as in section 5 of RFC 2781. */
  lemma UnitsExample()
    ensures Units(0x1_2345) == [0xd808, 0xdf45] && Combine(0xd808, 0xdf45) == 0x1_2345
    ensures Pack([0xd808, 0xdf45]) == [0x08, 0xd8, 0x45, 0xdf]
  {
    assert Pack([0xdf45][1..]) == [];
    assert [0xd808, 0xdf45][1..] == [0xdf45];
  }

  // ---------- which words are errors ----------

  /** The code points that UTF-16 has a form for. */
  type Scalar = c: int | 0 <= c < 0x11_0000 && !Surrogate(c)

  function AllUnits(cs: seq<Scalar>): seq<Word> {
    if cs == [] then [] else Units(cs[0]) + AllUnits(cs[1..])
  }

  function AllText(cs: seq<Scalar>): Bytes {
    if cs == [] then [] else Encode(cs[0]) + AllText(cs[1..])
  }

  /** The corrected variant accepts what is made of units of characters and decodes it to them... */
  lemma {:induction false} UnitsDecode(cs: seq<Scalar>)
    ensures FromWords(Corrected, AllUnits(cs)) == (AllText(cs), false)
  {
    if cs != [] {
      UnitsDecode(cs[1..]);
      var rest := AllUnits(cs[1..]);
      if cs[0] >= 0x1_0000 {
        UnitsBack(cs[0], rest);
      } else {
        assert AllUnits(cs)[1..] == rest;
      }
    }
  }

  /** ...and nothing else. */
  lemma {:induction false} DecodedAreUnits(ws: seq<Word>) returns (cs: seq<Scalar>)
    requires !FromWords(Corrected, ws).1
    ensures ws == AllUnits(cs)
    decreases |ws|
  {
    if ws == [] {
      cs := [];
    } else if !Surrogate(ws[0]) {
      var rest := DecodedAreUnits(ws[1..]);
      cs := [ws[0]] + rest;
      assert cs[1..] == rest;
    } else {
      var rest := DecodedAreUnits(ws[2..]);
      PairIsUnits(ws[0], ws[1]);
      cs := [Combine(ws[0], ws[1])] + rest;
      assert cs[1..] == rest;
      assert ws == [ws[0], ws[1]] + ws[2..];
    }
  }

  lemma PairIsUnits(high: int, low: int)
    requires High(high) && Low(low)
    ensures 0x1_0000 <= Combine(high, low) < 0x11_0000 && Units(Combine(high, low)) == [high, low]
  {
  }

  lemma CorrectedIffUnits(ws: seq<Word>)
    ensures !FromWords(Corrected, ws).1 <==> exists cs: seq<Scalar> :: ws == AllUnits(cs)
  {
    if !FromWords(Corrected, ws).1 {
      var cs := DecodedAreUnits(ws);
    }
    if cs: seq<Scalar> :| ws == AllUnits(cs) {
      UnitsDecode(cs);
    }
  }

  /** As written every surrogate is an error, paired or not. */
  lemma {:induction false} SurrogatesAreErrors(ws: seq<Word>)
    ensures FromWords(AsWritten, ws).1 <==> exists w :: w in ws && Surrogate(w)
    decreases |ws|
  {
    if ws != [] {
      assert ws == [ws[0]] + ws[1..];
      if !Surrogate(ws[0]) {
        SurrogatesAreErrors(ws[1..]);
      } else {
        assert ws[0] in ws;
      }
    }
  }

  // ---------- the methods, as written ----------

  lemma {:induction false} PackConcat(a: seq<Word>, b: seq<Word>)
    ensures Pack(a + b) == Pack(a) + Pack(b)
  {
    if a == [] {
      assert a + b == b;
    } else {
      assert (a + b)[1..] == a[1..] + b;
      PackConcat(a[1..], b);
    }
  }

  lemma PackWord(w: Word)
    ensures Pack([w]) == [w % 0x100, w / 0x100]
  {
    assert Pack([w][1..]) == [];
  }

  /** One turn of the loop in UTF8ToUTF16. */
  lemma ToWordsStep(s: Bytes) returns (units: Bytes, bad: bool)
    requires s != []
    ensures var (c, used) := FromUtf8(AsWritten, s);
      var (rest, bad') := ToWords(AsWritten, s[used..]);
      var x := if c == INVALID || c >= 0x11_0000 then REPLACEMENT else c;
      && 0 <= x < 0x11_0000 && units == Pack(Units(x))
      && bad == (c != INVALID && c >= 0x11_0000)
      && Pack(ToWords(AsWritten, s).0) == units + Pack(rest)
      && (ToWords(AsWritten, s).1 <==> bad || bad')
  {
    var (c, used) := FromUtf8(AsWritten, s);
    CharNonNegative(AsWritten, s);
    var x := if c == INVALID || c >= 0x11_0000 then REPLACEMENT else c;
    units, bad := Pack(Units(x)), c != INVALID && c >= 0x11_0000;
    PackConcat(Units(x), ToWords(AsWritten, s[used..]).0);
  }

  /** The part of `all` that has been written grows by what is taken from the part to come. */
  lemma Moved(written: Bytes, next: Bytes, rest: Bytes, all: Bytes)
    requires written + (next + rest) == all
    ensures (written + next) + rest == all
  {
  }

  /** Between two turns of that loop: what has been written and what is left make up the whole. */
  ghost predicate Converting(left: Bytes, dst: Bytes, errors: bool, all: (Bytes, bool)) {
    dst + Pack(ToWords(AsWritten, left).0) == all.0 && (errors || ToWords(AsWritten, left).1 <==> all.1)
  }

  lemma ConvertingStep(left: Bytes, dst: Bytes, errors: bool, all: (Bytes, bool))
    requires left != [] && Converting(left, dst, errors, all)
    ensures var (c, used) := FromUtf8(AsWritten, left);
      var x := if c == INVALID || c >= 0x11_0000 then REPLACEMENT else c;
      && 0 <= x < 0x11_0000
      && Converting(left[used..], dst + Pack(Units(x)), errors || (c != INVALID && c >= 0x11_0000), all)
  {
    var units, bad := ToWordsStep(left);
    var rest := left[FromUtf8(AsWritten, left).1..];
    Moved(dst, units, Pack(ToWords(AsWritten, rest).0), all.0);
  }

  method UTF8ToUTF16(src: Bytes) returns (dst: Bytes, errors: bool)
    ensures dst == Pack(ToWords(AsWritten, src).0) && errors == ToWords(AsWritten, src).1
  {
    dst, errors := [], false;
    var data, n := 0, |src|;
    ghost var all := (Pack(ToWords(AsWritten, src).0), ToWords(AsWritten, src).1);
    assert [] + all.0 == all.0 && src[0..] == src;
    while n > 0
      invariant 0 <= n && 0 <= data && data + n == |src|
      invariant Converting(src[data..], dst, errors, all)
      decreases n
    {
      dst, errors, data, n := ConvertNext(src, data, n, dst, errors, all);
    }
    assert dst + [] == dst && src[data..] == [];
  }

  /** The body of that loop. */
  method ConvertNext(src: Bytes, data: nat, n: nat, dst: Bytes, errors: bool, ghost all: (Bytes, bool))
    returns (dst': Bytes, errors': bool, data': nat, n': nat)
    requires n > 0 && data + n == |src| && Converting(src[data..], dst, errors, all)
    ensures data < data' && data' + n' == |src| && Converting(src[data'..], dst', errors', all)
  {
    ConvertingStep(src[data..], dst, errors, all);
    var c;
    c, data', n' := FromUTF8(src, data, n);
    assert src[data..][data' - data..] == src[data'..];
    errors' := errors;
    if c == INVALID {
      c := REPLACEMENT;
    } else if c >= 0x11_0000 {
      errors' := true;
      c := REPLACEMENT;
    }
    dst' := AppendUnits(dst, c);
  }

  method AppendUnits(dst: Bytes, c: int) returns (dst': Bytes)
    requires 0 <= c < 0x11_0000
    ensures dst' == dst + Pack(Units(c))
  {
    if c < 0x1_0000 {
      PackWord(c);
      dst' := dst + [c % 0x100, c / 0x100];
    } else {
      var x := c - 0x1_0000;
      var utf16h := x / 0x400 + 0xd800;
      var utf16l := x % 0x400 + 0xdc00;
      PackWord(utf16h);
      PackWord(utf16l);
      PackConcat([utf16h], [utf16l]);
      assert Units(c) == [utf16h] + [utf16l];
      dst' := dst + [utf16h % 0x100, utf16h / 0x100] + [utf16l % 0x100, utf16l / 0x100];
    }
  }

  lemma WordsStep(s: Bytes, data: nat, byteSwapped: bool)
    requires data + 2 <= |s|
    ensures Words(s[data..], byteSwapped) == [Decode16(s, data, byteSwapped)] + Words(s[data + 2..], byteSwapped)
  {
    assert s[data..][2..] == s[data + 2..];
  }

  /** One turn of the loop in doUTF16ToUTF8. */
  lemma FromWordsStep(s: Bytes, data: nat, byteSwapped: bool) returns (text: Bytes, bad: bool, used: nat)
    requires data + 2 <= |s|
    ensures var c := Decode16(s, data, byteSwapped);
      && used == (if High(c) && data + 4 <= |s| then 2 else 1)
      && text == ToUtf8(if Surrogate(c) then REPLACEMENT else c)
      && bad == Surrogate(c)
    ensures data + 2 * used <= |s|
    ensures var ws := Words(s[data..], byteSwapped);
      var rest := Words(s[data + 2 * used..], byteSwapped);
      && FromWords(AsWritten, ws).0 == text + FromWords(AsWritten, rest).0
      && (FromWords(AsWritten, ws).1 <==> bad || FromWords(AsWritten, rest).1)
  {
    var ws := Words(s[data..], byteSwapped);
    WordsStep(s, data, byteSwapped);
    text, bad := ToUtf8(if Surrogate(ws[0]) then REPLACEMENT else ws[0]), Surrogate(ws[0]);
    if High(ws[0]) && data + 4 <= |s| {
      used := 2;
      WordsStep(s, data + 2, byteSwapped);
      assert ws[2..] == Words(s[data + 4..], byteSwapped);
    } else {
      used := 1;
      assert ws[1..] == Words(s[data + 2..], byteSwapped);
      assert |ws| == 1 && Surrogate(ws[0]) ==> ws[1..] == [] && text + [] == text;
    }
  }

  /** A high surrogate and the word taken for its partner. */
  method AppendPair(dst: Bytes, c: int, c2: int) returns (dst': Bytes, bad: bool)
    requires High(c) && 0 <= c2 < 0x1_0000
    ensures dst' == dst + ToUtf8(if Low(c2) then Combine(c, c2) else REPLACEMENT)
    ensures bad == !Low(c2)
  {
    if c2 < 0xdc00 || c2 > 0xdfff {
      dst', bad := ToUTF8(dst, REPLACEMENT);
      bad := true;
    } else {
      dst', bad := ToUTF8(dst, (c - 0xd800) * 0x400 + (c2 - 0xdc00) + 0x1_0000);
    }
  }

  /** doUTF16ToUTF8 up to the loop: takes a byte order mark off. */
  method UTF16ToUTF8(src: Bytes) returns (dst: Bytes, errors: bool)
    ensures (dst, errors) == Utf16ToUtf8(AsWritten, src)
  {
    var data, n, byteSwapped := 0, |src| / 2, false;
    assert src[0..] == src;
    if n >= 1 {
      WordsStep(src, 0, false);
      var first := Decode16(src, data, false);
      if first == BOM {
        data, n := data + 2, n - 1;
      } else if first == SWAPPED_BOM {
        byteSwapped, data, n := true, data + 2, n - 1;
      }
    }
    dst, errors := ConvertWords(src, data, n, byteSwapped);
  }

  ghost predicate Reading(src: Bytes, data: nat, byteSwapped: bool, dst: Bytes, errors: bool, all: (Bytes, bool)) {
    data <= |src| &&
    var left := FromWords(AsWritten, Words(src[data..], byteSwapped));
    dst + left.0 == all.0 && (errors || left.1 <==> all.1)
  }

  lemma ReadingStep(src: Bytes, data: nat, byteSwapped: bool, dst: Bytes, errors: bool, all: (Bytes, bool))
    requires Reading(src, data, byteSwapped, dst, errors, all) && data + 2 <= |src|
    ensures var c := Decode16(src, data, byteSwapped);
      var used := if High(c) && data + 4 <= |src| then 2 else 1;
      Reading(src, data + 2 * used, byteSwapped, dst + ToUtf8(if Surrogate(c) then REPLACEMENT else c), errors || Surrogate(c), all)
  {
    var text, bad, used := FromWordsStep(src, data, byteSwapped);
    Moved(dst, text, FromWords(AsWritten, Words(src[data + 2 * used..], byteSwapped)).0, all.0);
  }

  lemma ReadingEnd(src: Bytes, data: nat, byteSwapped: bool, dst: Bytes, errors: bool, all: (Bytes, bool))
    requires Reading(src, data, byteSwapped, dst, errors, all) && |src| - data < 2
    ensures (dst, errors) == all
  {
    assert dst + [] == dst;
  }

  /** The loop of doUTF16ToUTF8. */
  method ConvertWords(src: Bytes, start: nat, count: nat, byteSwapped: bool) returns (dst: Bytes, errors: bool)
    requires start <= |src| && count == (|src| - start) / 2
    ensures (dst, errors) == FromWords(AsWritten, Words(src[start..], byteSwapped))
  {
    dst, errors := [], false;
    var data: nat, n := start, count;
    ghost var all := FromWords(AsWritten, Words(src[start..], byteSwapped));
    assert dst + all.0 == all.0;
    while n > 0
      invariant 0 <= 2 * n <= |src| - data < 2 * n + 2 && Reading(src, data, byteSwapped, dst, errors, all)
      decreases n
    {
      ReadingStep(src, data, byteSwapped, dst, errors, all);
      var bad, used;
      dst, bad, used := ConvertOne(src, dst, data, n, byteSwapped);
      errors := errors || bad;
      data, n := data + 2 * used, n - used;
    }
    ReadingEnd(src, data, byteSwapped, dst, errors, all);
  }

  /** The body of that loop; `used` words are read. */
  method ConvertOne(src: Bytes, dst: Bytes, data: nat, n: nat, byteSwapped: bool) returns (dst': Bytes, bad: bool, used: nat)
    requires 1 <= n && data + 2 * n <= |src|
    ensures var c := Decode16(src, data, byteSwapped);
      && used == (if High(c) && n > 1 then 2 else 1)
      && dst' == dst + ToUtf8(if Surrogate(c) then REPLACEMENT else c)
      && bad == Surrogate(c)
  {
    var c: int := Decode16(src, data, byteSwapped);
    used := 1;
    if c < 0xd800 || c > 0xdfff {
      dst', bad := ToUTF8(dst, c);
    } else if n == 1 {
      // missing second word
      dst', bad := ToUTF8(dst, REPLACEMENT);
      bad := true;
    } else if c >= 0xd800 && c <= 0xdbff {
      var c2 := Decode16(src, data, byteSwapped);
      used := 2;
      dst', bad := AppendPair(dst, c, c2);
    } else {
      // a low surrogate without a high one before it
      dst', bad := ToUTF8(dst, REPLACEMENT);
      bad := true;
    }
  }
}
