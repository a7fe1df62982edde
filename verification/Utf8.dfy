/** The UTF-8 half of CUnicode: decoding one character, encoding one character, and the validity test.

    Masks and shifts are written as remainders, quotients and products.  The decoder as written reads
    the second byte again in place of the third to sixth of a 4, 5 or 6 byte form; `Corrected` is the
    variant that reads each byte once. */
module Utf8 {
  import opened Octets

  datatype Variant = AsWritten | Corrected

  const INVALID := 0xffff       // s_invalid
  const REPLACEMENT := 0xfffd   // s_replacement

  predicate Surrogate(c: int) { 0xd800 <= c <= 0xdfff }

  /** The code points of ISO 10646 that the decoder accepts. */
  predicate Valid(c: int) { 0 <= c < 0x8000_0000 && !Surrogate(c) && c != 0xfffe && c != 0xffff }

  type Char = c: int | Valid(c)

  // ---------- decoding ----------

  /** The length announced by a lead byte; 0 if it cannot start a character. */
  function Announced(lead: UInt8): (size: nat)
    ensures size <= 6
  {
    if lead < 0x80 then 1
    else if lead < 0xc0 then 0
    else if lead < 0xe0 then 2
    else if lead < 0xf0 then 3
    else if lead < 0xf8 then 4
    else if lead < 0xfc then 5
    else if lead < 0xfe then 6
    else 0
  }

  predicate Continues(b: UInt8) { 0x80 <= b < 0xc0 }

  /** The first position from k on, below size, that does not hold a continuation byte. */
  function Intact(s: Bytes, k: nat, size: nat): (n: nat)
    requires k <= size <= |s|
    ensures k <= n <= size
    ensures forall i :: k <= i < n ==> Continues(s[i])
    ensures n < size ==> !Continues(s[n])
    decreases size - k
  {
    if k == size || !Continues(s[k]) then k else Intact(s, k + 1, size)
  }

  /** The payload of the k-th byte, as this variant reads it. */
  function Bits(v: Variant, s: Bytes, k: nat): int
    requires 1 <= k < |s|
  {
    (if v.AsWritten? then s[1] else s[k]) % 0x40
  }

  function Assemble(v: Variant, s: Bytes, size: nat): int
    requires 1 <= size <= 6 && size <= |s|
  {
    var lead: int := s[0];
    match size
    case 1 => lead
    case 2 => lead % 0x20 * 0x40 + s[1] as int % 0x40
    case 3 => lead % 0x10 * 0x1000 + s[1] as int % 0x40 * 0x40 + s[2] as int % 0x40
    case 4 => lead % 0x08 * 0x4_0000 + s[1] as int % 0x40 * 0x1000 + Bits(v, s, 2) * 0x40 + Bits(v, s, 3)
    case 5 => lead % 0x04 * 0x100_0000 + s[1] as int % 0x40 * 0x4_0000 + Bits(v, s, 2) * 0x1000 + Bits(v, s, 3) * 0x40
              + Bits(v, s, 4)
    case _ => lead % 0x02 * 0x4000_0000 + s[1] as int % 0x40 * 0x100_0000 + Bits(v, s, 2) * 0x4_0000 + Bits(v, s, 3) * 0x1000
              + Bits(v, s, 4) * 0x40 + Bits(v, s, 5)
  }

  function MinChar(size: nat): int {
    if size <= 1 then 0
    else if size == 2 then 0x80
    else if size == 3 then 0x800
    else if size == 4 then 0x1_0000
    else if size == 5 then 0x20_0000
    else 0x400_0000
  }

  /** The character at the start of the bytes and how many of them it takes. */
  function FromUtf8(v: Variant, s: Bytes): (r: (int, nat))
    requires s != []
    ensures 1 <= r.1 <= |s|
  {
    var size := Announced(s[0]);
    if size == 0 then (INVALID, 1)
    else if size > |s| then (INVALID, |s|)
    else
      var n := Intact(s, 1, size);
      if n < size then (INVALID, n)
      else
        var c := Assemble(v, s, size);
        if c < MinChar(size) || Surrogate(c) || c == 0xfffe || c == 0xffff then (INVALID, size)
        else (c, size)
  }

  // ---------- encoding ----------

  function Length(c: int): nat {
    if c < 0x80 then 1
    else if c < 0x800 then 2
    else if c < 0x1_0000 then 3
    else if c < 0x20_0000 then 4
    else if c < 0x400_0000 then 5
    else 6
  }

  function Encode(c: int): (s: Bytes)
    requires 0 <= c < 0x8000_0000
    ensures |s| == Length(c)
  {
    match Length(c)
    case 1 => [c]
    case 2 => [c / 0x40 % 0x20 + 0xc0, c % 0x40 + 0x80]
    case 3 => [c / 0x1000 % 0x10 + 0xe0, c / 0x40 % 0x40 + 0x80, c % 0x40 + 0x80]
    case 4 => [c / 0x4_0000 % 0x08 + 0xf0, c / 0x1000 % 0x40 + 0x80, c / 0x40 % 0x40 + 0x80, c % 0x40 + 0x80]
    case 5 => [c / 0x100_0000 % 0x04 + 0xf8, c / 0x4_0000 % 0x40 + 0x80, c / 0x1000 % 0x40 + 0x80, c / 0x40 % 0x40 + 0x80,
               c % 0x40 + 0x80]
    case _ => [c / 0x4000_0000 % 0x02 + 0xfc, c / 0x100_0000 % 0x40 + 0x80, c / 0x4_0000 % 0x40 + 0x80, c / 0x1000 % 0x40 + 0x80,
               c / 0x40 % 0x40 + 0x80, c % 0x40 + 0x80]
  }

  /** toUTF8: characters outside the encodable range become the replacement character. */
  function ToUtf8(c: int): Bytes
    requires 0 <= c
  {
    if Surrogate(c) || c >= 0x8000_0000 then Encode(REPLACEMENT) else Encode(c)
  }

  function EncodeAll(cs: seq<Char>): Bytes {
    if cs == [] then [] else Encode(cs[0]) + EncodeAll(cs[1..])
  }

  // ---------- decoding undoes encoding ----------

  /** The base-64 digits that the encoder takes from a character. */
  lemma Digits(c: int)
    requires 0 <= c < 0x8000_0000
    ensures c / 0x1000 == c / 0x40 / 0x40
    ensures c / 0x4_0000 == c / 0x1000 / 0x40
    ensures c / 0x100_0000 == c / 0x4_0000 / 0x40
    ensures c / 0x4000_0000 == c / 0x100_0000 / 0x40
  {
  }

  lemma LengthTop(c: int)
    requires 0 <= c < 0x8000_0000
    ensures Length(c) == 2 ==> c / 0x40 < 0x20
    ensures Length(c) == 3 ==> c / 0x1000 < 0x10
    ensures Length(c) == 4 ==> c / 0x4_0000 < 0x08
    ensures Length(c) == 5 ==> c / 0x100_0000 < 0x04
    ensures c / 0x4000_0000 < 0x02
  {
  }

  lemma EncodeShape(c: int, tail: Bytes)
    requires 0 <= c < 0x8000_0000
    ensures var s := Encode(c) + tail;
      && Announced(s[0]) == Length(c) == |Encode(c)|
      && (forall i :: 1 <= i < Length(c) ==> Continues(s[i]))
  {
  }

  /** A continuation byte gives its digit back, and so does a lead byte. */
  lemma DigitOfByte(d: int)
    ensures 0 <= d < 0x40 ==> (d + 0x80) % 0x40 == d
    ensures 0 <= d < 0x20 ==> (d + 0xc0) % 0x20 == d
    ensures 0 <= d < 0x10 ==> (d + 0xe0) % 0x10 == d
    ensures 0 <= d < 0x08 ==> (d + 0xf0) % 0x08 == d
    ensures 0 <= d < 0x04 ==> (d + 0xf8) % 0x04 == d
    ensures 0 <= d < 0x02 ==> (d + 0xfc) % 0x02 == d
  {
  }

  lemma Regroup(c: int)
    requires 0 <= c < 0x8000_0000
    ensures c == c / 0x40 * 0x40 + c % 0x40
    ensures c == c / 0x1000 * 0x1000 + c / 0x40 % 0x40 * 0x40 + c % 0x40
    ensures c == c / 0x4_0000 * 0x4_0000 + c / 0x1000 % 0x40 * 0x1000 + c / 0x40 % 0x40 * 0x40 + c % 0x40
    ensures c == c / 0x100_0000 * 0x100_0000 + c / 0x4_0000 % 0x40 * 0x4_0000 + c / 0x1000 % 0x40 * 0x1000
                 + c / 0x40 % 0x40 * 0x40 + c % 0x40
    ensures c == c / 0x4000_0000 * 0x4000_0000 + c / 0x100_0000 % 0x40 * 0x100_0000 + c / 0x4_0000 % 0x40 * 0x4_0000
                 + c / 0x1000 % 0x40 * 0x1000 + c / 0x40 % 0x40 * 0x40 + c % 0x40
  {
    Digits(c);
  }

  /** What the decoder extracts from an encoded character, byte by byte. */
  lemma EncodedDigits(c: int, tail: Bytes)
    requires 0 <= c < 0x8000_0000
    ensures var s := Encode(c) + tail;
      match Length(c)
      case 1 => s[0] as int == c
      case 2 => s[0] as int % 0x20 == c / 0x40 && s[1] as int % 0x40 == c % 0x40
      case 3 => s[0] as int % 0x10 == c / 0x1000 && s[1] as int % 0x40 == c / 0x40 % 0x40 && s[2] as int % 0x40 == c % 0x40
      case 4 => s[0] as int % 0x08 == c / 0x4_0000 && s[1] as int % 0x40 == c / 0x1000 % 0x40
                && s[2] as int % 0x40 == c / 0x40 % 0x40 && s[3] as int % 0x40 == c % 0x40
      case 5 => s[0] as int % 0x04 == c / 0x100_0000 && s[1] as int % 0x40 == c / 0x4_0000 % 0x40
                && s[2] as int % 0x40 == c / 0x1000 % 0x40 && s[3] as int % 0x40 == c / 0x40 % 0x40 && s[4] as int % 0x40 == c % 0x40
      case _ => s[0] as int % 0x02 == c / 0x4000_0000 && s[1] as int % 0x40 == c / 0x100_0000 % 0x40
                && s[2] as int % 0x40 == c / 0x4_0000 % 0x40 && s[3] as int % 0x40 == c / 0x1000 % 0x40
                && s[4] as int % 0x40 == c / 0x40 % 0x40 && s[5] as int % 0x40 == c % 0x40
  {
    LengthTop(c);
    DigitOfByte(c % 0x40);
    DigitOfByte(c / 0x40 % 0x40);
    DigitOfByte(c / 0x1000 % 0x40);
    DigitOfByte(c / 0x4_0000 % 0x40);
    DigitOfByte(c / 0x100_0000 % 0x40);
    match Length(c) {
      case 2 => DigitOfByte(c / 0x40);
      case 3 => DigitOfByte(c / 0x1000);
      case 4 => DigitOfByte(c / 0x4_0000);
      case 5 => DigitOfByte(c / 0x100_0000);
      case _ => DigitOfByte(c / 0x4000_0000);
    }
  }

  lemma AssembleEncode(c: int, tail: Bytes)
    requires 0 <= c < 0x8000_0000
    ensures Assemble(Corrected, Encode(c) + tail, Length(c)) == c
  {
    Regroup(c);
    EncodedDigits(c, tail);
  }

  /** Decoding an encoded character gives it back and takes exactly its bytes. */
  lemma DecodeEncode(c: int, tail: Bytes)
    requires Valid(c)
    ensures FromUtf8(Corrected, Encode(c) + tail) == (c, Length(c))
  {
    var s := Encode(c) + tail;
    EncodeShape(c, tail);
    AssembleEncode(c, tail);
    DecodeIntact(s, Length(c));
  }

  lemma DecodeIntact(s: Bytes, size: nat)
    requires s != [] && Announced(s[0]) == size && 1 <= size <= |s|
    requires forall i :: 1 <= i < size ==> Continues(s[i])
    ensures var c := Assemble(Corrected, s, size);
      FromUtf8(Corrected, s) == (if c < MinChar(size) || Surrogate(c) || c == 0xfffe || c == 0xffff then INVALID else c, size)
  {
  }

  /** The repeated second byte still decides the overlong test: its six bits and the lead byte's are
      all that the test depends on. */
  lemma SameOverlong(s: Bytes, size: nat)
    requires 4 <= size <= 6 && size <= |s|
    ensures Assemble(AsWritten, s, size) < MinChar(size) <==> Assemble(Corrected, s, size) < MinChar(size)
  {
  }

  lemma AssembleRange(v: Variant, s: Bytes, size: nat)
    requires 1 <= size <= 6 && size <= |s| && Announced(s[0]) == size
    ensures 0 <= Assemble(v, s, size) < 0x8000_0000
    ensures size <= 3 ==> Assemble(v, s, size) < 0x1_0000
    ensures size <= 3 ==> Assemble(AsWritten, s, size) == Assemble(Corrected, s, size)
  {
  }

  /** As written, the decoder accepts the same bytes as the corrected one, takes as many of them, and
      gives the same character below 0x10000; a longer form still gives something above. */
  lemma VariantsAgree(s: Bytes)
    requires s != []
    ensures var (c, used) := FromUtf8(Corrected, s);
      var (c', used') := FromUtf8(AsWritten, s);
      && used' == used
      && (c' == INVALID <==> c == INVALID)
      && (c < 0x1_0000 ==> c' == c)
      && (c >= 0x1_0000 ==> c' >= 0x1_0000)
  {
    var size := Announced(s[0]);
    if 1 <= size <= |s| {
      AssembleRange(AsWritten, s, size);
      if size >= 4 {
        SameOverlong(s, size);
      }
    }
  }

  /** The variant reads the character right: the repeated byte is the byte that should have been read. */
  predicate ReadRight(v: Variant, c: int)
    requires Valid(c)
  {
    v.Corrected? || forall k :: 2 <= k < Length(c) && Length(c) >= 4 ==> Encode(c)[k] == Encode(c)[1]
  }

  /** Each variant decodes an encoded character to a character of the same length, and to that very
      character if and only if it is short or its continuation bytes are all the same. */
  lemma DecodeEncodeIff(v: Variant, c: int, tail: Bytes)
    requires Valid(c)
    ensures var (c', used) := FromUtf8(v, Encode(c) + tail);
      used == Length(c) && c' != INVALID && (c' == c <==> ReadRight(v, c))
  {
    var s := Encode(c) + tail;
    DecodeEncode(c, tail);
    VariantsAgree(s);
    EncodeShape(c, tail);
    if v.AsWritten? && Length(c) >= 4 {
      SameAssembledIff(s, Length(c));
      assert forall k :: 0 <= k < Length(c) ==> s[k] == Encode(c)[k];
    }
  }

  /** One character of each length, by the tables in section 3 of RFC 3629 and section 2 of RFC 2279. */
  lemma EncodedExamples()
    ensures Encode(0x41) == [0x41] && Encode(0xa2) == [0xc2, 0xa2] && Encode(0x20ac) == [0xe2, 0x82, 0xac]
    ensures Encode(0x1_0348) == [0xf0, 0x90, 0x8d, 0x88] && Encode(0x20_0001) == [0xf8, 0x88, 0x80, 0x80, 0x81]
    ensures Encode(0x400_0002) == [0xfc, 0x84, 0x80, 0x80, 0x80, 0x82] && Encode(REPLACEMENT) == [0xef, 0xbf, 0xbd]
  {
  }

  /** U+10000 is encoded as F0 90 80 80, which is read as F0 90 90 90. */
  lemma MisreadExample()
    ensures Encode(0x1_0000) == [0xf0, 0x90, 0x80, 0x80] && !ReadRight(AsWritten, 0x1_0000)
    ensures FromUtf8(AsWritten, Encode(0x1_0000)) == (0x1_0410, 4)
  {
    var s := Encode(0x1_0000);
    assert Assemble(AsWritten, s, 4) == 0x1_0410;
    assert Intact(s, 1, 4) == 4;
  }

  lemma SameAssembledIff(s: Bytes, size: nat)
    requires 4 <= size <= 6 && size <= |s| && forall i :: 1 <= i < size ==> Continues(s[i])
    ensures Assemble(AsWritten, s, size) == Assemble(Corrected, s, size) <==> forall k :: 2 <= k < size ==> s[k] == s[1]
  {
    assert forall i :: 1 <= i < size ==> s[i] as int % 0x40 == s[i] as int - 0x80;
    match size {
      case 4 =>
      case 5 =>
      case _ =>
    }
  }

  lemma AssembledLength(s: Bytes, size: nat)
    requires 1 <= size <= 6 && size <= |s| && Announced(s[0]) == size
    requires Assemble(Corrected, s, size) >= MinChar(size)
    ensures 0 <= Assemble(Corrected, s, size) < 0x8000_0000
    ensures Length(Assemble(Corrected, s, size)) == size
  {
  }

  /** c is the number with these base-64 digits, most significant first. */
  lemma Digits2(c: int, h: int, d: int)
    requires 0 <= d < 0x40 && c == h * 0x40 + d
    ensures c / 0x40 == h && c % 0x40 == d
  {
  }

  lemma Digits3(c: int, h: int, d1: int, d2: int)
    requires 0 <= c < 0x8000_0000 && 0 <= d1 < 0x40 && 0 <= d2 < 0x40 && c == h * 0x1000 + d1 * 0x40 + d2
    ensures c / 0x1000 == h && c / 0x40 % 0x40 == d1 && c % 0x40 == d2
  {
    Digits(c);
    Digits2(c, h * 0x40 + d1, d2);
    Digits2(h * 0x40 + d1, h, d1);
  }

  lemma Digits4(c: int, h: int, d1: int, d2: int, d3: int)
    requires 0 <= c < 0x8000_0000 && 0 <= d1 < 0x40 && 0 <= d2 < 0x40 && 0 <= d3 < 0x40
    requires c == h * 0x4_0000 + d1 * 0x1000 + d2 * 0x40 + d3
    ensures c / 0x4_0000 == h && c / 0x1000 % 0x40 == d1 && c / 0x40 % 0x40 == d2 && c % 0x40 == d3
  {
    Digits(c);
    Digits3(c, h * 0x40 + d1, d2, d3);
    Digits2(h * 0x40 + d1, h, d1);
  }

  lemma Digits5(c: int, h: int, d1: int, d2: int, d3: int, d4: int)
    requires 0 <= c < 0x8000_0000 && 0 <= d1 < 0x40 && 0 <= d2 < 0x40 && 0 <= d3 < 0x40 && 0 <= d4 < 0x40
    requires c == h * 0x100_0000 + d1 * 0x4_0000 + d2 * 0x1000 + d3 * 0x40 + d4
    ensures c / 0x100_0000 == h && c / 0x4_0000 % 0x40 == d1 && c / 0x1000 % 0x40 == d2 && c / 0x40 % 0x40 == d3 && c % 0x40 == d4
  {
    Digits(c);
    Digits4(c, h * 0x40 + d1, d2, d3, d4);
    Digits2(h * 0x40 + d1, h, d1);
  }

  lemma Digits6(c: int, h: int, d1: int, d2: int, d3: int, d4: int, d5: int)
    requires 0 <= c < 0x8000_0000 && 0 <= d1 < 0x40 && 0 <= d2 < 0x40 && 0 <= d3 < 0x40 && 0 <= d4 < 0x40 && 0 <= d5 < 0x40
    requires c == h * 0x4000_0000 + d1 * 0x100_0000 + d2 * 0x4_0000 + d3 * 0x1000 + d4 * 0x40 + d5
    ensures c / 0x4000_0000 == h && c / 0x100_0000 % 0x40 == d1 && c / 0x4_0000 % 0x40 == d2 && c / 0x1000 % 0x40 == d3
    ensures c / 0x40 % 0x40 == d4 && c % 0x40 == d5
  {
    Digits(c);
    Digits5(c, h * 0x40 + d1, d2, d3, d4, d5);
    Digits2(h * 0x40 + d1, h, d1);
  }

  lemma ContinuationBytes(s: Bytes, size: nat)
    requires size <= |s| && forall i :: 1 <= i < size ==> Continues(s[i])
    ensures forall i :: 1 <= i < size ==> s[i] as int == s[i] as int % 0x40 + 0x80
  {
  }

  lemma LeadByte(lead: UInt8)
    ensures Announced(lead) == 2 ==> lead as int == lead as int % 0x20 + 0xc0 && lead as int % 0x20 % 0x20 == lead as int % 0x20
    ensures Announced(lead) == 3 ==> lead as int == lead as int % 0x10 + 0xe0
    ensures Announced(lead) == 4 ==> lead as int == lead as int % 0x08 + 0xf0
    ensures Announced(lead) == 5 ==> lead as int == lead as int % 0x04 + 0xf8
    ensures Announced(lead) == 6 ==> lead as int == lead as int % 0x02 + 0xfc
  {
  }

  /** Encoding what an intact, not overlong form stands for gives its bytes back. */
  lemma EncodeAssemble(s: Bytes, size: nat)
    requires 1 <= size <= 6 && size == |s| && Announced(s[0]) == size
    requires forall i :: 1 <= i < size ==> Continues(s[i])
    requires Assemble(Corrected, s, size) >= MinChar(size)
    ensures 0 <= Assemble(Corrected, s, size) < 0x8000_0000
    ensures Encode(Assemble(Corrected, s, size)) == s
  {
    AssembledLength(s, size);
    ContinuationBytes(s, size);
    LeadByte(s[0]);
    match size {
      case 4 => EncodeAssemble4(s);
      case 5 => EncodeAssemble5(s);
      case 6 => EncodeAssemble6(s);
      case _ => EncodeAssembleShort(s);
    }
  }

  lemma EncodeAssembleShort(s: Bytes)
    requires 1 <= |s| <= 3 && Announced(s[0]) == |s|
    requires forall i :: 1 <= i < |s| ==> s[i] as int == s[i] as int % 0x40 + 0x80
    requires 0 <= Assemble(Corrected, s, |s|) < 0x8000_0000 && Length(Assemble(Corrected, s, |s|)) == |s|
    ensures Encode(Assemble(Corrected, s, |s|)) == s
  {
    var c := Assemble(Corrected, s, |s|);
    LeadByte(s[0]);
    match |s| {
      case 1 =>
      case 2 => Digits2(c, s[0] as int % 0x20, s[1] as int % 0x40);
      case _ => Digits3(c, s[0] as int % 0x10, s[1] as int % 0x40, s[2] as int % 0x40);
    }
  }

  lemma EncodeAssemble4(s: Bytes)
    requires |s| == 4 && Announced(s[0]) == 4
    requires forall i :: 1 <= i < 4 ==> s[i] as int == s[i] as int % 0x40 + 0x80
    requires 0 <= Assemble(Corrected, s, 4) < 0x8000_0000 && Length(Assemble(Corrected, s, 4)) == 4
    ensures Encode(Assemble(Corrected, s, 4)) == s
  {
    LeadByte(s[0]);
    Digits4(Assemble(Corrected, s, 4), s[0] as int % 0x08, s[1] as int % 0x40, s[2] as int % 0x40, s[3] as int % 0x40);
  }

  lemma EncodeAssemble5(s: Bytes)
    requires |s| == 5 && Announced(s[0]) == 5
    requires forall i :: 1 <= i < 5 ==> s[i] as int == s[i] as int % 0x40 + 0x80
    requires 0 <= Assemble(Corrected, s, 5) < 0x8000_0000 && Length(Assemble(Corrected, s, 5)) == 5
    ensures Encode(Assemble(Corrected, s, 5)) == s
  {
    LeadByte(s[0]);
    Digits5(Assemble(Corrected, s, 5), s[0] as int % 0x04, s[1] as int % 0x40, s[2] as int % 0x40, s[3] as int % 0x40,
            s[4] as int % 0x40);
  }

  lemma EncodeAssemble6(s: Bytes)
    requires |s| == 6 && Announced(s[0]) == 6
    requires forall i :: 1 <= i < 6 ==> s[i] as int == s[i] as int % 0x40 + 0x80
    requires 0 <= Assemble(Corrected, s, 6) < 0x8000_0000 && Length(Assemble(Corrected, s, 6)) == 6
    ensures Encode(Assemble(Corrected, s, 6)) == s
  {
    LeadByte(s[0]);
    Digits6(Assemble(Corrected, s, 6), s[0] as int % 0x02, s[1] as int % 0x40, s[2] as int % 0x40, s[3] as int % 0x40,
            s[4] as int % 0x40, s[5] as int % 0x40);
  }

  /** What the decoder accepts is an encoding of a valid character, in full and alone. */
  lemma EncodeDecode(s: Bytes)
    requires s != [] && FromUtf8(Corrected, s).0 != INVALID
    ensures var (c, used) := FromUtf8(Corrected, s);
      Valid(c) && s[..used] == Encode(c) && used == Length(c)
  {
    var size := Announced(s[0]);
    AssembleRange(Corrected, s, size);
    AssembledLength(s, size);
    var t := s[..size];
    assert forall i :: 0 <= i < size ==> t[i] == s[i];
    assert Assemble(Corrected, t, size) == Assemble(Corrected, s, size);
    EncodeAssemble(t, size);
  }

  // ---------- the validity test ----------

  /** isUTF8, on the decoder as written. */
  predicate IsUtf8(s: Bytes) {
    s == [] || (FromUtf8(AsWritten, s).0 != INVALID && IsUtf8(s[FromUtf8(AsWritten, s).1..]))
  }

  /** The characters of a valid string. */
  function DecodeAll(s: Bytes): seq<Char>
    requires IsUtf8(s)
  {
    if s == [] then [] else
    VariantsAgree(s);
    EncodeDecode(s);
    [FromUtf8(Corrected, s).0] + DecodeAll(s[FromUtf8(Corrected, s).1..])
  }

  /** A valid string is its first character's encoding and a valid string. */
  lemma DecodeFirst(s: Bytes)
    requires IsUtf8(s) && s != []
    ensures var (c, used) := FromUtf8(Corrected, s);
      && IsUtf8(s[used..]) && Valid(c) && s[..used] == Encode(c)
      && DecodeAll(s) == [c] + DecodeAll(s[used..])
  {
    VariantsAgree(s);
    EncodeDecode(s);
  }

  lemma EncodeFirst(c: int, cs: seq<Char>)
    requires Valid(c)
    ensures EncodeAll([c] + cs) == Encode(c) + EncodeAll(cs)
  {
    assert ([c] + cs)[1..] == cs;
  }

  lemma {:induction false} ValidIsEncoded(s: Bytes)
    requires IsUtf8(s)
    ensures EncodeAll(DecodeAll(s)) == s
  {
    if s != [] {
      var (c, used) := FromUtf8(Corrected, s);
      DecodeFirst(s);
      ValidIsEncoded(s[used..]);
      EncodeFirst(c, DecodeAll(s[used..]));
    }
  }

  lemma {:induction false} EncodedIsValid(cs: seq<Char>)
    ensures IsUtf8(EncodeAll(cs)) && DecodeAll(EncodeAll(cs)) == cs
  {
    if cs != [] {
      var tail := EncodeAll(cs[1..]);
      var s := Encode(cs[0]) + tail;
      DecodeEncode(cs[0], tail);
      VariantsAgree(s);
      assert s[Length(cs[0])..] == tail;
      EncodedIsValid(cs[1..]);
    }
  }

  /** Although it misreads the longer forms, the decoder as written accepts exactly the concatenations
      of encodings of valid characters. */
  lemma ValidIffEncoded(s: Bytes)
    ensures IsUtf8(s) <==> exists cs: seq<Char> :: s == EncodeAll(cs)
  {
    if IsUtf8(s) {
      ValidIsEncoded(s);
    }
    if exists cs: seq<Char> :: s == EncodeAll(cs) {
      var cs: seq<Char> :| s == EncodeAll(cs);
      EncodedIsValid(cs);
    }
  }

  /** A form that stops early is skipped up to its first byte that is not a continuation, so a valid
      character there is decoded as if it came first, if and only if the announced length fits the
      input; otherwise everything is skipped. */
  lemma ResumesAtNextCharacter(v: Variant, lead: UInt8, run: Bytes, c: int, tail: Bytes)
    requires (forall b :: b in run ==> Continues(b)) && 1 + |run| < Announced(lead) && Valid(c)
    ensures var s := [lead] + run + (Encode(c) + tail);
      && FromUtf8(v, s) == (INVALID, if Announced(lead) <= |s| then 1 + |run| else |s|)
      && s[1 + |run|..] == Encode(c) + tail
      && FromUtf8(v, s[1 + |run|..]).1 == Length(c) && (FromUtf8(v, s[1 + |run|..]).0 == c <==> ReadRight(v, c))
  {
    var s := [lead] + run + (Encode(c) + tail);
    EncodeShape(c, tail);
    DecodeEncodeIff(v, c, tail);
    assert s[1 + |run|] == Encode(c)[0];
    assert forall i :: 1 <= i <= |run| ==> s[i] == run[i - 1];
    assert s[1 + |run|..] == Encode(c) + tail;
  }

  /** A byte that cannot start a character is skipped alone, so a valid character behind any number of them
      is found. */
  lemma {:induction false} StrayBytes(v: Variant, stray: Bytes, c: int, tail: Bytes)
    requires (forall b :: b in stray ==> 0x80 <= b < 0xc0 || b >= 0xfe) && Valid(c)
    ensures var s := stray + (Encode(c) + tail);
      FromUtf8(v, s) == (if stray == [] then FromUtf8(v, Encode(c) + tail) else (INVALID, 1))
    ensures Skipped(v, stray + (Encode(c) + tail), |stray|) == Encode(c) + tail
  {
    var s := stray + (Encode(c) + tail);
    if stray == [] {
      assert s == Encode(c) + tail;
    } else {
      assert s[0] == stray[0] && stray[0] in stray && forall b :: b in stray[1..] ==> b in stray;
      assert FromUtf8(v, s) == (INVALID, 1);
      assert s[1..] == stray[1..] + (Encode(c) + tail);
      StrayBytes(v, stray[1..], c, tail);
    }
  }

  /** What is left after reading n characters or malformed parts. */
  function Skipped(v: Variant, s: Bytes, n: nat): Bytes {
    if n == 0 || s == [] then s else Skipped(v, s[FromUtf8(v, s).1..], n - 1)
  }

  /** What toUTF8 appends is read back as the character, as the replacement character if there is no
      encoding, and as malformed if and only if it is one of the two that the decoder refuses. */
  lemma AppendedReadsBack(c: int, tail: Bytes)
    requires 0 <= c
    ensures FromUtf8(Corrected, ToUtf8(c) + tail).0
      == if 0xd800 <= c < 0xe000 || c >= 0x8000_0000 then 0xfffd else if c == 0xfffe || c == 0xffff then INVALID else c
  {
    if Surrogate(c) || c >= 0x8000_0000 {
      DecodeEncode(0xfffd, tail);
    } else if Valid(c) {
      DecodeEncode(c, tail);
    } else {
      EncodeShape(c, tail);
      AssembleEncode(c, tail);
      DecodeIntact(Encode(c) + tail, Length(c));
    }
  }

  // ---------- the methods ----------

  /** fromUTF8, as written: `data` and `n` are the position and the number of bytes left. */
  method FromUTF8(src: Bytes, data: nat, n: nat) returns (c: int, data': nat, n': nat)
    requires n > 0 && data + n == |src|
    ensures (c, data' - data) == FromUtf8(AsWritten, src[data..])
    ensures data < data' && data' + n' == |src|
  {
    var lead: int := src[data];
    var size := 0;
    if lead < 0x80 {
      size := 1;
    } else if lead < 0xc0 {
      return INVALID, data + 1, n - 1;
    } else if lead < 0xe0 {
      size := 2;
    } else if lead < 0xf0 {
      size := 3;
    } else if lead < 0xf8 {
      size := 4;
    } else if lead < 0xfc {
      size := 5;
    } else if lead < 0xfe {
      size := 6;
    } else {
      return INVALID, data + 1, n - 1;
    }
    if size > n {
      return INVALID, data + n, 0;
    }
    var s := src[data..];
    c := Assemble(AsWritten, s, size);

    // a form cut short by a byte that does not continue it counts as one malformed character
    var announced := size;
    if announced == 6 && !Continues(s[5]) {
      size := 5;
    }
    if announced >= 5 && !Continues(s[4]) {
      size := 4;
    }
    if announced >= 4 && !Continues(s[3]) {
      size := 3;
    }
    if announced >= 3 && !Continues(s[2]) {
      size := 2;
    }
    if announced >= 2 && !Continues(s[1]) {
      size := 1;
    }
    IntactIs(s, announced, size);

    data', n' := data + size, n - size;
    if size < announced || c < MinChar(size) || Surrogate(c) || 0xfffe <= c <= 0xffff {
      c := INVALID;
    }
  }

  lemma IntactIs(s: Bytes, size: nat, n: nat)
    requires 1 <= n <= size <= |s|
    requires forall k :: 1 <= k < n ==> Continues(s[k])
    requires n < size ==> !Continues(s[n])
    ensures Intact(s, 1, size) == n
  {
  }

  lemma ValidFrom(src: Bytes, data: nat, c: int, data': nat)
    requires data < data' <= |src| && (c, data' - data) == FromUtf8(AsWritten, src[data..])
    ensures IsUtf8(src[data..]) == (c != INVALID && IsUtf8(src[data'..]))
  {
    assert src[data..][data' - data..] == src[data'..];
  }

  method IsUTF8(src: Bytes) returns (valid: bool)
    ensures valid == IsUtf8(src)
  {
    var data: nat, n: nat := 0, |src|;
    assert src[0..] == src;
    while n > 0
      invariant data + n == |src|
      invariant IsUtf8(src) == IsUtf8(src[data..])
      decreases n
    {
      var c, data', n' := FromUTF8(src, data, n);
      ValidFrom(src, data, c, data');
      if c == INVALID {
        return false;
      }
      data, n := data', n';
    }
    return true;
  }

  /** toUTF8: appends to dst; `bad` if the character had to be replaced. */
  method ToUTF8(dst: Bytes, c: int) returns (dst': Bytes, bad: bool)
    requires 0 <= c
    ensures dst' == dst + ToUtf8(c)
    ensures bad ==> dst' == dst + [0xef, 0xbf, 0xbd]
    ensures bad == (Surrogate(c) || c >= 0x8000_0000)
  {
    bad := Surrogate(c) || c >= 0x8000_0000;
    var x := if bad then REPLACEMENT else c;
    if x < 0x80 {
      dst' := dst + [x];
    } else if x < 0x800 {
      dst' := dst + [x / 0x40 % 0x20 + 0xc0, x % 0x40 + 0x80];
    } else if x < 0x1_0000 {
      dst' := dst + [x / 0x1000 % 0x10 + 0xe0, x / 0x40 % 0x40 + 0x80, x % 0x40 + 0x80];
    } else if x < 0x20_0000 {
      dst' := dst + [x / 0x4_0000 % 0x08 + 0xf0, x / 0x1000 % 0x40 + 0x80, x / 0x40 % 0x40 + 0x80, x % 0x40 + 0x80];
    } else if x < 0x400_0000 {
      dst' := dst + [x / 0x100_0000 % 0x04 + 0xf8, x / 0x4_0000 % 0x40 + 0x80, x / 0x1000 % 0x40 + 0x80,
                     x / 0x40 % 0x40 + 0x80, x % 0x40 + 0x80];
    } else {
      dst' := dst + [x / 0x4000_0000 % 0x02 + 0xfc, x / 0x100_0000 % 0x40 + 0x80, x / 0x4_0000 % 0x40 + 0x80,
                     x / 0x1000 % 0x40 + 0x80, x / 0x40 % 0x40 + 0x80, x % 0x40 + 0x80];
    }
  }
}
