/** Length-prefixed frames as the embedded client reads and writes them: a big-endian 32-bit body
    length, then the body. */
module Framing {
  import opened Octets

  const TWO_16 := 0x1_0000
  const TWO_32 := 0x1_0000_0000

  function Put16(v: int): (s: Bytes)
    requires 0 <= v < TWO_16
    ensures |s| == 2
  {
    [v / 0x100, v % 0x100]
  }

  function Put32(v: int): (s: Bytes)
    requires 0 <= v < TWO_32
    ensures |s| == 4
  {
    [v / 0x100_0000, v / 0x1_0000 % 0x100, v / 0x100 % 0x100, v % 0x100]
  }

  function Get16(s: Bytes, i: nat): (v: int)
    requires i + 2 <= |s|
    ensures 0 <= v < TWO_16
  {
    (s[i] as int) * 0x100 + s[i + 1] as int
  }

  function Get32(s: Bytes, i: nat): (v: int)
    requires i + 4 <= |s|
    ensures 0 <= v < TWO_32
  {
    (s[i] as int) * 0x100_0000 + (s[i + 1] as int) * 0x1_0000 + (s[i + 2] as int) * 0x100 + s[i + 3] as int
  }

  /** A 32-bit pattern read as a signed integer. */
  function Signed32(v: int): int { if v < 0x8000_0000 then v else v - TWO_32 }

  function Signed16(v: int): int { if v < 0x8000 then v else v - TWO_16 }

  lemma GetPut32(v: int, tail: Bytes)
    requires 0 <= v < TWO_32
    ensures Get32(Put32(v) + tail, 0) == v
  {
    var a, b, c := v / 0x100, v / 0x1_0000, v / 0x100_0000;
    assert b == a / 0x100 && c == b / 0x100;
    assert v == a * 0x100 + v % 0x100 && a == b * 0x100 + a % 0x100 && b == c * 0x100 + b % 0x100;
    var s := Put32(v) + tail;
    assert s[0] as int == c && s[1] as int == b % 0x100 && s[2] as int == a % 0x100 && s[3] as int == v % 0x100;
  }

  function Frame(body: Bytes): Bytes
    requires |body| < TWO_32
  {
    Put32(|body|) + body
  }

  predicate Complete(s: Bytes) { |s| >= 4 && |s| >= 4 + Get32(s, 0) }

  /** The bodies of the complete frames at the start of the stream... */
  function Bodies(s: Bytes): seq<Bytes>
    decreases |s|
  {
    if !Complete(s) then [] else [s[4..4 + Get32(s, 0)]] + Bodies(s[4 + Get32(s, 0)..])
  }

  /** ...and the bytes left over after them. */
  function Rest(s: Bytes): Bytes
    decreases |s|
  {
    if !Complete(s) then s else Rest(s[4 + Get32(s, 0)..])
  }

  lemma {:induction false} RestIncomplete(s: Bytes)
    ensures !Complete(Rest(s)) && |Rest(s)| <= |s|
    decreases |s|
  {
    if Complete(s) {
      RestIncomplete(s[4 + Get32(s, 0)..]);
    }
  }

  lemma ReadsFirst(s: Bytes)
    requires Complete(s)
    ensures var n := 4 + Get32(s, 0); Bodies(s) == [s[4..n]] + Bodies(s[n..]) && Rest(s) == Rest(s[n..])
  {
  }

  lemma Regroup(a: seq<Bytes>, b: seq<Bytes>, c: seq<Bytes>)
    ensures a + (b + c) == (a + b) + c
  {
  }

  /** A complete frame in front is the same whatever follows. */
  lemma FrontOf(a: Bytes, b: Bytes)
    requires Complete(a)
    ensures var n := 4 + Get32(a, 0);
      && Complete(a + b) && Get32(a + b, 0) == Get32(a, 0)
      && (a + b)[4..n] == a[4..n] && (a + b)[n..] == a[n..] + b
  {
    HeaderOfPrefix(a, b);
  }

  /** Cutting the stream anywhere does not matter: reading on from what was left over gives the same
      frames and the same remainder. */
  lemma {:induction false} Cut(a: Bytes, b: Bytes)
    ensures Bodies(a + b) == Bodies(a) + Bodies(Rest(a) + b)
    ensures Rest(a + b) == Rest(Rest(a) + b)
    decreases |a|
  {
    if Complete(a) {
      FrontOf(a, b);
      var rest := a[4 + Get32(a, 0)..];
      Cut(rest, b);
      ReadsFirst(a);
      ReadsFirst(a + b);
      Regroup([a[4..4 + Get32(a, 0)]], Bodies(rest), Bodies(Rest(rest) + b));
    }
  }

  lemma HeaderOfPrefix(a: Bytes, b: Bytes)
    requires |a| >= 4
    ensures Get32(a + b, 0) == Get32(a, 0)
  {
  }

  // ---------- streams of frames ----------

  function Encode(bodies: seq<Bytes>): Bytes
    requires forall b :: b in bodies ==> |b| < TWO_32
  {
    if bodies == [] then [] else Frame(bodies[0]) + Encode(bodies[1..])
  }

  lemma FrameParses(body: Bytes, tail: Bytes)
    requires |body| < TWO_32
    ensures var s := Frame(body) + tail;
      |s| >= 4 && Get32(s, 0) == |body| && Complete(s) && s[4..4 + |body|] == body && s[4 + |body|..] == tail
  {
    GetPut32(|body|, body + tail);
    assert Frame(body) + tail == Put32(|body|) + (body + tail);
  }

  /** A prefix that holds the first frame. */
  lemma FirstFrame(bodies: seq<Bytes>, p: Bytes) returns (p': Bytes)
    requires forall b :: b in bodies ==> |b| < TWO_32
    requires bodies != [] && p <= Encode(bodies) && |p| >= |Frame(bodies[0])|
    ensures p == Frame(bodies[0]) + p' && p' <= Encode(bodies[1..])
    ensures Complete(p) && Bodies(p) == [bodies[0]] + Bodies(p') && Rest(p) == Rest(p')
  {
    var f := Frame(bodies[0]);
    p' := p[|f|..];
    assert p == f + p';
    FrameParses(bodies[0], p');
    assert Encode(bodies)[|f|..] == Encode(bodies[1..]);
  }

  /** p is the frames of the bodies read, which are the first ones, and a proper beginning of the next. */
  ghost predicate Parsed(bodies: seq<Bytes>, p: Bytes, read: seq<Bytes>, rest: Bytes)
    requires forall b :: b in bodies ==> |b| < TWO_32
  {
    && read <= bodies
    && p == Encode(read) + rest
    && (if |read| == |bodies| then rest == [] else rest < Frame(bodies[|read|]))
  }

  lemma OneFrameMore(bodies: seq<Bytes>, p: Bytes, read: seq<Bytes>, rest: Bytes)
    requires forall b :: b in bodies ==> |b| < TWO_32
    requires bodies != [] && Parsed(bodies[1..], p, read, rest)
    ensures Parsed(bodies, Frame(bodies[0]) + p, [bodies[0]] + read, rest)
  {
    var all := [bodies[0]] + read;
    assert bodies == [bodies[0]] + bodies[1..];
    assert all[1..] == read;
    assert Encode(all) == Frame(bodies[0]) + Encode(read);
    assert Frame(bodies[0]) + (Encode(read) + rest) == (Frame(bodies[0]) + Encode(read)) + rest;
  }

  /** Of a stream that is a prefix of encoded frames, the frames read are exactly the complete ones
      received, in order, and what is left over is the proper beginning of the next frame. */
  lemma {:induction false} PrefixParses(bodies: seq<Bytes>, p: Bytes)
    requires forall b :: b in bodies ==> |b| < TWO_32
    requires p <= Encode(bodies)
    ensures Parsed(bodies, p, Bodies(p), Rest(p))
    decreases |bodies|
  {
    if bodies != [] {
      var f := Frame(bodies[0]);
      if |p| < |f| {
        assert p < f;
        ProperPrefixIncomplete(bodies[0], p);
        assert bodies[..0] == [];
      } else {
        var p' := FirstFrame(bodies, p);
        PrefixParses(bodies[1..], p');
        OneFrameMore(bodies, p', Bodies(p'), Rest(p'));
      }
    } else {
      assert bodies[..0] == [];
    }
  }

  lemma ProperPrefixIncomplete(body: Bytes, p: Bytes)
    requires |body| < TWO_32 && p < Frame(body)
    ensures !Complete(p)
  {
    if |p| >= 4 {
      FrameParses(body, []);
      assert Frame(body) + [] == Frame(body);
      HeaderOfPrefix(p, Frame(body)[|p|..]);
      assert p + Frame(body)[|p|..] == Frame(body);
    }
  }

  // ---------- streams the embedded client can take ----------

  const MIN_BODY := 4
  const MAX_BODY := 4092

  /** What the first bytes of a header may be when every body length is at most MAX_BODY. */
  predicate SmallHeader(s: Bytes) {
    && (|s| >= 1 ==> s[0] == 0)
    && (|s| >= 2 ==> s[1] == 0)
    && (|s| >= 3 ==> s[2] <= 0x0f)
  }

  /** Every complete frame has an acceptable body and the incomplete one, if any, a possible header. */
  ghost predicate Legal(s: Bytes, ok: Bytes -> bool)
    decreases |s|
  {
    && SmallHeader(s)
    && (|s| >= 4 ==> MIN_BODY <= Get32(s, 0) <= MAX_BODY)
    && (Complete(s) ==> ok(s[4..4 + Get32(s, 0)]) && Legal(s[4 + Get32(s, 0)..], ok))
  }

  lemma LegalFirst(s: Bytes, ok: Bytes -> bool)
    requires Legal(s, ok) && Complete(s)
    ensures var n := 4 + Get32(s, 0); ok(s[4..n]) && Legal(s[n..], ok)
  {
  }

  /** Every prefix of encoded acceptable bodies is legal. */
  lemma {:induction false} PrefixLegal(bodies: seq<Bytes>, p: Bytes, ok: Bytes -> bool)
    requires forall b :: b in bodies ==> MIN_BODY <= |b| <= MAX_BODY && ok(b)
    requires p <= Encode(bodies)
    ensures Legal(p, ok)
    decreases |bodies|
  {
    if bodies != [] {
      var f := Frame(bodies[0]);
      if |p| < |f| {
        assert p < f;
        ProperPrefixIncomplete(bodies[0], p);
        PrefixHeader(bodies[0], p);
      } else {
        var p' := p[|f|..];
        assert p == f + p';
        FrameParses(bodies[0], p');
        assert p' <= Encode(bodies[1..]) by { assert Encode(bodies)[|f|..] == Encode(bodies[1..]); }
        PrefixLegal(bodies[1..], p', ok);
        PrefixHeader(bodies[0], f);
      }
    }
  }

  lemma PrefixHeader(body: Bytes, p: Bytes)
    requires MIN_BODY <= |body| <= MAX_BODY && p <= Frame(body)
    ensures SmallHeader(p) && (|p| >= 4 ==> Get32(p, 0) == |body|)
  {
    if |p| >= 4 {
      FrameParses(body, []);
      assert Frame(body) + [] == Frame(body);
      HeaderOfPrefix(p, Frame(body)[|p|..]);
      assert p + Frame(body)[|p|..] == Frame(body);
    }
  }

  lemma {:induction false} LegalRest(a: Bytes, b: Bytes, ok: Bytes -> bool)
    requires Legal(a + b, ok)
    ensures Legal(Rest(a) + b, ok)
    decreases |a|
  {
    if Complete(a) {
      FrontOf(a, b);
      LegalRest(a[4 + Get32(a, 0)..], b, ok);
    }
  }

  lemma {:induction false} LegalBodies(s: Bytes, ok: Bytes -> bool)
    requires Legal(s, ok)
    ensures forall b :: b in Bodies(s) ==> MIN_BODY <= |b| <= MAX_BODY && ok(b)
    ensures |Rest(s)| < 4 + MAX_BODY
    decreases |s|
  {
    if Complete(s) {
      LegalBodies(s[4 + Get32(s, 0)..], ok);
    }
  }
}
