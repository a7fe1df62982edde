/** CStreamBuffer: a byte queue kept as a list of chunks, the first of which may be partly used up. */
module StreamBuffer {
  import opened Octets

  const CHUNK_SIZE := 4096
  const UINT32 := 0x1_0000_0000

  /** The sum of two 32-bit numbers, which wraps around once at most. */
  function Sum32(a: nat, b: nat): (sum: nat)
    requires a < UINT32 && b < UINT32
    ensures sum < UINT32
  {
    if a + b < UINT32 then a + b else a + b - UINT32
  }

  /** What peek returns: NULL, or a pointer, seen as the bytes of the head chunk from there on. */
  datatype View = Null | At(bytes: Bytes)

  function Flat(chunks: seq<Bytes>): Bytes {
    if chunks == [] then [] else chunks[0] + Flat(chunks[1..])
  }

  /** Only the last chunk may be short and only the head may be long. */
  ghost predicate Packed(chunks: seq<Bytes>) {
    && (forall i :: 0 <= i < |chunks| - 1 ==> |chunks[i]| >= CHUNK_SIZE)
    && (forall i :: 1 <= i < |chunks| ==> |chunks[i]| <= CHUNK_SIZE)
  }

  ghost predicate NoneEmpty(chunks: seq<Bytes>) {
    forall i :: 0 <= i < |chunks| ==> |chunks[i]| > 0
  }

  ghost predicate HeadLeft(chunks: seq<Bytes>, headUsed: nat) {
    if chunks == [] then headUsed == 0 else headUsed < |chunks[0]|
  }

  /** The bytes still queued. */
  ghost function Queued(chunks: seq<Bytes>, headUsed: nat): Bytes
    requires HeadLeft(chunks, headUsed)
  {
    if chunks == [] then [] else chunks[0][headUsed..] + Flat(chunks[1..])
  }

  /** The shape of the list, and a size and an offset that have not overflowed. */
  ghost predicate Sound(chunks: seq<Bytes>, size: nat, headUsed: nat) {
    && Packed(chunks) && NoneEmpty(chunks) && HeadLeft(chunks, headUsed)
    && size == |Queued(chunks, headUsed)| < UINT32 && headUsed < UINT32
  }

  lemma {:induction false} FlatConcat(a: seq<Bytes>, b: seq<Bytes>)
    ensures Flat(a + b) == Flat(a) + Flat(b)
  {
    if a == [] {
      assert a + b == b;
    } else {
      assert (a + b)[1..] == a[1..] + b;
      FlatConcat(a[1..], b);
    }
  }

  lemma FlatLast(chunks: seq<Bytes>, last: Bytes)
    ensures Flat(chunks + [last]) == Flat(chunks) + last
  {
    FlatConcat(chunks, [last]);
    assert [last][1..] == [];
  }

  /** Appending to the last chunk appends to the whole. */
  lemma FlatGrow(chunks: seq<Bytes>, more: Bytes)
    requires chunks != []
    ensures Flat(chunks[|chunks| - 1 := chunks[|chunks| - 1] + more]) == Flat(chunks) + more
  {
    var k := |chunks| - 1;
    FlatLast(chunks[..k], chunks[k]);
    FlatLast(chunks[..k], chunks[k] + more);
    assert chunks == chunks[..k] + [chunks[k]];
    assert chunks[k := chunks[k] + more] == chunks[..k] + [chunks[k] + more];
  }

  /** Queued bytes as a suffix of all bytes held. */
  lemma QueuedIs(chunks: seq<Bytes>, headUsed: nat)
    requires HeadLeft(chunks, headUsed)
    ensures headUsed <= |Flat(chunks)|
    ensures Queued(chunks, headUsed) == Flat(chunks)[headUsed..]
  {
  }

  /** Merging the second chunk into the head changes nothing. */
  lemma MergeKeeps(chunks: seq<Bytes>, headUsed: nat)
    requires |chunks| >= 2 && HeadLeft(chunks, headUsed)
    ensures var merged := [chunks[0] + chunks[1]] + chunks[2..];
      && HeadLeft(merged, headUsed) && Queued(merged, headUsed) == Queued(chunks, headUsed)
      && (Packed(chunks) ==> Packed(merged)) && (NoneEmpty(chunks) ==> NoneEmpty(merged))
  {
    var merged := [chunks[0] + chunks[1]] + chunks[2..];
    assert merged[1..] == chunks[2..] == chunks[1..][1..];
    var tail := Flat(chunks[2..]);
    assert (chunks[0] + chunks[1])[headUsed..] == chunks[0][headUsed..] + chunks[1];
    assert chunks[0][headUsed..] + (chunks[1] + tail) == (chunks[0][headUsed..] + chunks[1]) + tail;
  }

  /** Discarding the head discards what was left of it. */
  lemma DropHead(chunks: seq<Bytes>, headUsed: nat, n: nat)
    requires chunks != [] && HeadLeft(chunks, headUsed) && NoneEmpty(chunks)
    requires |chunks[0]| - headUsed <= n < |Queued(chunks, headUsed)|
    ensures chunks[1..] != [] && HeadLeft(chunks[1..], 0) && NoneEmpty(chunks[1..])
    ensures Packed(chunks) ==> Packed(chunks[1..])
    ensures Queued(chunks, headUsed)[n..] == Queued(chunks[1..], 0)[n - (|chunks[0]| - headUsed)..]
  {
    var rest := chunks[1..];
    assert rest != [] ==> rest[0][0..] == rest[0];
  }

  /** Two chunks aside, every chunk is full, so few chunks hold many bytes. */
  lemma {:induction false} FewChunks(chunks: seq<Bytes>, headUsed: nat)
    requires Packed(chunks) && HeadLeft(chunks, headUsed)
    ensures (|chunks| - 2) * 4096 <= |Queued(chunks, headUsed)|
  {
    if |chunks| >= 2 {
      FullFlat(chunks[1..]);
    }
  }

  lemma {:induction false} FullFlat(chunks: seq<Bytes>)
    requires chunks != [] && forall i :: 0 <= i < |chunks| - 1 ==> |chunks[i]| >= CHUNK_SIZE
    ensures (|chunks| - 1) * CHUNK_SIZE <= |Flat(chunks)|
  {
    if |chunks| >= 2 {
      FullFlat(chunks[1..]);
    }
  }

  class StreamBuffer {
    var chunks: seq<Bytes>
    var size: nat
    var headUsed: nat

    ghost predicate Valid()
      reads this
    {
      Sound(chunks, size, headUsed)
    }

    /** The queue this buffer stands for. */
    ghost function Contents(): Bytes
      reads this
      requires HeadLeft(chunks, headUsed)
    {
      Queued(chunks, headUsed)
    }

    constructor ()
      ensures Valid() && Contents() == [] && headUsed == 0
    {
      chunks, size, headUsed := [], 0, 0;
    }

    method Peek(n: nat) returns (view: View)
      requires Valid() && n <= size
      modifies this
      ensures Valid() && Contents() == old(Contents()) && headUsed == old(headUsed)
      ensures n == 0 <==> view.Null?
      ensures n > 0 ==> n <= |view.bytes| && view.bytes[..n] == Contents()[..n]
      ensures n > 0 ==> chunks != [] && view.bytes == chunks[0][headUsed..]
    {
      if n == 0 {
        return Null;
      }
      while |chunks[0]| - headUsed < n && |chunks| > 1
        invariant Valid() && chunks != []
        invariant Contents() == old(Contents()) && headUsed == old(headUsed) && size == old(size)
        decreases |chunks|
      {
        MergeKeeps(chunks, headUsed);
        chunks := [chunks[0] + chunks[1]] + chunks[2..];
      }
      assert |chunks| == 1 ==> chunks[1..] == [];
      return At(chunks[0][headUsed..]);
    }

    /** The head offset is 32 bits wide and nothing bounds the head, so it can overflow. */
    ghost predicate Overflows(n: nat)
      reads this
    {
      n < size && chunks != [] && n < |chunks[0]| - headUsed && headUsed + n >= UINT32
    }

    method Pop(n: nat)
      requires Valid() && n < UINT32
      modifies this
      ensures Valid() <==> !old(Overflows(n))
      ensures !old(Overflows(n)) ==> Contents() == old(Contents()[if n < |Contents()| then n else |Contents()|..])
      ensures old(Overflows(n)) ==> HeadLeft(chunks, headUsed) && |Contents()| == |old(Contents())[n..]| + UINT32
      ensures old(chunks != [] && n < |chunks[0]| - headUsed && !Overflows(n)) && n < old(size) ==>
        chunks == old(chunks) && headUsed == old(headUsed) + n
    {
      if n >= size {
        size, headUsed, chunks := 0, 0, [];
        return;
      }
      size := size - n;
      var list, offset, left := DiscardChunks(chunks, size, headUsed, n);
      OffsetMoves(list, size, offset, left);
      chunks, headUsed := list, if left > 0 then Sum32(offset, left) else offset;
    }

    method Write(data: Bytes)
      requires Valid() && |data| < UINT32
      modifies this
      ensures HeadLeft(chunks, headUsed) && Contents() == old(Contents()) + data && headUsed == old(headUsed)
      ensures size == Sum32(old(size), |data|)
      ensures Valid() <==> |Contents()| < UINT32
    {
      if |data| == 0 {
        return;
      }
      WriteStart(chunks, headUsed, data);
      var list := chunks;
      if list == [] || |list[|list| - 1]| >= CHUNK_SIZE {
        list := list + [[]];
      }
      list := AppendInChunks(list, data, headUsed, Flat(chunks) + data);
      WriteEnd(chunks, size, headUsed, data, list);
      chunks := list;
      size := Sum32(size, |data|);
    }
  }

  /** The loop of pop: discards whole chunks; `left` bytes of the head are still to go. */
  method DiscardChunks(chunks: seq<Bytes>, size: nat, headUsed: nat, n: nat) returns (list: seq<Bytes>, offset: nat, left: nat)
    requires Sound(chunks, size + n, headUsed) && size > 0
    ensures Sound(list, size + left, offset) && list != [] && left < |list[0]| - offset && left <= n
    ensures Queued(list, offset)[left..] == Queued(chunks, headUsed)[n..]
    ensures n < |chunks[0]| - headUsed ==> list == chunks && offset == headUsed && left == n
    ensures offset + left >= UINT32 <==> n < |chunks[0]| - headUsed && headUsed + n >= UINT32
  {
    list, offset, left := chunks, headUsed, n;
    while |list[0]| - offset <= left
      invariant list != [] && left <= n && Sound(list, size + left, offset)
      invariant Queued(list, offset)[left..] == Queued(chunks, headUsed)[n..]
      invariant (list == chunks && offset == headUsed && left == n) || (offset == 0 && |chunks[0]| - headUsed <= n)
      decreases |list|
    {
      DropHead(list, offset, left);
      left := left - (|list[0]| - offset);
      offset := 0;
      list := list[1..];
    }
  }

  /** The loop of write. */
  method AppendInChunks(list: seq<Bytes>, data: Bytes, ghost headUsed: nat, ghost all: Bytes) returns (chunks: seq<Bytes>)
    requires data != [] && Writing(list, headUsed, data, all)
    ensures Writing(chunks, headUsed, [], all)
  {
    chunks := list;
    var n, pos := |data|, 0;
    ghost var rest := data;
    while n > 0
      invariant 0 <= n && 0 <= pos && pos + n == |data| && rest == data[pos..]
      invariant Writing(chunks, headUsed, rest, all)
      decreases n
    {
      var last := |chunks| - 1;
      var count := CHUNK_SIZE - |chunks[last]|;
      if count > n {
        count := n;
      }
      WriteStep(chunks, headUsed, rest, count, all);
      assert rest[..count] == data[pos..pos + count];
      chunks := chunks[last := chunks[last] + data[pos..pos + count]];
      rest := rest[count..];
      n, pos := n - count, pos + count;
      if n > 0 {
        chunks := chunks + [[]];
      }
    }
  }

  /** Between two turns of the loop in write: `rest` is still to be appended to reach `all`.  The last
      chunk may be empty, and so the head. */
  ghost predicate Writing(chunks: seq<Bytes>, headUsed: nat, rest: Bytes, all: Bytes) {
    && chunks != [] && Packed(chunks)
    && (headUsed == 0 || headUsed < |chunks[0]|)
    && (forall i :: 0 <= i < |chunks| - 1 ==> |chunks[i]| > 0)
    && (if rest == [] then |chunks[|chunks| - 1]| > 0 else |chunks[|chunks| - 1]| < CHUNK_SIZE)
    && Flat(chunks) + rest == all
  }

  lemma WriteStart(chunks: seq<Bytes>, headUsed: nat, data: Bytes)
    requires Packed(chunks) && NoneEmpty(chunks) && HeadLeft(chunks, headUsed) && data != []
    ensures var start := if chunks == [] || |chunks[|chunks| - 1]| >= CHUNK_SIZE then chunks + [[]] else chunks;
      Writing(start, headUsed, data, Flat(chunks) + data)
  {
    if chunks == [] || |chunks[|chunks| - 1]| >= CHUNK_SIZE {
      WriteStartNew(chunks, headUsed, data);
    }
  }

  lemma WriteStartNew(chunks: seq<Bytes>, headUsed: nat, data: Bytes)
    requires Packed(chunks) && NoneEmpty(chunks) && HeadLeft(chunks, headUsed) && data != []
    requires chunks == [] || |chunks[|chunks| - 1]| >= CHUNK_SIZE
    ensures Writing(chunks + [[]], headUsed, data, Flat(chunks) + data)
  {
    FlatLast(chunks, []);
    assert Flat(chunks + [[]]) == Flat(chunks);
  }

  lemma WriteStep(chunks: seq<Bytes>, headUsed: nat, rest: Bytes, count: nat, all: Bytes)
    requires rest != [] && Writing(chunks, headUsed, rest, all)
    requires count == if CHUNK_SIZE - |chunks[|chunks| - 1]| > |rest| then |rest| else CHUNK_SIZE - |chunks[|chunks| - 1]|
    ensures var last := |chunks| - 1;
      var grown := chunks[last := chunks[last] + rest[..count]];
      Writing(if count < |rest| then grown + [[]] else grown, headUsed, rest[count..], all)
  {
    var last := |chunks| - 1;
    var grown := chunks[last := chunks[last] + rest[..count]];
    FlatGrow(chunks, rest[..count]);
    FlatLast(grown, []);
    assert rest == rest[..count] + rest[count..];
    assert Flat(chunks) + (rest[..count] + rest[count..]) == (Flat(chunks) + rest[..count]) + rest[count..];
  }

  lemma WriteEnd(before: seq<Bytes>, size: nat, headUsed: nat, data: Bytes, chunks: seq<Bytes>)
    requires Sound(before, size, headUsed) && |data| < UINT32 && Writing(chunks, headUsed, [], Flat(before) + data)
    ensures HeadLeft(chunks, headUsed) && Queued(chunks, headUsed) == Queued(before, headUsed) + data
    ensures Sound(chunks, Sum32(size, |data|), headUsed) <==> |Queued(chunks, headUsed)| < UINT32
  {
    QueuedIs(before, headUsed);
    assert Flat(chunks) + [] == Flat(chunks);
    QueuedAfter(before, headUsed, data, chunks);
  }

  lemma QueuedAfter(before: seq<Bytes>, headUsed: nat, data: Bytes, chunks: seq<Bytes>)
    requires HeadLeft(before, headUsed) && HeadLeft(chunks, headUsed) && Flat(chunks) == Flat(before) + data
    ensures Queued(chunks, headUsed) == Queued(before, headUsed) + data
  {
    QueuedIs(before, headUsed);
    QueuedIs(chunks, headUsed);
    assert (Flat(before) + data)[headUsed..] == Flat(before)[headUsed..] + data;
  }

  lemma QueuedLength(chunks: seq<Bytes>, headUsed: nat)
    requires chunks != [] && HeadLeft(chunks, headUsed)
    ensures |Queued(chunks, headUsed)| == |chunks[0]| - headUsed + |Flat(chunks[1..])|
  {
  }

  /** Moving the offset inside the head, with and without overflow. */
  lemma OffsetMoves(chunks: seq<Bytes>, size: nat, headUsed: nat, n: nat)
    requires chunks != [] && Sound(chunks, size + n, headUsed) && n < |chunks[0]| - headUsed
    ensures Sound(chunks, size, Sum32(headUsed, n)) <==> headUsed + n < UINT32
    ensures headUsed + n < UINT32 ==> Queued(chunks, headUsed + n) == Queued(chunks, headUsed)[n..]
    ensures headUsed + n >= UINT32 ==>
      HeadLeft(chunks, headUsed + n - UINT32) && |Queued(chunks, headUsed + n - UINT32)| == size + UINT32
  {
    QueuedLength(chunks, headUsed);
    if headUsed + n < UINT32 {
      OffsetMovesOn(chunks, headUsed, n);
    } else {
      QueuedLength(chunks, headUsed + n - UINT32);
    }
  }

  lemma OffsetMovesOn(chunks: seq<Bytes>, headUsed: nat, n: nat)
    requires chunks != [] && headUsed + n < |chunks[0]|
    ensures Queued(chunks, headUsed + n) == Queued(chunks, headUsed)[n..]
  {
    var rest := Flat(chunks[1..]);
    assert chunks[0][headUsed..][n..] == chunks[0][headUsed + n..];
    assert (chunks[0][headUsed..] + rest)[n..] == chunks[0][headUsed..][n..] + rest;
  }

  /** With one byte left, 4 KiB more are written and all of them are looked at. */
  method WriteAndLook(b: StreamBuffer)
    requires b.Valid() && b.size == 1
    modifies b
    ensures b.Valid() && b.size == CHUNK_SIZE + 1 && b.headUsed == old(b.headUsed)
    ensures b.chunks != [] && CHUNK_SIZE + 1 <= |b.chunks[0]| - b.headUsed
  {
    b.Write(seq(CHUNK_SIZE, _ => 0));
    var _ := b.Peek(CHUNK_SIZE + 1);
  }

  method TakeAsMuch(b: StreamBuffer)
    requires b.Valid() && b.size == 1 && b.headUsed + CHUNK_SIZE < UINT32
    modifies b
    ensures b.Valid() && b.size == 1 && b.headUsed == old(b.headUsed) + CHUNK_SIZE
  {
    WriteAndLook(b);
    b.Pop(CHUNK_SIZE);
  }

  /** One byte short of 4 GiB, one byte is taken from two and as many as 4 GiB come back. */
  method TakeTooMuch(b: StreamBuffer)
    requires b.Valid() && b.size == 1 && b.headUsed + CHUNK_SIZE == UINT32
    modifies b
    ensures !b.Valid() && HeadLeft(b.chunks, b.headUsed) && |b.Contents()| == 1 + UINT32
  {
    WriteAndLook(b);
    b.Pop(CHUNK_SIZE - 1);
    b.Pop(1);
  }

  /** The offset can really overflow: if as much is taken again and again as was written, the head is
      never used up. */
  method OverflowHappens() returns (b: StreamBuffer)
    ensures fresh(b) && !b.Valid()
    ensures HeadLeft(b.chunks, b.headUsed) && |b.Contents()| == 1 + UINT32
  {
    b := new StreamBuffer();
    b.Write([0]);
    var rounds := 0;
    while b.headUsed + CHUNK_SIZE < UINT32
      invariant fresh(b) && b.Valid() && b.size == 1
      invariant b.headUsed == rounds * CHUNK_SIZE <= UINT32 - CHUNK_SIZE
      decreases UINT32 - b.headUsed
    {
      TakeAsMuch(b);
      rounds := rounds + 1;
    }
    TakeTooMuch(b);
  }
}
