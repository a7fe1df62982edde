/** CPriorityQueue for timers: a binary heap in a vector, the timer with the least time left on top.

    push_heap, pop_heap and make_heap belong to the C++ library; they are written out here as moving one
    element up or down.  Nothing elsewhere depends on how equal elements are ordered. */
module PriorityQueue {
  /** CTimer.  `time` is what is left of the countdown, plus whatever is on the stopwatch. */
  datatype Timer = Timer(id: nat, timeout: real, target: nat, oneShot: bool, time: real)

  function Parent(i: int): int { (i - 1) / 2 }

  ghost predicate InOrder(c: seq<Timer>, i: int)
    requires 0 < i < |c|
  {
    c[Parent(i)].time <= c[i].time
  }

  ghost predicate IsHeap(c: seq<Timer>) {
    forall i :: 0 < i < |c| ==> InOrder(c, i)
  }

  /** No element is less than the top. */
  lemma {:induction false} TopIsLeast(c: seq<Timer>, i: nat)
    requires IsHeap(c) && i < |c|
    ensures c[0].time <= c[i].time
  {
    if i > 0 {
      assert InOrder(c, i);
      TopIsLeast(c, Parent(i));
    }
  }

  function Swap(c: seq<Timer>, i: nat, j: nat): seq<Timer>
    requires i < |c| && j < |c|
  {
    c[i := c[j]][j := c[i]]
  }

  lemma SwapKeepsElements(c: seq<Timer>, i: nat, j: nat)
    requires i < |c| && j < |c|
    ensures multiset(Swap(c, i, j)) == multiset(c)
  {
  }

  // ---------- moving up ----------

  /** A heap except that the element at `hole` may be less than its parent. */
  ghost predicate HeapButUp(c: seq<Timer>, hole: nat) {
    && (forall i :: 0 < i < |c| && i != hole ==> InOrder(c, i))
    && (forall i :: 0 < i < |c| && Parent(i) == hole && hole > 0 && hole < |c| ==> c[Parent(hole)].time <= c[i].time)
  }

  lemma UpStep(c: seq<Timer>, hole: nat)
    requires 0 < hole < |c| && HeapButUp(c, hole) && c[Parent(hole)].time > c[hole].time
    ensures HeapButUp(Swap(c, hole, Parent(hole)), Parent(hole))
  {
    var p := Parent(hole);
    var d := Swap(c, hole, p);
    forall i | 0 < i < |d| && i != p
      ensures InOrder(d, i)
    {
      if i != hole {
        assert InOrder(c, i);
        if Parent(i) == p && p > 0 {
          assert InOrder(c, p);
        }
      }
    }
    forall i | 0 < i < |d| && Parent(i) == p && p > 0
      ensures d[Parent(p)].time <= d[i].time
    {
      assert InOrder(c, p);
      if i != hole {
        assert InOrder(c, i);
      }
    }
  }

  lemma UpDone(c: seq<Timer>, hole: nat)
    requires HeapButUp(c, hole) && hole < |c| && (hole == 0 || c[Parent(hole)].time <= c[hole].time)
    ensures IsHeap(c)
  {
    forall i | 0 < i < |c|
      ensures InOrder(c, i)
    {
    }
  }

  // ---------- moving down ----------

  /** In order from the children of `low` on. */
  ghost predicate HeapFrom(c: seq<Timer>, low: int) {
    forall i :: 0 < i < |c| && Parent(i) >= low ==> InOrder(c, i)
  }

  /** In order from `low` on except that the element at `hole` may be greater than its children. */
  ghost predicate HeapButDown(c: seq<Timer>, low: int, hole: nat) {
    && (forall i :: 0 < i < |c| && Parent(i) >= low && Parent(i) != hole ==> InOrder(c, i))
    && (forall i :: 0 < i < |c| && Parent(i) == hole && hole > 0 && Parent(hole) >= low && hole < |c| ==>
          c[Parent(hole)].time <= c[i].time)
  }

  /** The lesser child, if there is one. */
  function Child(c: seq<Timer>, hole: nat): (k: nat)
    requires 2 * hole + 1 < |c|
    ensures k < |c| && Parent(k) == hole && k > hole
  {
    if 2 * hole + 2 < |c| && c[2 * hole + 2].time < c[2 * hole + 1].time then 2 * hole + 2 else 2 * hole + 1
  }

  lemma Children(c: seq<Timer>, hole: nat, i: nat)
    requires 0 < i < |c| && Parent(i) == hole
    ensures 2 * hole + 1 < |c| && c[Child(c, hole)].time <= c[i].time
  {
    assert i == 2 * hole + 1 || i == 2 * hole + 2;
  }

  lemma DownStep(c: seq<Timer>, low: int, hole: nat)
    requires low <= hole && 2 * hole + 1 < |c| && HeapButDown(c, low, hole) && c[Child(c, hole)].time < c[hole].time
    ensures HeapButDown(Swap(c, hole, Child(c, hole)), low, Child(c, hole))
  {
    var k := Child(c, hole);
    var d := Swap(c, hole, k);
    forall i | 0 < i < |d| && Parent(i) >= low && Parent(i) != k
      ensures InOrder(d, i)
    {
      if Parent(i) == hole {
        Children(c, hole, i);
      } else {
        assert InOrder(c, i);
      }
    }
    forall i | 0 < i < |d| && Parent(i) == k
      ensures d[Parent(k)].time <= d[i].time
    {
      assert InOrder(c, i);
    }
  }

  lemma DownDone(c: seq<Timer>, low: int, hole: nat)
    requires HeapButDown(c, low, hole) && (2 * hole + 1 < |c| ==> c[hole].time <= c[Child(c, hole)].time)
    ensures HeapFrom(c, low)
  {
    forall i | 0 < i < |c| && Parent(i) >= low
      ensures InOrder(c, i)
    {
      if Parent(i) == hole {
        Children(c, hole, i);
      }
    }
  }

  // ---------- counting one amount down on every element ----------

  function Minus(t: Timer, dt: real): Timer { t.(time := t.time - dt) }

  function MinusAll(c: seq<Timer>, dt: real): (d: seq<Timer>)
    ensures |d| == |c|
  {
    seq(|c|, i requires 0 <= i < |c| => Minus(c[i], dt))
  }

  lemma MinusAllKeepsHeap(c: seq<Timer>, dt: real)
    ensures IsHeap(c) <==> IsHeap(MinusAll(c, dt))
  {
    var d := MinusAll(c, dt);
    forall i | 0 < i < |c|
      ensures InOrder(c, i) <==> InOrder(d, i)
    {
    }
  }

  /** Every timer is counted down once and none is lost. */
  lemma {:induction false} MinusAllElements(c: seq<Timer>, dt: real, t: Timer)
    ensures multiset(MinusAll(c, dt))[Minus(t, dt)] == multiset(c)[t]
  {
    if c != [] {
      var k := |c| - 1;
      MinusAllElements(c[..k], dt, t);
      assert c == c[..k] + [c[k]];
      assert MinusAll(c, dt) == MinusAll(c[..k], dt) + [Minus(c[k], dt)];
      assert Minus(c[k], dt) == Minus(t, dt) ==> c[k] == t;
    }
  }

  class PriorityQueue {
    var c: seq<Timer>

    ghost predicate Valid()
      reads this
    {
      IsHeap(c)
    }

    constructor ()
      ensures Valid() && c == []
    {
      c := [];
    }

    method Push(v: Timer)
      requires Valid()
      modifies this
      ensures Valid() && multiset(c) == old(multiset(c)) + multiset{v}
    {
      c := SiftUp(c + [v]);
    }

    method Pop()
      requires Valid() && c != []
      modifies this
      ensures Valid() && multiset(c) == old(multiset(c)) - multiset{old(c[0])}
    {
      var last := |c| - 1;
      var rest := Swap(c, 0, last);
      SwapKeepsElements(c, 0, last);
      assert rest == rest[..last] + [c[0]];
      assert multiset(rest[..last]) == multiset(c) - multiset{c[0]};
      PoppedHeap(c);
      c := SiftDown(rest[..last], 0, 0);
      WholeHeap(c);
    }

    method Erase(i: nat)
      requires i < |c|
      modifies this
      ensures Valid() && multiset(c) == old(multiset(c)) - multiset{old(c[i])}
    {
      assert c == c[..i] + [c[i]] + c[i + 1..];
      assert multiset(c[..i] + c[i + 1..]) == multiset(c) - multiset{c[i]};
      c := MakeHeap(c[..i] + c[i + 1..]);
    }

    /** The loop over the iterators in hasTimerExpired. */
    method SubtractFromAll(dt: real)
      requires Valid()
      modifies this
      ensures Valid() && c == MinusAll(old(c), dt)
    {
      ghost var before := c;
      var index := 0;
      while index < |c|
        invariant index <= |c| == |before|
        invariant c[..index] == MinusAll(before, dt)[..index] && c[index..] == before[index..]
      {
        c := c[index := Minus(c[index], dt)];
        index := index + 1;
      }
      assert c == MinusAll(before, dt);
      MinusAllKeepsHeap(before, dt);
    }

    method Top() returns (t: Timer)
      requires Valid() && c != []
      ensures t == c[0] && forall i :: 0 <= i < |c| ==> t.time <= c[i].time
    {
      t := c[0];
      forall i | 0 <= i < |c|
        ensures t.time <= c[i].time
      {
        TopIsLeast(c, i);
      }
    }
  }

  lemma PoppedHeap(c: seq<Timer>)
    requires IsHeap(c) && c != []
    ensures HeapButDown(Swap(c, 0, |c| - 1)[..|c| - 1], 0, 0)
  {
    var d := Swap(c, 0, |c| - 1)[..|c| - 1];
    forall i | 0 < i < |d| && Parent(i) != 0
      ensures InOrder(d, i)
    {
      assert InOrder(c, i);
    }
  }

  lemma WholeHeap(c: seq<Timer>)
    requires HeapFrom(c, 0)
    ensures IsHeap(c)
  {
  }

  /** push_heap: the last element moves up. */
  method SiftUp(c: seq<Timer>) returns (d: seq<Timer>)
    requires c != [] && IsHeap(c[..|c| - 1])
    ensures IsHeap(d) && multiset(d) == multiset(c)
  {
    d := c;
    var hole := |c| - 1;
    PushedHeap(c);
    while hole > 0 && d[Parent(hole)].time > d[hole].time
      invariant 0 <= hole < |d| && HeapButUp(d, hole) && multiset(d) == multiset(c)
    {
      UpStep(d, hole);
      SwapKeepsElements(d, hole, Parent(hole));
      d := Swap(d, hole, Parent(hole));
      hole := Parent(hole);
    }
    UpDone(d, hole);
  }

  lemma PushedHeap(c: seq<Timer>)
    requires c != [] && IsHeap(c[..|c| - 1])
    ensures HeapButUp(c, |c| - 1)
  {
    forall i | 0 < i < |c| - 1
      ensures InOrder(c, i)
    {
      assert InOrder(c[..|c| - 1], i);
    }
  }

  /** The element at `start` moves down. */
  method SiftDown(c: seq<Timer>, ghost low: int, start: nat) returns (d: seq<Timer>)
    requires low <= start && HeapButDown(c, low, start)
    ensures HeapFrom(d, low) && multiset(d) == multiset(c) && |d| == |c|
  {
    d := c;
    var hole := start;
    while 2 * hole + 1 < |d| && d[Child(d, hole)].time < d[hole].time
      invariant 0 <= hole && low <= hole && HeapButDown(d, low, hole) && multiset(d) == multiset(c) && |d| == |c|
      decreases |d| - hole
    {
      var k := Child(d, hole);
      DownStep(d, low, hole);
      SwapKeepsElements(d, hole, k);
      d := Swap(d, hole, k);
      hole := k;
    }
    DownDone(d, low, hole);
  }

  /** make_heap: from the last parent down to the first, each moves down. */
  method MakeHeap(c: seq<Timer>) returns (d: seq<Timer>)
    ensures IsHeap(d) && multiset(d) == multiset(c)
  {
    d := c;
    var k := |c|;
    while k > 0
      invariant 0 <= k <= |c| == |d| && HeapFrom(d, k) && multiset(d) == multiset(c)
    {
      k := k - 1;
      MadeFrom(d, k);
      d := SiftDown(d, k, k);
    }
    WholeHeap(d);
  }

  lemma MadeFrom(d: seq<Timer>, k: nat)
    requires HeapFrom(d, k + 1)
    ensures HeapButDown(d, k, k)
  {
  }
}
