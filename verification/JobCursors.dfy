/** The multiplexer's job list and the cursor nodes that walk it.

    A list node is identified by a number (the C++ list iterator); a map gives its contents.  Cursor
    nodes sit in the same list as job nodes, and a removed job leaves an empty node behind. */
module JobCursors {
  import opened Options

  type Node = nat

  /** A job services one descriptor.  `id` tells two job objects apart. */
  datatype Job = Job(id: nat, descriptor: nat, readable: bool, writable: bool)

  datatype Slot = Cursor | Empty | Live(job: Job)

  predicate HoldsJob(at: map<Node, Slot>, n: Node) { n in at && !at[n].Cursor? }

  /** The nodes that are not cursors, in order. */
  function JobNodes(list: seq<Node>, at: map<Node, Slot>): seq<Node> {
    if list == [] then []
    else if HoldsJob(at, list[0]) then [list[0]] + JobNodes(list[1..], at)
    else JobNodes(list[1..], at)
  }

  /** How many nodes at the start of the list are cursors. */
  function LeadingCursors(list: seq<Node>, at: map<Node, Slot>): (k: nat)
    ensures k <= |list|
    ensures k < |list| ==> HoldsJob(at, list[k])
  {
    if list == [] || HoldsJob(at, list[0]) then 0 else 1 + LeadingCursors(list[1..], at)
  }

  lemma {:induction false} JobNodesSplit(list: seq<Node>, at: map<Node, Slot>)
    ensures var k := LeadingCursors(list, at);
      JobNodes(list, at) == if k == |list| then [] else [list[k]] + JobNodes(list[k + 1..], at)
  {
    if list != [] && !HoldsJob(at, list[0]) {
      JobNodesSplit(list[1..], at);
      var k := LeadingCursors(list[1..], at);
      if k < |list| - 1 {
        assert list[1..][k + 1..] == list[k + 2..];
      }
    }
  }

  lemma {:induction false} SameJobNodes(list: seq<Node>, a: map<Node, Slot>, b: map<Node, Slot>)
    requires forall n :: n in list ==> (HoldsJob(a, n) <==> HoldsJob(b, n))
    ensures JobNodes(list, a) == JobNodes(list, b)
  {
    if list != [] {
      SameJobNodes(list[1..], a, b);
    }
  }

  /** A list seen from one of its cursors: the nodes before it and the nodes behind it. */
  datatype Walker = Walker(front: seq<Node>, back: seq<Node>)

  function Around(w: Walker, c: Node): seq<Node> { w.front + [c] + w.back }

  /** The position of a node, as its iterator gives it. */
  function IndexOf(list: seq<Node>, c: Node): (i: nat)
    requires c in list
    ensures i < |list| && list[i] == c
  {
    if list[0] == c then 0 else 1 + IndexOf(list[1..], c)
  }

  lemma {:induction false} IndexAround(w: Walker, c: Node)
    requires c !in w.front
    ensures IndexOf(Around(w, c), c) == |w.front|
    decreases |w.front|
  {
    if w.front != [] {
      IndexAround(Walker(w.front[1..], w.back), c);
      assert Around(w, c)[1..] == Around(Walker(w.front[1..], w.back), c);
    }
  }

  /** One call of nextCursor: the job found, if any, and where the cursor then stands. */
  function Next(w: Walker, at: map<Node, Slot>): (Option<Node>, Walker) {
    var k := LeadingCursors(w.back, at);
    if k == |w.back| then (None, w)
    else (Some(w.back[k]), Walker(w.front + w.back[..k + 1], w.back[k + 1..]))
  }

  lemma MoveBoundary(front: seq<Node>, back: seq<Node>, k: nat)
    requires k <= |back|
    ensures (front + back[..k]) + back[k..] == front + back
  {
  }

  lemma NextKeepsOrder(w: Walker, at: map<Node, Slot>)
    ensures var (found, w') := Next(w, at);
      && w'.front + w'.back == w.front + w.back
      && (found.Some? ==> JobNodes(w.back, at) == [found.value] + JobNodes(w'.back, at) && |w'.back| < |w.back|)
      && (found.None? ==> JobNodes(w.back, at) == [] && w' == w)
  {
    JobNodesSplit(w.back, at);
    if LeadingCursors(w.back, at) < |w.back| {
      MoveBoundary(w.front, w.back, LeadingCursors(w.back, at) + 1);
    }
  }

  /** Calls nextCursor until it reports the end: the jobs it returned, and the final position. */
  function Walk(w: Walker, at: map<Node, Slot>): (seq<Node>, Walker)
    decreases |w.back|
  {
    var (found, w') := Next(w, at);
    if found.None? then ([], w') else
    var (rest, final) := Walk(w', at);
    ([found.value] + rest, final)
  }

  /** A walk visits every job node behind the cursor exactly once, in list order, skips all cursors,
      and leaves the other nodes in place and in order. */
  lemma {:induction false} WalkVisitsJobs(w: Walker, at: map<Node, Slot>)
    ensures var (visited, final) := Walk(w, at);
      visited == JobNodes(w.back, at) && final.front + final.back == w.front + w.back
    decreases |w.back|
  {
    NextKeepsOrder(w, at);
    var (found, w') := Next(w, at);
    if found.Some? {
      WalkVisitsJobs(w', at);
    }
  }

  /** newCursor puts a cursor at the front; nextCursor is then called until the end; deleteCursor
      takes the cursor out.  Every job is visited once, in order, and the list is as it was. */
  lemma CursorWalk(list: seq<Node>, at: map<Node, Slot>, c: Node)
    requires c !in list
    ensures var (visited, final) := Walk(Walker([], list), at[c := Cursor]);
      visited == JobNodes(list, at) && final.front + final.back == list
  {
    WalkVisitsJobs(Walker([], list), at[c := Cursor]);
    SameJobNodes(list, at, at[c := Cursor]);
    assert [] + list == list;
  }
}
