/** The job list, socket map and poll array of CSocketMultiplexer.  Every method here runs between
    lockJobList and unlockJobList, that is, by one thread at a time (see JobListLock). */
module SocketMultiplexer {
  import opened JobCursors
  import opened JobRegistry
  import opened Options

  // ---------- from the list to the registry ----------

  ghost predicate Distinct(list: seq<Node>) {
    list == [] || (list[0] !in list[1..] && Distinct(list[1..]))
  }

  function Holding(slot: Slot): Option<Job> { if slot.Live? then Some(slot.job) else None }

  /** The registry entries of the list's owned nodes, in list order. */
  ghost function Entries(list: seq<Node>, at: map<Node, Slot>, owner: map<Node, Socket>): seq<Entry> {
    if list == [] then []
    else if list[0] in owner && list[0] in at then
      [Entry(owner[list[0]], Holding(at[list[0]]))] + Entries(list[1..], at, owner)
    else Entries(list[1..], at, owner)
  }

  ghost predicate LiveOwned(list: seq<Node>, at: map<Node, Slot>, owner: map<Node, Socket>) {
    forall n :: n in list && n in at && at[n].Live? ==> n in owner
  }

  /** The poll entries of the live jobs among the nodes, in order. */
  ghost function LivePolls(nodes: seq<Node>, at: map<Node, Slot>): seq<PollEntry> {
    if nodes == [] then []
    else if nodes[0] in at && at[nodes[0]].Live? then [PollOf(at[nodes[0]].job)] + LivePolls(nodes[1..], at)
    else LivePolls(nodes[1..], at)
  }

  ghost function LiveRuns(nodes: seq<Node>, at: map<Node, Slot>, revents: seq<Revents>): seq<Run>
    requires |revents| == |LivePolls(nodes, at)|
  {
    if nodes == [] then []
    else if nodes[0] in at && at[nodes[0]].Live? then
      [RunOf(at[nodes[0]].job, revents[0])] + LiveRuns(nodes[1..], at, revents[1..])
    else LiveRuns(nodes[1..], at, revents)
  }

  function SlotOf(job: Option<Job>): Slot { if job.Some? then Live(job.value) else Empty }

  ghost function LiveServed(nodes: seq<Node>, at: map<Node, Slot>, outcomes: seq<Option<Job>>): map<Node, Slot>
    requires Distinct(nodes) && |outcomes| == |LivePolls(nodes, at)|
  {
    if nodes == [] then at
    else if nodes[0] in at && at[nodes[0]].Live? then
      LivePollsFrame(nodes[1..], at, nodes[0], SlotOf(outcomes[0]));
      LiveServed(nodes[1..], at[nodes[0] := SlotOf(outcomes[0])], outcomes[1..])
    else LiveServed(nodes[1..], at, outcomes)
  }

  lemma {:induction false} LivePollsFrame(nodes: seq<Node>, at: map<Node, Slot>, n: Node, slot: Slot)
    requires n !in nodes
    ensures LivePolls(nodes, at[n := slot]) == LivePolls(nodes, at)
  {
    if nodes != [] {
      LivePollsFrame(nodes[1..], at, n, slot);
    }
  }

  lemma {:induction false} LiveRunsFrame(nodes: seq<Node>, at: map<Node, Slot>, n: Node, slot: Slot, revents: seq<Revents>)
    requires n !in nodes && |revents| == |LivePolls(nodes, at)|
    ensures LivePolls(nodes, at[n := slot]) == LivePolls(nodes, at)
    ensures LiveRuns(nodes, at[n := slot], revents) == LiveRuns(nodes, at, revents)
  {
    LivePollsFrame(nodes, at, n, slot);
    if nodes != [] {
      var live := nodes[0] in at && at[nodes[0]].Live?;
      LiveRunsFrame(nodes[1..], at, n, slot, if live then revents[1..] else revents);
    }
  }

  /** Nothing live is left: the pass has nothing more to do. */
  lemma {:induction false} NoLiveLeft(nodes: seq<Node>, at: map<Node, Slot>)
    requires Distinct(nodes) && LivePolls(nodes, at) == []
    ensures LiveRuns(nodes, at, []) == [] && LiveServed(nodes, at, []) == at
  {
    if nodes != [] {
      NoLiveLeft(nodes[1..], at);
    }
  }

  // the cursor-free node sequence carries the same live jobs

  lemma {:induction false} JobNodesIn(list: seq<Node>, at: map<Node, Slot>)
    ensures forall n :: n in JobNodes(list, at) ==> n in list
    ensures Distinct(list) ==> Distinct(JobNodes(list, at))
  {
    if list != [] {
      JobNodesIn(list[1..], at);
    }
  }

  lemma {:induction false} JobNodesPolls(list: seq<Node>, at: map<Node, Slot>)
    ensures LivePolls(JobNodes(list, at), at) == LivePolls(list, at)
  {
    if list != [] {
      JobNodesPolls(list[1..], at);
    }
  }

  lemma {:induction false} EntriesPolls(list: seq<Node>, at: map<Node, Slot>, owner: map<Node, Socket>)
    requires LiveOwned(list, at, owner)
    ensures Polls(Entries(list, at, owner)) == LivePolls(list, at)
  {
    if list != [] {
      EntriesPolls(list[1..], at, owner);
    }
  }

  lemma {:induction false} EntriesFrame(list: seq<Node>, at: map<Node, Slot>, owner: map<Node, Socket>, n: Node, slot: Slot)
    requires n !in list
    ensures Entries(list, at[n := slot], owner) == Entries(list, at, owner)
  {
    if list != [] {
      EntriesFrame(list[1..], at, owner, n, slot);
    }
  }

  ghost predicate Filled(list: seq<Node>, at: map<Node, Slot>) { forall n :: n in list ==> n in at }

  /** Serving touches live nodes only, and never makes or unmakes a cursor. */
  lemma {:induction false} ServedSlots(nodes: seq<Node>, at: map<Node, Slot>, outcomes: seq<Option<Job>>, n: Node)
    requires Distinct(nodes) && |outcomes| == |LivePolls(nodes, at)|
    ensures var at' := LiveServed(nodes, at, outcomes);
      && (n in at' <==> n in at)
      && (n in at && n !in nodes ==> at'[n] == at[n])
      && (n in at ==> (at'[n].Cursor? <==> at[n].Cursor?) && (at'[n].Live? ==> at[n].Live?))
  {
    if nodes != [] {
      if nodes[0] in at && at[nodes[0]].Live? {
        LivePollsFrame(nodes[1..], at, nodes[0], SlotOf(outcomes[0]));
        ServedSlots(nodes[1..], at[nodes[0] := SlotOf(outcomes[0])], outcomes[1..], n);
      } else {
        ServedSlots(nodes[1..], at, outcomes, n);
      }
    }
  }

  lemma {:induction false} EntriesRuns(list: seq<Node>, at: map<Node, Slot>, owner: map<Node, Socket>, revents: seq<Revents>)
    requires LiveOwned(list, at, owner) && |revents| == |LivePolls(JobNodes(list, at), at)|
    ensures |Polls(Entries(list, at, owner))| == |revents|
    ensures LiveRuns(JobNodes(list, at), at, revents) == Runs(Entries(list, at, owner), revents)
  {
    EntriesPolls(list, at, owner);
    JobNodesPolls(list, at);
    if list != [] {
      var live := list[0] in at && at[list[0]].Live?;
      EntriesRuns(list[1..], at, owner, if live then revents[1..] else revents);
    }
  }

  lemma {:induction false} EntriesServed(list: seq<Node>, at: map<Node, Slot>, owner: map<Node, Socket>, outcomes: seq<Option<Job>>)
    requires Distinct(list) && LiveOwned(list, at, owner)
    requires Distinct(JobNodes(list, at)) && |outcomes| == |LivePolls(JobNodes(list, at), at)|
    ensures |Polls(Entries(list, at, owner))| == |outcomes|
    ensures Entries(list, LiveServed(JobNodes(list, at), at, outcomes), owner) == Serve(Entries(list, at, owner), outcomes)
  {
    EntriesPolls(list, at, owner);
    JobNodesPolls(list, at);
    if list != [] {
      var h, t := list[0], list[1..];
      JobNodesIn(t, at);
      if h in at && at[h].Live? {
        var at1 := at[h := SlotOf(outcomes[0])];
        SameJobNodes(t, at, at1);
        LivePollsFrame(JobNodes(t, at), at, h, SlotOf(outcomes[0]));
        EntriesFrame(t, at, owner, h, SlotOf(outcomes[0]));
        EntriesServed(t, at1, owner, outcomes[1..]);
        ServedSlots(JobNodes(t, at), at1, outcomes[1..], h);
      } else {
        EntriesServed(t, at, owner, outcomes);
        ServedSlots(JobNodes(t, at), at, outcomes, h);
      }
    }
  }

  lemma {:induction false} EntriesPurged(list: seq<Node>, at: map<Node, Slot>, owner: map<Node, Socket>, owner': map<Node, Socket>)
    requires Filled(list, at)
    requires forall n :: n in list ==> (n in owner' <==> n in owner && at[n].Live?)
    requires forall n :: n in list && n in owner' ==> owner'[n] == owner[n]
    ensures Entries(list, at, owner') == Purge(Entries(list, at, owner))
  {
    if list != [] {
      EntriesPurged(list[1..], at, owner, owner');
    }
  }

  lemma {:induction false} EntriesPut(list: seq<Node>, at: map<Node, Slot>, owner: map<Node, Socket>, n: Node, job: Job)
    requires Distinct(list) && Filled(list, at) && n in list && n in owner
    requires forall m :: m in list && m in owner && owner[m] == owner[n] ==> m == n
    ensures Entries(list, at[n := Live(job)], owner) == Put(Entries(list, at, owner), owner[n], job)
  {
    if list[0] == n {
      EntriesFrame(list[1..], at, owner, n, Live(job));
    } else {
      EntriesPut(list[1..], at, owner, n, job);
    }
  }

  lemma {:induction false} EntriesDrop(list: seq<Node>, at: map<Node, Slot>, owner: map<Node, Socket>, n: Node)
    requires Distinct(list) && Filled(list, at) && n in list && n in owner
    requires forall m :: m in list && m in owner && owner[m] == owner[n] ==> m == n
    ensures Entries(list, at[n := Empty], owner) == Drop(Entries(list, at, owner), owner[n])
  {
    if list[0] == n {
      EntriesFrame(list[1..], at, owner, n, Empty);
    } else {
      EntriesDrop(list[1..], at, owner, n);
    }
  }

  lemma {:induction false} EntriesAppend(list: seq<Node>, at: map<Node, Slot>, owner: map<Node, Socket>, n: Node, s: Socket, job: Job)
    requires n !in list && Filled(list, at)
    requires forall m :: m in list && m in owner ==> owner[m] != s
    ensures Entries(list + [n], at[n := Live(job)], owner[n := s]) == Put(Entries(list, at, owner), s, job)
  {
    if list == [] {
      assert Entries([n][1..], at[n := Live(job)], owner[n := s]) == [];
    } else {
      assert (list + [n])[1..] == list[1..] + [n];
      EntriesAppend(list[1..], at, owner, n, s, job);
    }
  }

  lemma {:induction false} EntriesAbsent(list: seq<Node>, at: map<Node, Slot>, owner: map<Node, Socket>, s: Socket)
    requires forall m :: m in list && m in owner ==> owner[m] != s
    ensures Drop(Entries(list, at, owner), s) == Entries(list, at, owner)
  {
    if list != [] {
      EntriesAbsent(list[1..], at, owner, s);
    }
  }

  // ---------- the class ----------

  ghost predicate Links(list: seq<Node>, at: map<Node, Slot>, nextNode: Node, socketMap: map<Socket, Node>, owner: map<Node, Socket>) {
    && Distinct(list)
    && (forall n: Node :: n in list <==> n in at)
    && (forall n: Node :: n in at ==> n < nextNode)
    && (forall s :: s in socketMap ==> socketMap[s] in at && !at[socketMap[s]].Cursor?
                                       && socketMap[s] in owner && owner[socketMap[s]] == s)
    && (forall n: Node :: n in owner ==> owner[n] in socketMap && socketMap[owner[n]] == n)
    && LiveOwned(list, at, owner)
  }

  class SocketMultiplexer {
    var list: seq<Node>                 // m_socketJobs
    var at: map<Node, Slot>             //   and what its nodes hold
    var nextNode: Node                  //   node allocator
    var socketMap: map<Socket, Node>    // m_socketJobMap
    var update: bool                    // m_update
    var pfds: seq<PollEntry>            // serviceThread's poll array, kept between passes
    ghost var owner: map<Node, Socket>  // the inverse of socketMap

    /** List and map belong together: nodes are distinct, every socket's node is a job node of the
        list, and every live node is owned by exactly one socket. */
    ghost predicate Linked()
      reads this
    {
      Links(list, at, nextNode, socketMap, owner)
    }

    /** Unless an update is pending, the poll array is exactly the live jobs in list order. */
    ghost predicate Valid()
      reads this
    {
      Linked() && (!update ==> pfds == LivePolls(list, at))
    }

    ghost function Registry(): seq<Entry>
      reads this
    {
      Entries(list, at, owner)
    }

    constructor ()
      ensures Valid() && Registry() == []
    {
      list, at, nextNode, socketMap, update, pfds, owner := [], map[], 0, map[], false, [], map[];
    }

    method AddSocket(s: Socket, job: Job)
      requires Valid()
      modifies this
      ensures Valid() && Registry() == Put(old(Registry()), s, job)
      ensures list == if s in old(socketMap) then old(list) else old(list) + [old(nextNode)]
    {
      if s !in socketMap {
        AppendJob(s, job);
      } else {
        var j := socketMap[s];
        EntriesPut(list, at, owner, j, job);
        if at[j] != Live(job) {
          at := at[j := Live(job)];
        } else {
          assert at[j := Live(job)] == at;
        }
        update := true;
      }
    }

    /** Only a new last node leaves the places of the others in pfds as they are. */
    method AppendJob(s: Socket, job: Job)
      requires Valid() && s !in socketMap
      modifies this
      ensures Valid() && Registry() == Put(old(Registry()), s, job)
      ensures list == old(list) + [old(nextNode)]
    {
      var j := nextNode;
      AppendLinks(list, at, nextNode, socketMap, owner, s, job);
      nextNode := nextNode + 1;
      list, at := list + [j], at[j := Live(job)];
      update := true;
      socketMap, owner := socketMap[s := j], owner[j := s];
    }

    method RemoveSocket(s: Socket)
      requires Valid()
      modifies this
      ensures Valid() && Registry() == Drop(old(Registry()), s) && list == old(list)
    {
      if s in socketMap {
        var j := socketMap[s];
        EntriesDrop(list, at, owner, j);
        if at[j].Live? {
          at := at[j := Empty];
          update := true;
        } else {
          assert at[j := Empty] == at;
        }
      } else {
        EntriesAbsent(list, at, owner, s);
      }
    }

    // ---------- cursors ----------

    method NewCursor() returns (c: Node)
      modifies this`list, this`at, this`nextNode
      ensures c == old(nextNode) && nextNode == c + 1
      ensures list == [c] + old(list) && at == old(at)[c := Cursor]
    {
      c := nextNode;
      nextNode := nextNode + 1;
      list, at := [c] + list, at[c := Cursor];
    }

    /** The ghost argument says where the cursor stands. */
    method NextCursor(c: Node, ghost w: Walker) returns (found: Option<Node>)
      requires list == Around(w, c) && c !in w.front
      modifies this`list
      ensures found == Next(w, at).0 && list == Around(Next(w, at).1, c)
    {
      IndexAround(w, c);
      var p := IndexOf(list, c);
      assert list[p + 1..] == w.back;
      var i := SkipCursors(p + 1);
      if i == |list| {
        return None;
      }
      found := Some(list[i]);
      i := i + 1;
      MoveCursor(c, w, p, i);
    }

    /** Moves the cursor at place p to just before place i. */
    method MoveCursor(c: Node, ghost w: Walker, p: nat, i: nat)
      requires list == Around(w, c) && p == |w.front| < i <= |list|
      modifies this`list
      ensures list == Around(Walker(w.front + w.back[..i - p - 1], w.back[i - p - 1..]), c)
    {
      SpliceAround(w, c, i - p - 1);
      list := list[..p] + list[p + 1..i] + [c] + list[i..];
    }

    /** The loop of nextCursor: looks for the next node that holds a job. */
    method SkipCursors(start: nat) returns (i: nat)
      requires start <= |list|
      ensures start <= i <= |list| && i - start == LeadingCursors(list[start..], at)
    {
      i := start;
      while i < |list| && !HoldsJob(at, list[i])
        invariant start <= i <= |list|
        invariant LeadingCursors(list[start..], at) == (i - start) + LeadingCursors(list[i..], at)
      {
        assert list[i..][1..] == list[i + 1..];
        i := i + 1;
      }
    }

    /** nextCursor in the middle of a walk through the nodes in `rest`. */
    method Advance(c: Node, ghost w: Walker, ghost rest: seq<Node>, ghost pending: seq<Node>) returns (j: Option<Node>, ghost w': Walker)
      requires list == Around(w, c) && c !in w.front
      requires w.front + w.back == rest && c !in rest && pending == JobNodes(w.back, at)
      modifies this`list
      ensures list == Around(w', c) && Behind(w', c, rest, j, pending, at)
      ensures j.Some? ==> |w'.back| < |w.back|
    {
      j := NextCursor(c, w);
      WalkStep(w, at, c, rest, pending);
      w' := Next(w, at).1;
    }

    method DeleteCursor(c: Node, ghost w: Walker)
      requires list == Around(w, c) && c !in w.front
      modifies this`list, this`at
      ensures list == w.front + w.back && at == old(at) - {c}
    {
      IndexAround(w, c);
      assert list[|w.front|] == c;
      var p := IndexOf(list, c);
      list, at := list[..p] + list[p + 1..], at - {c};
    }

    // ---------- one pass of the service thread ----------

    /** Brings the poll array up to date. */
    method CollectPollEntries()
      requires Valid()
      modifies this
      ensures Valid() && !update && pfds == LivePolls(list, at)
      ensures list == old(list) && at == old(at) && socketMap == old(socketMap) && owner == old(owner)
    {
      if update {
        update := false;
        CursorFresh(list, at, nextNode, socketMap, owner);
        RebuildPollEntries();
      }
    }

    method RebuildPollEntries()
      requires Linked()
      modifies this`list, this`at, this`nextNode, this`pfds
      ensures list == old(list) && at == old(at) && nextNode == old(nextNode) + 1
      ensures pfds == LivePolls(list, at)
    {
      pfds := [];
      ghost var list0, at0 := list, at;
      CursorFresh(list, at, nextNode, socketMap, owner);
      var c := NewCursor();
      StartWalk(list0, at0, c);
      assert list == Around(Walker([], list0), c);
      assert forall n :: n in list0 ==> n in at;
      ghost var w := AppendPollEntries(c, list0);
      assert pfds == LivePolls(list0, at0);
      DeleteCursor(c, w);
      assert list == list0 && at == at0;
    }

    /** Walks cursor c, which is at the front, to the end of the list. */
    method AppendPollEntries(c: Node, ghost rest: seq<Node>) returns (ghost w: Walker)
      requires list == Around(Walker([], rest), c) && c !in rest && c in at && at[c].Cursor?
      requires forall n :: n in rest ==> n in at
      modifies this`list, this`pfds
      ensures list == Around(w, c) && w.front + w.back == rest && c !in w.front
      ensures pfds == old(pfds) + LivePolls(JobNodes(rest, at), at)
    {
      w := Walker([], rest);
      ghost var pending := JobNodes(rest, at);
      ghost var all := pfds + LivePolls(pending, at);
      PollBegin(pfds, rest, at);
      var j;
      j, w := Advance(c, w, rest, pending);
      while j.Some?
        invariant list == Around(w, c) && Behind(w, c, rest, j, pending, at)
        invariant Polling(pfds, pending, at, all)
        decreases if j.Some? then |w.back| + 1 else 0
      {
        AppendPoll(j.value, pending, all);
        pending := pending[1..];
        j, w := Advance(c, w, rest, pending);
      }
      PollEnd(pfds, at, all);
    }

    /** The body of that loop but for going on: the next job, if it is live, gets a poll entry. */
    method AppendPoll(j: Node, ghost pending: seq<Node>, ghost all: seq<PollEntry>)
      requires pending != [] && pending[0] == j && Polling(pfds, pending, at, all)
      modifies this`pfds
      ensures Polling(pfds, pending[1..], at, all)
    {
      assert j in at;
      PollStep(pfds, pending, at);
      if at[j].Live? {
        pfds := pfds + [PollOf(at[j].job)];
      }
    }

    /** Runs each live job with its poll result; `outcomes` are what the calls of run return. */
    method RunJobs(revents: seq<Revents>, outcomes: seq<Option<Job>>) returns (runs: seq<Run>)
      requires nextNode !in list && nextNode !in at && Filled(list, at)
      requires pfds == LivePolls(list, at) && |revents| == |outcomes| == |pfds|
      requires Distinct(JobNodes(list, at)) && |LivePolls(JobNodes(list, at), at)| == |pfds|
      modifies this`list, this`at, this`nextNode, this`update
      ensures list == old(list) && nextNode == old(nextNode) + 1
      ensures at == LiveServed(JobNodes(list, old(at)), old(at), outcomes)
      ensures runs == LiveRuns(JobNodes(list, old(at)), old(at), revents)
      ensures !update ==> at == old(at)
    {
      ghost var list0, at0 := list, at;
      var c := NewCursor();
      StartWalk(list0, at0, c);
      StartServe(list0, at0, c, revents, outcomes);
      ghost var at1 := at;
      ghost var w;
      runs, w := RunLiveJobs(c, list0, revents, outcomes);
      DeleteCursor(c, w);
    }

    /** Walks cursor c, which is at the front, to the end of the list or of the poll array. */
    method RunLiveJobs(c: Node, ghost rest: seq<Node>, revents: seq<Revents>, outcomes: seq<Option<Job>>)
      returns (runs: seq<Run>, ghost w: Walker)
      requires list == Around(Walker([], rest), c) && c !in rest && c in at && at[c].Cursor?
      requires forall n :: n in rest ==> n in at
      requires Distinct(JobNodes(rest, at))
      requires |revents| == |outcomes| == |pfds| == |LivePolls(JobNodes(rest, at), at)|
      modifies this`list, this`at, this`update
      ensures list == Around(w, c) && w.front + w.back == rest && c !in w.front
      ensures at == LiveServed(JobNodes(rest, old(at)), old(at), outcomes)
      ensures runs == LiveRuns(JobNodes(rest, old(at)), old(at), revents)
      ensures !update ==> at == old(at)
    {
      var i: nat := 0;
      runs := [];
      w := Walker([], rest);
      ghost var nodes, at0 := JobNodes(rest, at), at;
      ghost var pending := nodes;
      ServeBegin(rest, at, revents, outcomes);
      var j;
      j, w := Advance(c, w, rest, pending);
      while i < |pfds| && j.Some?
        invariant list == Around(w, c) && Behind(w, c, rest, j, pending, at)
        invariant Serving(pending, at, revents, outcomes, i, runs, nodes, at0)
        invariant !update ==> at == at0
        decreases if j.Some? then |w.back| + 1 else 0
      {
        i, runs := RunNext(j.value, revents, outcomes, i, runs, pending, w.back, nodes, at0);
        pending := pending[1..];
        j, w := Advance(c, w, rest, pending);
      }
      ServeEnd(pending, at, revents, outcomes, i, runs, nodes, at0);
    }

    /** The body of that loop but for going on: the next job, if it is live, gets the next result. */
    method RunNext(j: Node, revents: seq<Revents>, outcomes: seq<Option<Job>>, i: nat, runs: seq<Run>,
                   ghost pending: seq<Node>, ghost back: seq<Node>, ghost nodes: seq<Node>, ghost at0: map<Node, Slot>)
      returns (i': nat, runs': seq<Run>)
      requires i < |revents| && pending != [] && pending[0] == j && pending[1..] == JobNodes(back, at)
      requires Serving(pending, at, revents, outcomes, i, runs, nodes, at0) && (!update ==> at == at0)
      modifies this`at, this`update
      ensures pending[1..] == JobNodes(back, at)
      ensures Serving(pending[1..], at, revents, outcomes, i', runs', nodes, at0) && (!update ==> at == at0)
    {
      ServeStep(pending, back, at, revents, outcomes, i, runs, nodes, at0);
      if at[j].Live? {
        var run := RunJob(j, revents[i], outcomes[i]);
        return i + 1, runs + [run];
      }
      return i, runs;
    }

    /** Runs one job and puts what it returns in its place. */
    method RunJob(j: Node, revents: Revents, outcome: Option<Job>) returns (run: Run)
      requires j in at && at[j].Live?
      modifies this`at, this`update
      ensures run == Run(old(at)[j].job, revents.pollIn, revents.pollOut, revents.pollErr || revents.pollNval)
      ensures at == old(at)[j := if outcome.Some? then Live(outcome.value) else Empty]
      ensures !update ==> !old(update) && at == old(at)
    {
      var job := at[j].job;
      run := RunOf(job, revents);
      var newJob := outcome;
      if newJob != Some(job) {
        at := at[j := SlotOf(newJob)];
        update := true;
      }
    }

    /** Forgets the sockets whose job is gone.  The empty list nodes stay behind. */
    method Sweep()
      requires Linked()
      modifies this`socketMap, this`owner, this`update
      ensures Links(list, at, nextNode, socketMap, owner)
      ensures Entries(list, at, owner) == Purge(Entries(list, at, old(owner)))
      ensures update <==> old(update) || socketMap.Keys != old(socketMap.Keys)
    {
      var rest := socketMap.Keys;
      while rest != {}
        invariant Sweeping(list, at, nextNode, socketMap, owner, rest, old(owner))
        invariant socketMap.Keys <= old(socketMap.Keys)
        invariant update <==> old(update) || socketMap.Keys != old(socketMap.Keys)
      {
        var s :| s in rest;
        SweepOne(list, at, nextNode, socketMap, owner, rest, old(owner), s);
        rest := rest - {s};
        if at[socketMap[s]].Empty? {
          socketMap, owner := socketMap - {s}, owner - {socketMap[s]};
          update := true;
        }
      }
      SweptOwners(list, at, nextNode, socketMap, old(owner), owner);
    }

    /** One iteration of serviceThread.  `status` is what pollSocket returned, 0 if it threw;
        `polled` is the poll array it was given and `revents` what it filled in. */
    method ServicePass(status: int, revents: seq<Revents>, outcomes: seq<Option<Job>>)
      returns (polled: seq<PollEntry>, runs: seq<Run>)
      requires Valid() && |revents| == |outcomes| == |Polls(Registry())|
      modifies this
      ensures Valid() && list == old(list)
      ensures polled == Polls(old(Registry()))
      ensures status == 0 || polled == [] ==> runs == [] && Registry() == Purge(old(Registry()))
      ensures status != 0 && polled != [] ==>
        runs == Runs(old(Registry()), revents) && Registry() == Purge(Serve(old(Registry()), outcomes))
    {
      EntriesPolls(list, at, owner);
      JobNodesPolls(list, at);
      JobNodesIn(list, at);
      CollectPollEntries();
      polled := pfds;
      runs := [];
      if status != 0 && pfds != [] {
        ghost var at0 := at;
        PassKeepsLinks(list, at, nextNode, socketMap, owner, outcomes);
        EntriesRuns(list, at, owner, revents);
        EntriesServed(list, at, owner, outcomes);
        CursorFresh(list, at, nextNode, socketMap, owner);
        runs := RunJobs(revents, outcomes);
      }
      Sweep();
    }

    // ---------- any calls in a row ----------

    method Perform(call: Call)
      requires Valid() && Fits(Registry(), call)
      modifies this
      ensures Valid() && Possible(old(Registry()), OperationOf(old(Registry()), call))
      ensures Registry() == Apply(old(Registry()), OperationOf(old(Registry()), call))
      ensures |list| == |old(list)| + if call.AddCall? && call.socket !in Sockets(old(Registry())) then 1 else 0
    {
      match call {
        case AddCall(s, job) =>
          MappedIsRegistered(list, at, nextNode, socketMap, owner, s);
          AddSocket(s, job);
        case RemoveCall(s) =>
          RemoveSocket(s);
        case PassCall(status, revents, outcomes) =>
          var _, _ := ServicePass(status, revents, outcomes);
      }
    }

    /** Any series of calls is a history of the registry, and the list has one node more for every socket
        that was registered anew: none is ever taken out. */
    method PerformAll(calls: seq<Call>)
      requires Valid() && AllFit(Registry(), calls)
      modifies this
      ensures Valid() && IsHistory(old(Registry()), Operations(old(Registry()), calls))
      ensures Registry() == After(old(Registry()), Operations(old(Registry()), calls))
      ensures |list| == |old(list)| + NewlyRegistered(old(Registry()), Operations(old(Registry()), calls))
      decreases |calls|
    {
      if calls != [] {
        ghost var reg := Registry();
        Perform(calls[0]);
        assert Operations(reg, calls)[1..] == Operations(Registry(), calls[1..]);
        PerformAll(calls[1..]);
      }
    }
  }

  /** One call from outside, with what poll and the jobs do in it. */
  datatype Call =
    | AddCall(socket: Socket, job: Job)
    | RemoveCall(socket: Socket)
    | PassCall(status: int, revents: seq<Revents>, outcomes: seq<Option<Job>>)

  ghost predicate Fits(reg: seq<Entry>, call: Call) {
    call.PassCall? ==> |call.revents| == |call.outcomes| == |Polls(reg)|
  }

  /** What it is to the registry. */
  function OperationOf(reg: seq<Entry>, call: Call): Operation {
    match call
    case AddCall(s, job) => Add(s, job)
    case RemoveCall(s) => Remove(s)
    case PassCall(status, _, outcomes) => Pass(if status == 0 || Polls(reg) == [] then None else Some(outcomes))
  }

  ghost predicate AllFit(reg: seq<Entry>, calls: seq<Call>)
    decreases |calls|
  {
    calls == [] || (Fits(reg, calls[0]) && AllFit(Apply(reg, OperationOf(reg, calls[0])), calls[1..]))
  }

  function Operations(reg: seq<Entry>, calls: seq<Call>): seq<Operation>
    requires AllFit(reg, calls)
    decreases |calls|
  {
    if calls == [] then [] else
    var op := OperationOf(reg, calls[0]);
    [op] + Operations(Apply(reg, op), calls[1..])
  }

  lemma MappedIsRegistered(list: seq<Node>, at: map<Node, Slot>, nextNode: Node, socketMap: map<Socket, Node>,
                           owner: map<Node, Socket>, s: Socket)
    requires Links(list, at, nextNode, socketMap, owner)
    ensures s in socketMap <==> s in Sockets(Entries(list, at, owner))
  {
    OwnedAreRegistered(list, at, owner, s);
  }

  lemma {:induction false} OwnedAreRegistered(list: seq<Node>, at: map<Node, Slot>, owner: map<Node, Socket>, s: Socket)
    requires Filled(list, at)
    ensures s in Sockets(Entries(list, at, owner)) <==> exists n :: n in list && n in owner && owner[n] == s
  {
    if list != [] {
      OwnedAreRegistered(list[1..], at, owner, s);
    }
  }

  /** Mid-sweep: the sockets in `rest` have not been looked at. */
  ghost predicate Sweeping(list: seq<Node>, at: map<Node, Slot>, nextNode: Node, socketMap: map<Socket, Node>, owner: map<Node, Socket>,
                           rest: set<Socket>, owner0: map<Node, Socket>)
  {
    && Links(list, at, nextNode, socketMap, owner) && rest <= socketMap.Keys
    && (forall s :: s in socketMap ==> s in rest || at[socketMap[s]].Live?)
    && (forall n :: n in owner ==> n in owner0 && owner[n] == owner0[n])
    && (forall n :: n in owner0 && n in at && at[n].Live? ==> n in owner)
  }

  lemma SweepOne(list: seq<Node>, at: map<Node, Slot>, nextNode: Node, socketMap: map<Socket, Node>, owner: map<Node, Socket>,
                 rest: set<Socket>, owner0: map<Node, Socket>, s: Socket)
    requires Sweeping(list, at, nextNode, socketMap, owner, rest, owner0) && s in rest
    ensures if at[socketMap[s]].Empty?
            then Sweeping(list, at, nextNode, socketMap - {s}, owner - {socketMap[s]}, rest - {s}, owner0)
            else Sweeping(list, at, nextNode, socketMap, owner, rest - {s}, owner0)
  {
  }

  lemma SweptOwners(list: seq<Node>, at: map<Node, Slot>, nextNode: Node, socketMap: map<Socket, Node>,
                    owner0: map<Node, Socket>, owner: map<Node, Socket>)
    requires Sweeping(list, at, nextNode, socketMap, owner, {}, owner0)
    ensures Entries(list, at, owner) == Purge(Entries(list, at, owner0))
  {
    EntriesPurged(list, at, owner0, owner);
  }

  lemma PassKeepsLinks(list: seq<Node>, at: map<Node, Slot>, nextNode: Node, socketMap: map<Socket, Node>, owner: map<Node, Socket>,
                       outcomes: seq<Option<Job>>)
    requires Links(list, at, nextNode, socketMap, owner)
    requires Distinct(JobNodes(list, at)) && |outcomes| == |LivePolls(JobNodes(list, at), at)|
    ensures Links(list, LiveServed(JobNodes(list, at), at, outcomes), nextNode + 1, socketMap, owner)
  {
    forall n: Node ensures
      var at' := LiveServed(JobNodes(list, at), at, outcomes);
      (n in at' <==> n in at) && (n in at ==> (at'[n].Cursor? <==> at[n].Cursor?) && (at'[n].Live? ==> at[n].Live?))
    {
      ServedSlots(JobNodes(list, at), at, outcomes, n);
    }
  }

  /** Mid-pass: what is still pending leads to the same result as the whole pass from the start. */
  ghost predicate Serving(pending: seq<Node>, at: map<Node, Slot>, revents: seq<Revents>, outcomes: seq<Option<Job>>,
                          i: nat, runs: seq<Run>, nodes: seq<Node>, at0: map<Node, Slot>)
  {
    && i <= |revents| == |outcomes| == |LivePolls(nodes, at0)|
    && Distinct(nodes) && Distinct(pending)
    && (forall n :: n in pending ==> n in at)
    && |LivePolls(pending, at)| == |outcomes| - i
    && LiveServed(pending, at, outcomes[i..]) == LiveServed(nodes, at0, outcomes)
    && runs + LiveRuns(pending, at, revents[i..]) == LiveRuns(nodes, at0, revents)
  }

  lemma ServeBegin(list: seq<Node>, at: map<Node, Slot>, revents: seq<Revents>, outcomes: seq<Option<Job>>)
    requires Distinct(JobNodes(list, at)) && |revents| == |outcomes| == |LivePolls(JobNodes(list, at), at)|
    requires forall n :: n in list ==> n in at
    ensures Serving(JobNodes(list, at), at, revents, outcomes, 0, [], JobNodes(list, at), at)
  {
    JobNodesIn(list, at);
    assert outcomes[0..] == outcomes && revents[0..] == revents;
  }

  lemma ServeStep(pending: seq<Node>, back: seq<Node>, at: map<Node, Slot>, revents: seq<Revents>, outcomes: seq<Option<Job>>,
                  i: nat, runs: seq<Run>, nodes: seq<Node>, at0: map<Node, Slot>)
    requires Serving(pending, at, revents, outcomes, i, runs, nodes, at0)
    requires i < |revents| && pending != [] && pending[1..] == JobNodes(back, at)
    ensures if at[pending[0]].Live? then
        var at1 := at[pending[0] := SlotOf(outcomes[i])];
        && Serving(pending[1..], at1, revents, outcomes, i + 1, runs + [RunOf(at[pending[0]].job, revents[i])], nodes, at0)
        && pending[1..] == JobNodes(back, at1)
        && (outcomes[i] == Some(at[pending[0]].job) ==> at1 == at)
      else Serving(pending[1..], at, revents, outcomes, i, runs, nodes, at0)
  {
    var n := pending[0];
    if at[n].Live? {
      var slot := SlotOf(outcomes[i]);
      LivePollsFrame(pending[1..], at, n, slot);
      LiveRunsFrame(pending[1..], at, n, slot, revents[i..][1..]);
      SameJobNodes(back, at, at[n := slot]);
      assert outcomes[i..][1..] == outcomes[i + 1..] && revents[i..][1..] == revents[i + 1..];
    }
  }

  lemma ServeEnd(pending: seq<Node>, at: map<Node, Slot>, revents: seq<Revents>, outcomes: seq<Option<Job>>,
                 i: nat, runs: seq<Run>, nodes: seq<Node>, at0: map<Node, Slot>)
    requires Serving(pending, at, revents, outcomes, i, runs, nodes, at0)
    requires i == |revents| || pending == []
    ensures at == LiveServed(nodes, at0, outcomes) && runs == LiveRuns(nodes, at0, revents)
  {
    NoLiveLeft(pending, at);
    assert outcomes[i..] == [] && revents[i..] == [];
  }

  lemma {:induction false} LiveServedFrame(nodes: seq<Node>, at: map<Node, Slot>, outcomes: seq<Option<Job>>, n: Node, slot: Slot)
    requires n !in nodes && Distinct(nodes) && |outcomes| == |LivePolls(nodes, at)|
    ensures LivePolls(nodes, at[n := slot]) == LivePolls(nodes, at)
    ensures LiveServed(nodes, at[n := slot], outcomes) == LiveServed(nodes, at, outcomes)[n := slot]
  {
    LivePollsFrame(nodes, at, n, slot);
    if nodes != [] {
      if nodes[0] in at && at[nodes[0]].Live? {
        var here := SlotOf(outcomes[0]);
        LivePollsFrame(nodes[1..], at, nodes[0], here);
        LiveServedFrame(nodes[1..], at[nodes[0] := here], outcomes[1..], n, slot);
        assert at[n := slot][nodes[0] := here] == at[nodes[0] := here][n := slot];
      } else {
        LiveServedFrame(nodes[1..], at, outcomes, n, slot);
      }
    }
  }

  /** The service thread's own cursor does not disturb the pass. */
  lemma StartServe(list: seq<Node>, at: map<Node, Slot>, c: Node, revents: seq<Revents>, outcomes: seq<Option<Job>>)
    requires c !in list && c !in at && Distinct(JobNodes(list, at))
    requires |revents| == |outcomes| == |LivePolls(JobNodes(list, at), at)|
    ensures var nodes := JobNodes(list, at);
      && |LivePolls(nodes, at[c := Cursor])| == |outcomes|
      && LiveServed(nodes, at[c := Cursor], outcomes) - {c} == LiveServed(nodes, at, outcomes)
      && LiveRuns(nodes, at[c := Cursor], revents) == LiveRuns(nodes, at, revents)
  {
    var nodes := JobNodes(list, at);
    JobNodesIn(list, at);
    LiveServedFrame(nodes, at, outcomes, c, Cursor);
    LiveRunsFrame(nodes, at, c, Cursor, revents);
    ServedSlots(nodes, at, outcomes, c);
  }

  /** A new node is not in the list; taking it out again after use leaves everything linked. */
  lemma CursorFresh(list: seq<Node>, at: map<Node, Slot>, c: Node, socketMap: map<Socket, Node>, owner: map<Node, Socket>)
    requires Links(list, at, c, socketMap, owner)
    ensures c !in list && c !in at && forall n :: n in list ==> n in at
    ensures at[c := Cursor] - {c} == at
    ensures Links(list, at, c + 1, socketMap, owner)
  {
  }

  /** Mid-walk: `j` is the job just returned and `pending` are the jobs still to handle, j first. */
  ghost predicate Behind(w: Walker, c: Node, list: seq<Node>, j: Option<Node>, pending: seq<Node>, at: map<Node, Slot>) {
    && w.front + w.back == list && c !in w.front
    && pending == (if j.Some? then [j.value] else []) + JobNodes(w.back, at)
    && (j.None? ==> pending == [])
  }

  lemma WalkStep(w: Walker, at: map<Node, Slot>, c: Node, list: seq<Node>, pending: seq<Node>)
    requires w.front + w.back == list && c !in list && pending == JobNodes(w.back, at)
    ensures Behind(Next(w, at).1, c, list, Next(w, at).0, pending, at)
    ensures Next(w, at).0.Some? ==> |Next(w, at).1.back| < |w.back|
  {
    NextKeepsOrder(w, at);
    var w' := Next(w, at).1;
    assert c !in w'.front + w'.back;
  }

  /** The poll entries so far and those of the pending nodes are all. */
  ghost predicate Polling(pfds: seq<PollEntry>, pending: seq<Node>, at: map<Node, Slot>, all: seq<PollEntry>) {
    (forall n :: n in pending ==> n in at) && pfds + LivePolls(pending, at) == all
  }

  lemma PollBegin(pfds: seq<PollEntry>, list: seq<Node>, at: map<Node, Slot>)
    requires Filled(list, at)
    ensures Polling(pfds, JobNodes(list, at), at, pfds + LivePolls(JobNodes(list, at), at))
  {
    JobNodesIn(list, at);
  }

  lemma PollEnd(pfds: seq<PollEntry>, at: map<Node, Slot>, all: seq<PollEntry>)
    requires Polling(pfds, [], at, all)
    ensures pfds == all
  {
    assert pfds + [] == pfds;
  }

  lemma PollStep(pfds: seq<PollEntry>, pending: seq<Node>, at: map<Node, Slot>)
    requires pending != [] && pending[0] in at
    ensures (if at[pending[0]].Live? then pfds + [PollOf(at[pending[0]].job)] else pfds) + LivePolls(pending[1..], at)
         == pfds + LivePolls(pending, at)
  {
  }

  lemma SpliceAround(w: Walker, c: Node, k: nat)
    requires k <= |w.back|
    ensures var list, p := Around(w, c), |w.front|;
      list[..p] + list[p + 1..p + 1 + k] + [c] + list[p + 1 + k..] == Around(Walker(w.front + w.back[..k], w.back[k..]), c)
  {
    assert Around(w, c)[|w.front| + 1..] == w.back;
  }

  /** At the start of a walk, the pending nodes are all the job nodes. */
  lemma StartWalk(list: seq<Node>, at: map<Node, Slot>, c: Node)
    requires c !in list
    ensures [c] + list == Around(Walker([], list), c)
    ensures [] + list == list
    ensures JobNodes(list, at[c := Cursor]) == JobNodes(list, at)
    ensures LivePolls(JobNodes(list, at), at[c := Cursor]) == LivePolls(list, at)
  {
    SameJobNodes(list, at, at[c := Cursor]);
    JobNodesPolls(list, at);
    JobNodesIn(list, at);
    LivePollsFrame(JobNodes(list, at), at, c, Cursor);
  }

  lemma AppendLinks(list: seq<Node>, at: map<Node, Slot>, nextNode: Node, socketMap: map<Socket, Node>, owner: map<Node, Socket>,
                    s: Socket, job: Job)
    requires Links(list, at, nextNode, socketMap, owner) && s !in socketMap
    ensures Links(list + [nextNode], at[nextNode := Live(job)], nextNode + 1, socketMap[s := nextNode], owner[nextNode := s])
    ensures Entries(list + [nextNode], at[nextNode := Live(job)], owner[nextNode := s]) == Put(Entries(list, at, owner), s, job)
  {
    EntriesAppend(list, at, owner, nextNode, s, job);
    DistinctAppend(list, nextNode);
  }

  lemma {:induction false} DistinctAppend(list: seq<Node>, n: Node)
    requires Distinct(list) && n !in list
    ensures Distinct(list + [n])
  {
    if list != [] {
      DistinctAppend(list[1..], n);
      assert (list + [n])[1..] == list[1..] + [n];
    }
  }
}
