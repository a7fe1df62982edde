/** What the multiplexer's list, map and poll array together represent: the sockets in order of
    registration, each with its current job or none.  The operations here are the simple form that
    SocketMultiplexer refines. */
module JobRegistry {
  import opened JobCursors
  import opened Options

  type Socket = nat

  datatype Entry = Entry(socket: Socket, job: Option<Job>)

  datatype PollEntry = PollEntry(descriptor: nat, wantIn: bool, wantOut: bool)

  /** The poll result bits of one entry. */
  datatype Revents = Revents(pollIn: bool, pollOut: bool, pollErr: bool, pollNval: bool)

  /** One call of a job's run. */
  datatype Run = Run(job: Job, read: bool, write: bool, error: bool)

  function PollOf(job: Job): PollEntry { PollEntry(job.descriptor, job.readable, job.writable) }

  function RunOf(job: Job, r: Revents): Run { Run(job, r.pollIn, r.pollOut, r.pollErr || r.pollNval) }

  /** addSocket: replace the socket's job where it stands, or register it last. */
  function Put(reg: seq<Entry>, s: Socket, job: Job): seq<Entry> {
    if reg == [] then [Entry(s, Some(job))]
    else if reg[0].socket == s then [Entry(s, Some(job))] + reg[1..]
    else [reg[0]] + Put(reg[1..], s, job)
  }

  /** removeSocket: the socket keeps its place but has no job until the next sweep. */
  function Drop(reg: seq<Entry>, s: Socket): seq<Entry> {
    if reg == [] then []
    else if reg[0].socket == s then [Entry(s, None)] + reg[1..]
    else [reg[0]] + Drop(reg[1..], s)
  }

  /** The poll array: the jobs in order. */
  function Polls(reg: seq<Entry>): seq<PollEntry> {
    if reg == [] then []
    else if reg[0].job.None? then Polls(reg[1..])
    else [PollOf(reg[0].job.value)] + Polls(reg[1..])
  }

  /** A service pass hands the i-th poll result to the i-th job... */
  function Runs(reg: seq<Entry>, revents: seq<Revents>): seq<Run>
    requires |revents| == |Polls(reg)|
  {
    if reg == [] then []
    else if reg[0].job.None? then Runs(reg[1..], revents)
    else [RunOf(reg[0].job.value, revents[0])] + Runs(reg[1..], revents[1..])
  }

  /** ...and stores what that job's run returned as the job of the same socket. */
  function Serve(reg: seq<Entry>, outcomes: seq<Option<Job>>): seq<Entry>
    requires |outcomes| == |Polls(reg)|
  {
    if reg == [] then []
    else if reg[0].job.None? then [reg[0]] + Serve(reg[1..], outcomes)
    else [Entry(reg[0].socket, outcomes[0])] + Serve(reg[1..], outcomes[1..])
  }

  /** The sweep forgets the sockets that have no job. */
  function Purge(reg: seq<Entry>): seq<Entry> {
    if reg == [] then []
    else if reg[0].job.None? then Purge(reg[1..])
    else [reg[0]] + Purge(reg[1..])
  }

  // ---------- every history ----------

  datatype Operation =
    | Add(socket: Socket, job: Job)
    | Remove(socket: Socket)
    | Pass(results: Option<seq<Option<Job>>>)    // None: nothing was ready, or polling failed

  ghost predicate Possible(reg: seq<Entry>, op: Operation) {
    op.Pass? && op.results.Some? ==> |op.results.value| == |Polls(reg)|
  }

  function Apply(reg: seq<Entry>, op: Operation): seq<Entry>
    requires Possible(reg, op)
  {
    match op
    case Add(s, job) => Put(reg, s, job)
    case Remove(s) => Drop(reg, s)
    case Pass(None) => Purge(reg)
    case Pass(Some(outcomes)) => Purge(Serve(reg, outcomes))
  }

  ghost predicate IsHistory(reg: seq<Entry>, ops: seq<Operation>)
    decreases |ops|
  {
    ops == [] || (Possible(reg, ops[0]) && IsHistory(Apply(reg, ops[0]), ops[1..]))
  }

  function After(reg: seq<Entry>, ops: seq<Operation>): seq<Entry>
    requires IsHistory(reg, ops)
    decreases |ops|
  {
    if ops == [] then reg else After(Apply(reg, ops[0]), ops[1..])
  }

  function Sockets(reg: seq<Entry>): seq<Socket> {
    if reg == [] then [] else [reg[0].socket] + Sockets(reg[1..])
  }

  ghost predicate OneEach(reg: seq<Entry>) {
    reg == [] || (reg[0].socket !in Sockets(reg[1..]) && OneEach(reg[1..]))
  }

  /** The job a socket has now, if any. */
  function JobOf(reg: seq<Entry>, s: Socket): Option<Job> {
    if reg == [] then None else if reg[0].socket == s then reg[0].job else JobOf(reg[1..], s)
  }

  lemma {:induction false} PutEffect(reg: seq<Entry>, s: Socket, job: Job, t: Socket)
    ensures JobOf(Put(reg, s, job), t) == if t == s then Some(job) else JobOf(reg, t)
    ensures Sockets(Put(reg, s, job)) == if s in Sockets(reg) then Sockets(reg) else Sockets(reg) + [s]
    ensures OneEach(reg) ==> OneEach(Put(reg, s, job))
  {
    if reg != [] {
      PutEffect(reg[1..], s, job, t);
      PutEffect(reg[1..], s, job, reg[0].socket);
    }
  }

  lemma {:induction false} DropEffect(reg: seq<Entry>, s: Socket, t: Socket)
    ensures OneEach(reg) ==> JobOf(Drop(reg, s), t) == if t == s then None else JobOf(reg, t)
    ensures Sockets(Drop(reg, s)) == Sockets(reg)
    ensures OneEach(reg) ==> OneEach(Drop(reg, s))
  {
    if reg != [] {
      DropEffect(reg[1..], s, t);
    }
  }

  /** Serving keeps every socket in its place, and gives none a job that had none. */
  lemma {:induction false} ServeEffect(reg: seq<Entry>, outcomes: seq<Option<Job>>, t: Socket)
    requires |outcomes| == |Polls(reg)|
    ensures Sockets(Serve(reg, outcomes)) == Sockets(reg)
    ensures JobOf(reg, t) == None ==> JobOf(Serve(reg, outcomes), t) == None
    ensures OneEach(reg) ==> OneEach(Serve(reg, outcomes))
  {
    if reg != [] {
      ServeEffect(reg[1..], if reg[0].job.None? then outcomes else outcomes[1..], t);
    }
  }

  /** Sweeping leaves exactly the sockets that have a job, each with its job. */
  lemma {:induction false} PurgeEffect(reg: seq<Entry>, t: Socket)
    ensures t in Sockets(Purge(reg)) ==> t in Sockets(reg)
    ensures OneEach(reg) ==> (t in Sockets(Purge(reg)) <==> JobOf(reg, t).Some?)
    ensures OneEach(reg) ==> JobOf(Purge(reg), t) == JobOf(reg, t)
    ensures OneEach(reg) ==> OneEach(Purge(reg))
    ensures Polls(Purge(reg)) == Polls(reg)
  {
    if reg != [] {
      PurgeEffect(reg[1..], t);
      PurgeEffect(reg[1..], reg[0].socket);
      NotIn(reg[1..], reg[0].socket);
    }
  }

  lemma {:induction false} NotIn(reg: seq<Entry>, t: Socket)
    ensures t !in Sockets(reg) ==> JobOf(reg, t) == None
  {
    if reg != [] {
      NotIn(reg[1..], t);
    }
  }

  /** After every history of adds, removes and service passes, whatever the jobs returned, no socket
      is registered twice. */
  lemma {:induction false} HistoryOneEach(reg: seq<Entry>, ops: seq<Operation>)
    requires OneEach(reg) && IsHistory(reg, ops)
    ensures OneEach(After(reg, ops))
    decreases |ops|
  {
    if ops != [] {
      match ops[0] {
        case Add(s, job) => PutEffect(reg, s, job, s);
        case Remove(s) => DropEffect(reg, s, s);
        case Pass(None) => PurgeEffect(reg, 0);
        case Pass(Some(outcomes)) => ServeEffect(reg, outcomes, 0); PurgeEffect(Serve(reg, outcomes), 0);
      }
      HistoryOneEach(Apply(reg, ops[0]), ops[1..]);
    }
  }

  // ---------- list nodes ----------

  /** How often a history registers a socket that is not registered. */
  function NewlyRegistered(reg: seq<Entry>, ops: seq<Operation>): nat
    requires IsHistory(reg, ops)
    decreases |ops|
  {
    if ops == [] then 0
    else (if ops[0].Add? && ops[0].socket !in Sockets(reg) then 1 else 0) + NewlyRegistered(Apply(reg, ops[0]), ops[1..])
  }

  /** A socket that is added, removed and swept n times. */
  function Churn(s: Socket, job: Job, n: nat): seq<Operation> {
    if n == 0 then [] else [Add(s, job)] + ([Remove(s)] + ([Pass(None)] + Churn(s, job, n - 1)))
  }

  lemma OneFirst(reg: seq<Entry>, op: Operation, ops: seq<Operation>)
    requires Possible(reg, op) && IsHistory(Apply(reg, op), ops)
    ensures IsHistory(reg, [op] + ops) && After(reg, [op] + ops) == After(Apply(reg, op), ops)
    ensures NewlyRegistered(reg, [op] + ops)
      == (if op.Add? && op.socket !in Sockets(reg) then 1 else 0) + NewlyRegistered(Apply(reg, op), ops)
  {
    assert ([op] + ops)[1..] == ops;
  }

  /** It is registered anew every time and in the end not at all. */
  lemma {:induction false} ChurnRegisters(s: Socket, job: Job, n: nat)
    ensures IsHistory([], Churn(s, job, n))
    ensures After([], Churn(s, job, n)) == [] && NewlyRegistered([], Churn(s, job, n)) == n
  {
    if n > 0 {
      ChurnRegisters(s, job, n - 1);
      var added: seq<Entry>, gone: seq<Entry> := [Entry(s, Some(job))], [Entry(s, None)];
      assert added[1..] == [] && gone[1..] == [];
      assert Apply([], Add(s, job)) == added && Apply(added, Remove(s)) == gone;
      assert Purge(gone) == Purge(gone[1..]) == [];
      var rest := Churn(s, job, n - 1);
      OneFirst(gone, Pass(None), rest);
      OneFirst(added, Remove(s), [Pass(None)] + rest);
      OneFirst([], Add(s, job), [Remove(s)] + ([Pass(None)] + rest));
    }
  }

  /** The position of a socket's poll entry: how many jobs are registered before it. */
  function PollIndex(reg: seq<Entry>, s: Socket): nat {
    if reg == [] || reg[0].socket == s then 0
    else (if reg[0].job.Some? then 1 else 0) + PollIndex(reg[1..], s)
  }

  /** Each poll result reaches the job of its own socket.  At one and the same position the descriptor of
      the job of s is polled, for input if the job reads and for output if it writes, that job is run with
      the result found there, and what it returned becomes the job of s. */
  lemma {:induction false} ResultReachesItsJob(reg: seq<Entry>, revents: seq<Revents>, outcomes: seq<Option<Job>>, s: Socket)
    requires |revents| == |outcomes| == |Polls(reg)| && JobOf(reg, s).Some?
    ensures var i := PollIndex(reg, s);
      && i < |Polls(reg)| == |Runs(reg, revents)|
      && var j, entry, run, r := JobOf(reg, s).value, Polls(reg)[i], Runs(reg, revents)[i], revents[i];
      && entry.descriptor == j.descriptor && (entry.wantIn <==> j.readable) && (entry.wantOut <==> j.writable)
      && run.job == j && (run.read <==> r.pollIn) && (run.write <==> r.pollOut) && (run.error <==> r.pollErr || r.pollNval)
      && JobOf(Serve(reg, outcomes), s) == outcomes[i]
  {
    RunsLength(reg, revents);
    if reg[0].socket != s {
      if reg[0].job.None? {
        ResultReachesItsJob(reg[1..], revents, outcomes, s);
      } else {
        ResultReachesItsJob(reg[1..], revents[1..], outcomes[1..], s);
      }
    }
  }

  /** After a pass a socket is registered if and only if it has a job, which is what the run of its job
      returned if it was polled and run. */
  lemma PassEffect(reg: seq<Entry>, results: Option<seq<Option<Job>>>, t: Socket)
    requires OneEach(reg) && (results.Some? ==> |results.value| == |Polls(reg)|)
    ensures var after := Apply(reg, Pass(results));
      && JobOf(after, t) == (if results.Some? && JobOf(reg, t).Some? then
                               (if PollIndex(reg, t) < |results.value| then results.value[PollIndex(reg, t)] else None)
                             else JobOf(reg, t))
      && (t in Sockets(after) <==> JobOf(after, t).Some?)
  {
    match results {
      case None => PurgeEffect(reg, t);
      case Some(outcomes) =>
        ServeEffect(reg, outcomes, t);
        PurgeEffect(Serve(reg, outcomes), t);
        if JobOf(reg, t).Some? {
          ResultReachesItsJob(reg, seq(|outcomes|, _ => Revents(false, false, false, false)), outcomes, t);
        }
    }
  }

  lemma {:induction false} RunsLength(reg: seq<Entry>, revents: seq<Revents>)
    requires |revents| == |Polls(reg)|
    ensures |Runs(reg, revents)| == |Polls(reg)|
  {
    if reg != [] {
      RunsLength(reg[1..], if reg[0].job.None? then revents else revents[1..]);
    }
  }
}
