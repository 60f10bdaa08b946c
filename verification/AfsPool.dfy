/**
 The pool of workers of `src/afs.c`: descriptors, client requests and updates.
 A step takes what the outside world decides (poll results, shared memory, the
 fate of system calls) as a parameter, so every property below holds for every
 behaviour of the worker processes.
 */
module AfsPool {
  import opened AfsProc
  import opened Options

  /** A worker in the list: its descriptor (-1 if free), its process and the command to send once it has started. */
  datatype Node = Node(fd: int, p: Proc, deferred: Cmd, isAvail: bool)

  datatype Pool = Pool(nodes: seq<Node>, stopReq: bool, pfdsMax: nat, evsMax: nat)

  const INIT := Pool([], false, 0, 0)

  /** An event as a client sees it. */
  datatype Note = Note(fd: int, ev: Event)

  // ----- The list -----

  /** The position of the first node with this descriptor, or the length of the list. */
  function Find(nodes: seq<Node>, fd: int): (k: nat)
    ensures k <= |nodes|
    ensures k < |nodes| ==> nodes[k].fd == fd
    ensures forall j | 0 <= j < k :: nodes[j].fd != fd
  {
    if nodes == [] || nodes[0].fd == fd then 0 else 1 + Find(nodes[1..], fd)
  }

  /** One more than the largest descriptor in use. */
  function NextFd(nodes: seq<Node>): (r: nat)
    ensures forall n <- nodes :: n.fd < r
  {
    if nodes == [] then 0
    else
      var r := NextFd(nodes[..|nodes| - 1]);
      var fd := nodes[|nodes| - 1].fd;
      if fd >= r then fd + 1 else r
  }

  function Without(nodes: seq<Node>, k: nat): seq<Node>
    requires k < |nodes|
  {
    nodes[..k] + nodes[k + 1..]
  }

  function Delete(nodes: seq<Node>, fd: int): seq<Node> {
    var k := Find(nodes, fd);
    if k < |nodes| then Without(nodes, k) else nodes
  }

  // ----- Allocation -----

  /** Which system calls succeed, and what a send meets. */
  datatype Luck = Luck(node: bool, pfds: bool, evs: bool, start: bool, env: Env)

  const PREALLOC := 2

  /** The arrays grow with the list; growing one of them may fail. */
  function GrowPfds(c: Pool, n: nat, ok: bool): Option<Pool> {
    if c.pfdsMax >= n then Some(c) else if ok then Some(c.(pfdsMax := n + PREALLOC)) else None
  }

  function GrowEvs(c: Pool, n: nat, ok: bool): Option<Pool> {
    if c.evsMax >= n * MAX_EVENTS then Some(c)
    else if ok then Some(c.(evsMax := (n + PREALLOC) * MAX_EVENTS))
    else None
  }

  /** A new node at the end of the list. */
  function Add(c: Pool, o: Luck): (r: (Pool, bool))
    ensures |r.0.nodes| == |c.nodes| + if r.1 then 1 else 0
  {
    if !o.node then (c, false)
    else
      var n := |c.nodes| + 1;
      var x := GrowPfds(c, n, o.pfds);
      if x.None? then (c, false)
      else
        var y := GrowEvs(x.value, n, o.evs);
        if y.None? then (x.value, false)
        else
          var fd := if c.nodes == [] then 0 else NextFd(c.nodes);
          (y.value.(nodes := c.nodes + [Node(fd, Started(), NoCmd, false)]), true)
  }

  /** A worker for a client: where it is in the list and whether it has been running before. */
  datatype Alloc = Alloc(c: Pool, at: Option<nat>, wasInit: bool)

  function Allocate(c: Pool, o: Luck): (a: Alloc)
    ensures a.at.Some? ==> a.at.value < |a.c.nodes|
  {
    var k := Find(c.nodes, -1);
    if k < |c.nodes| then
      var n := c.nodes[k];
      if n.p.st == Uninit && !o.start then Alloc(c.(nodes := Delete(c.nodes, -1)), None, false)
      else
        var n' := n.(fd := NextFd(c.nodes), p := if n.p.st == Uninit then Started() else n.p);
        Alloc(c.(nodes := c.nodes[k := n']), Some(k), n.p.st != Uninit)
    else
      var (c1, ok) := Add(c, o);
      if !ok then Alloc(c1, None, false)
      else if !o.start then Alloc(c1.(nodes := Delete(c1.nodes, c1.nodes[|c.nodes|].fd)), None, false)
      else Alloc(c1, Some(|c.nodes|), false)
  }

  // ----- Requests -----

  datatype Request =
    | AskOpen(fits: bool)
    | AskMkdir(fits: bool)
    | AskReserve
    | AskClose(fd: int)
    | AskFsync(fd: int)
    | AskWrite(fd: int, fits: bool)
    | AskReadAll(fd: int)
    | AskWriteFsyncClose(fd: int, fits: bool)

  /** Whether a request was accepted, and the descriptor it concerns. */
  datatype Answer = Answer(c: Pool, ok: bool, fd: int)

  /** Send a command to the worker at `k`. */
  function SendAt(c: Pool, k: nat, cmd: Cmd, e: Env): Answer
    requires k < |c.nodes|
  {
    var n := c.nodes[k];
    var x := Send(n.p, cmd, e);
    Answer(c.(nodes := c.nodes[k := n.(p := x.p)]), x.ok, n.fd)
  }

  /** Keep a command until the worker at `k` has started. */
  function DeferAt(c: Pool, k: nat, cmd: Cmd): Answer
    requires k < |c.nodes|
  {
    var n := c.nodes[k];
    Answer(c.(nodes := c.nodes[k := n.(deferred := cmd, isAvail := false)]), true, n.fd)
  }

  /** `afs_open` and `afs_mkdir`: a worker of its own for the command. */
  function AskNew(c: Pool, cmd: Cmd, fits: bool, o: Luck): Answer {
    var a := Allocate(c, o);
    if a.at.None? then Answer(a.c, false, -1)
    else if !fits then Answer(a.c, false, -1)
    else if a.wasInit then SendAt(a.c, a.at.value, cmd, o.env)
    else DeferAt(a.c, a.at.value, cmd)
  }

  function Reserve(c: Pool, o: Luck): Answer {
    var a := Allocate(c, o);
    if a.at.None? then Answer(a.c, false, -1)
    else Answer(a.c, true, a.c.nodes[a.at.value].fd)
  }

  /** The commands on an open descriptor. */
  function AskOn(c: Pool, fd: int, cmd: Cmd, fits: bool, o: Luck): Answer {
    var k := Find(c.nodes, fd);
    if fd == -1 || k == |c.nodes| || !c.nodes[k].isAvail || !fits then Answer(c, false, fd)
    else SendAt(c, k, cmd, o.env)
  }

  function WriteWhole(c: Pool, fd: int, fits: bool, o: Luck): Answer {
    var k := Find(c.nodes, fd);
    if fd == -1 || k == |c.nodes| || c.nodes[k].p.st == Uninit || !fits then Answer(c, false, fd)
    else match c.nodes[k].p.st
      case Avail => SendAt(c, k, WriteFsyncClose, o.env)
      case InitPend => DeferAt(c, k, WriteFsyncClose)
      case _ => Answer(c, false, fd)
  }

  function Ask(c: Pool, r: Request, o: Luck): Answer {
    match r
    case AskOpen(fits) => AskNew(c, Open, fits, o)
    case AskMkdir(fits) => AskNew(c, Mkdir, fits, o)
    case AskReserve => Reserve(c, o)
    case AskClose(fd) => AskOn(c, fd, Close, true, o)
    case AskFsync(fd) => AskOn(c, fd, Fsync, true, o)
    case AskWrite(fd, fits) => AskOn(c, fd, Write, fits, o)
    case AskReadAll(fd) => AskOn(c, fd, ReadAll, true, o)
    case AskWriteFsyncClose(fd, fits) => WriteWhole(c, fd, fits, o)
  }

  /** The command a request stands for. */
  function Wanted(r: Request): Option<Cmd> {
    match r
    case AskOpen(_) => Some(Open)
    case AskMkdir(_) => Some(Mkdir)
    case AskReserve => None
    case AskClose(_) => Some(Close)
    case AskFsync(_) => Some(Fsync)
    case AskWrite(_, _) => Some(Write)
    case AskReadAll(_) => Some(ReadAll)
    case AskWriteFsyncClose(_, _) => Some(WriteFsyncClose)
  }

  /** A stop request to every worker; `envs` says what each of them meets. */
  function StopAll(nodes: seq<Node>, envs: seq<Env>): seq<Node>
    requires |nodes| == |envs|
  {
    if nodes == [] then []
    else [nodes[0].(p := StopPrep(nodes[0].p, envs[0]).p)] + StopAll(nodes[1..], envs[1..])
  }

  // ----- Updates -----

  /** A node while its events are handled: what the client is told, and whether the node must go. */
  datatype Turn = Turn(n: Node, notes: seq<Note>, del: bool)

  /** What the pool does with one event of a worker. */
  function Handle(t: Turn, ev: Event, e: Env): Turn {
    var n := t.n;
    match ev
    case InitDone =>
      var n1 := n.(isAvail := true, deferred := NoCmd);
      if n.deferred == NoCmd then t.(n := n1)
      else if n.deferred == Open || n.deferred == Mkdir || n.deferred == WriteFsyncClose then
        var x := Send(n.p, n.deferred, e);
        t.(n := n1.(p := x.p), notes := t.notes + if x.ok then [] else [Note(n.fd, Failed(n.deferred))])
      else t.(n := n1, notes := t.notes + [Note(n.fd, FailEvent(n.deferred))])
    case InitFailed =>
      Turn(n.(deferred := NoCmd),
           t.notes + (if n.deferred == NoCmd then [] else [Note(n.fd, FailEvent(n.deferred))]),
           true)
    case Stopped => t.(n := n.(fd := -1, isAvail := false))
    case StopFailed => t.(n := n.(fd := -1, isAvail := false))
    case Done(cmd) => t.(n := n.(fd := if Frees(cmd) then -1 else n.fd), notes := t.notes + [Note(n.fd, ev)])
    case Failed(cmd) => t.(n := n.(fd := if Frees(cmd) then -1 else n.fd), notes := t.notes + [Note(n.fd, ev)])
  }

  /** Commands after which the descriptor is free again, whether they succeed or not. */
  predicate Frees(c: Cmd) {
    c == Close || c == Mkdir || c == WriteFsyncClose
  }

  function HandleAll(t: Turn, evs: seq<Event>, e: Env): Turn
    decreases |evs|
  {
    if evs == [] then t else HandleAll(Handle(t, evs[0], e), evs[1..], e)
  }

  function TurnOf(n: Node, e: Env): Turn {
    var x := Update(n.p, e);
    var t := HandleAll(Turn(n.(p := x.p), [], false), x.evs, e);
    t.(del := t.del || !x.ok)
  }

  /** The rest of an update, from the node at `i` on: the list and the notes. */
  datatype Sweep = Sweep(nodes: seq<Node>, notes: seq<Note>)

  function SweepFrom(nodes: seq<Node>, i: nat, envs: seq<Env>): Sweep
    requires i + |envs| == |nodes|
    decreases |envs|
  {
    if envs == [] then Sweep(nodes, [])
    else
      var t := TurnOf(nodes[i], envs[0]);
      var nodes1 := nodes[i := t.n];
      var x :=
        if t.del then
          var nodes2 := Delete(nodes1, t.n.fd);
          assert nodes1[i].fd == t.n.fd;
          SweepFrom(nodes2, i, envs[1..])
        else SweepFrom(nodes1, i + 1, envs[1..]);
      Sweep(x.nodes, t.notes + x.notes)
  }

  predicate AllStopped(nodes: seq<Node>) {
    forall n <- nodes :: n.p.st == Uninit
  }

  /** An update of the pool; `envs` says what each worker meets. */
  function Refresh(c: Pool, envs: seq<Env>): (Pool, seq<Note>)
    requires |envs| == |c.nodes|
  {
    var x := SweepFrom(c.nodes, 0, envs);
    (c.(nodes := x.nodes), x.notes + if c.stopReq && AllStopped(x.nodes) then [Note(-1, Stopped)] else [])
  }
}
