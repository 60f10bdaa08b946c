/**
 The pool of `src/afs.c` together with the processes of its workers: each node has a
 parent and a child that run the handshake of `AfsHandshake`, and what an update meets
 is what those processes have done. Every run of the whole is a run of the pool and of
 each handshake, so what is proved of either holds of both, and what a client is told
 is what the processes did.
 */
module AfsFleet {
  import opened AfsPool
  import opened AfsProc
  import opened AfsSettle
  import H = AfsHandshake
  import opened Options
  import R = AfsPoolRuns

  /** The pool, and the two sides of each of its workers. */
  datatype Fleet = Fleet(w: R.World, hs: seq<H.Worker>)

  /** What poll reports of a worker, and whether a byte written to it gets through. */
  datatype Signal = Signal(revents: Revents, sent: bool)

  /** Which system calls of a request succeed. */
  datatype Chance = Chance(node: bool, pfds: bool, evs: bool, start: bool, sent: bool)

  datatype Action =
    | ChildMoves(i: nat, ok: bool)
    | ChildCrashes(i: nat)
    | Asks(r: Request, o: Chance)
    | AsksStop(sents: seq<bool>)
    | Updates(signals: seq<Signal>)

  // ----- Requests -----

  /** The worker that a request is about. */
  function Target(nodes: seq<Node>, r: Request): nat {
    match r
    case AskOpen(_) => Find(nodes, -1)
    case AskMkdir(_) => Find(nodes, -1)
    case AskReserve => Find(nodes, -1)
    case AskClose(fd) => Find(nodes, fd)
    case AskFsync(fd) => Find(nodes, fd)
    case AskWrite(fd, _) => Find(nodes, fd)
    case AskReadAll(fd) => Find(nodes, fd)
    case AskWriteFsyncClose(fd, _) => Find(nodes, fd)
  }

  /** What a request meets: the child's state is that of the worker it is about. */
  function LuckOf(f: Fleet, r: Request, o: Chance): Luck {
    var k := Target(f.w.c.nodes, r);
    var env := if k < |f.hs| then H.Meets(f.hs[k], Quiet, o.sent) else Env(Quiet, NoRes, false, o.sent);
    Luck(o.node, o.pfds, o.evs, o.start, env)
  }

  function Sent(hs: seq<H.Worker>, k: nat, cmd: Cmd, sent: bool): seq<H.Worker> {
    if k < |hs| then hs[k := H.ParentSends(hs[k], cmd, sent)] else hs
  }

  function Removed(hs: seq<H.Worker>, k: nat): seq<H.Worker> {
    if k < |hs| then hs[..k] + hs[k + 1..] else hs
  }

  /** The processes after an allocation: as they were, one started, or one node fewer. */
  function Hired(c: Pool, hs: seq<H.Worker>, o: Luck): seq<H.Worker>
    requires |hs| == |c.nodes|
  {
    var k := Find(c.nodes, -1);
    if k == |hs| then if Add(c, o).1 && o.start then hs + [H.Spawn(true)] else hs
    else if c.nodes[k].p.st != Uninit then hs
    else if o.start then hs[k := H.Spawn(true)]
    else Removed(hs, k)
  }

  function AskedNew(c: Pool, hs: seq<H.Worker>, cmd: Cmd, fits: bool, o: Luck): seq<H.Worker>
    requires |hs| == |c.nodes|
  {
    var a := Allocate(c, o);
    if a.at.None? || !fits || !a.wasInit then Hired(c, hs, o)
    else Sent(Hired(c, hs, o), a.at.value, cmd, o.env.sent)
  }

  function AskedOn(c: Pool, hs: seq<H.Worker>, fd: int, cmd: Cmd, fits: bool, o: Luck): seq<H.Worker>
    requires |hs| == |c.nodes|
  {
    var k := Find(c.nodes, fd);
    if fd == -1 || k == |hs| || !c.nodes[k].isAvail || !fits then hs else Sent(hs, k, cmd, o.env.sent)
  }

  function AskedWhole(c: Pool, hs: seq<H.Worker>, fd: int, fits: bool, o: Luck): seq<H.Worker>
    requires |hs| == |c.nodes|
  {
    var k := Find(c.nodes, fd);
    if fd == -1 || k == |hs| || c.nodes[k].p.st != Avail || !fits then hs else Sent(hs, k, WriteFsyncClose, o.env.sent)
  }

  function Asked(c: Pool, hs: seq<H.Worker>, r: Request, o: Luck): seq<H.Worker>
    requires |hs| == |c.nodes|
  {
    match r
    case AskOpen(fits) => AskedNew(c, hs, Open, fits, o)
    case AskMkdir(fits) => AskedNew(c, hs, Mkdir, fits, o)
    case AskReserve => Hired(c, hs, o)
    case AskClose(fd) => AskedOn(c, hs, fd, Close, true, o)
    case AskFsync(fd) => AskedOn(c, hs, fd, Fsync, true, o)
    case AskWrite(fd, fits) => AskedOn(c, hs, fd, Write, fits, o)
    case AskReadAll(fd) => AskedOn(c, hs, fd, ReadAll, true, o)
    case AskWriteFsyncClose(fd, fits) => AskedWhole(c, hs, fd, fits, o)
  }

  // ----- Stops and updates -----

  function StopEnvs(hs: seq<H.Worker>, sents: seq<bool>): (envs: seq<Env>)
    requires |hs| == |sents|
    ensures |envs| == |hs|
  {
    if hs == [] then [] else [H.Meets(hs[0], Quiet, sents[0])] + StopEnvs(hs[1..], sents[1..])
  }

  function StopHs(hs: seq<H.Worker>, sents: seq<bool>): seq<H.Worker>
    requires |hs| == |sents|
  {
    if hs == [] then [] else [H.ParentStops(hs[0], sents[0])] + StopHs(hs[1..], sents[1..])
  }

  function Envs(hs: seq<H.Worker>, signals: seq<Signal>): (envs: seq<Env>)
    requires |hs| == |signals|
    ensures |envs| == |hs|
  {
    if hs == [] then []
    else [H.Meets(hs[0], signals[0].revents, signals[0].sent)] + Envs(hs[1..], signals[1..])
  }

  predicate CanPollAll(hs: seq<H.Worker>, signals: seq<Signal>) {
    |hs| == |signals| && forall i | 0 <= i < |hs| :: H.CanPoll(hs[i], signals[i].revents)
  }

  /** The two sides of a worker after its turn; a worker that has started gets the command held back for it. */
  function TurnHs(h: H.Worker, deferred: Cmd, s: Signal): H.Worker
    requires H.CanPoll(h, s.revents)
  {
    var h1 := H.ParentUpdates(h, s.revents, s.sent);
    if h.p.st == InitPend && h1.p.st == Avail && deferred != NoCmd then H.ParentSends(h1, deferred, s.sent) else h1
  }

  /** The processes after the turns of the workers from `i` on; the process of an unlinked node is forgotten. */
  function SweepHs(nodes: seq<Node>, hs: seq<H.Worker>, i: nat, signals: seq<Signal>): seq<H.Worker>
    requires |nodes| == |hs| == i + |signals| && CanPollAll(hs[i..], signals)
    decreases |signals|
  {
    if signals == [] then hs
    else
      var n, h, s := nodes[i], hs[i], signals[0];
      assert h == hs[i..][0];
      var t, h' := TurnOf(n, H.Meets(h, s.revents, s.sent)), TurnHs(h, n.deferred, s);
      var nodes1, hs1 := nodes[i := t.n], hs[i := h'];
      assert nodes1[i].fd == t.n.fd;
      var k := Find(nodes1, t.n.fd);
      CanPollRest(hs, i, h', k, signals);
      if t.del then SweepHs(Without(nodes1, k), Removed(hs1, k), i, signals[1..])
      else SweepHs(nodes1, hs1, i + 1, signals[1..])
  }

  // ----- Nodes and processes go together -----

  /** A node and its processes: the same worker, in a state that the handshake reaches, holding back nothing but what it can send. */
  predicate Fit(n: Node, h: H.Worker) {
    n.p == h.p && H.Inv(h) && (n.deferred == NoCmd || Deferrable(n.deferred))
  }

  predicate Linked(nodes: seq<Node>, hs: seq<H.Worker>) {
    |nodes| == |hs| && forall i | 0 <= i < |nodes| :: Fit(nodes[i], hs[i])
  }

  lemma LinkedSet(nodes: seq<Node>, hs: seq<H.Worker>, k: nat, n: Node, h: H.Worker)
    requires Linked(nodes, hs) && k < |nodes| && Fit(n, h)
    ensures Linked(nodes[k := n], hs[k := h])
  {
    hide Fit;
  }

  lemma LinkedWithout(nodes: seq<Node>, hs: seq<H.Worker>, k: nat)
    requires Linked(nodes, hs) && k < |nodes|
    ensures Linked(Without(nodes, k), Removed(hs, k))
  {
    hide Fit;
    var ns, gs := Without(nodes, k), Removed(hs, k);
    forall i | 0 <= i < |ns|
      ensures Fit(ns[i], gs[i])
    {
      var j := if i < k then i else i + 1;
      assert ns[i] == nodes[j] && gs[i] == hs[j];
    }
  }

  lemma LinkedAppend(nodes: seq<Node>, hs: seq<H.Worker>, n: Node, h: H.Worker)
    requires Linked(nodes, hs) && Fit(n, h)
    ensures Linked(nodes + [n], hs + [h])
  {
    hide Fit;
  }

  lemma FitAt(nodes: seq<Node>, hs: seq<H.Worker>, k: nat)
    requires Linked(nodes, hs) && k < |nodes|
    ensures Fit(nodes[k], hs[k])
  {
  }

  lemma FitSpawned(fd: int, deferred: Cmd, isAvail: bool)
    requires deferred == NoCmd || Deferrable(deferred)
    ensures Fit(Node(fd, Started(), deferred, isAvail), H.Spawn(true))
  {
    H.RunKeeps(true, []);
  }

  lemma FitSent(n: Node, h: H.Worker, cmd: Cmd, sent: bool)
    requires Fit(n, h) && cmd != NoCmd
    ensures Fit(n.(p := Send(n.p, cmd, H.Meets(h, Quiet, sent)).p), H.ParentSends(h, cmd, sent))
  {
    H.SendKeeps(h, cmd, sent);
    hide H.Inv;
  }

  /** A descriptor that no node has had so far belongs to the last one. */
  lemma DeleteLast(nodes: seq<Node>, n: Node)
    requires forall m <- nodes :: m.fd != n.fd
    ensures Delete(nodes + [n], n.fd) == nodes
  {
    var all := nodes + [n];
    assert all[|nodes|].fd == n.fd;
    assert Find(all, n.fd) == |nodes|;
  }

  lemma HiredNew(c: Pool, hs: seq<H.Worker>, o: Luck)
    requires Linked(c.nodes, hs) && Find(c.nodes, -1) == |c.nodes|
    ensures Linked(Allocate(c, o).c.nodes, Hired(c, hs, o))
  {
    var fd := if c.nodes == [] then 0 else NextFd(c.nodes);
    var n := Node(fd, Started(), NoCmd, false);
    assert Add(c, o).1 ==> Add(c, o).0.nodes == c.nodes + [n];
    DeleteLast(c.nodes, n);
    FitSpawned(fd, NoCmd, false);
    LinkedAppend(c.nodes, hs, n, H.Spawn(true));
    hide Fit, Linked, Add, Delete, H.Spawn;
  }

  lemma HiredOld(c: Pool, hs: seq<H.Worker>, o: Luck)
    requires Linked(c.nodes, hs) && Find(c.nodes, -1) < |c.nodes|
    ensures Linked(Allocate(c, o).c.nodes, Hired(c, hs, o))
  {
    var k := Find(c.nodes, -1);
    var n := c.nodes[k];
    FitAt(c.nodes, hs, k);
    LinkedWithout(c.nodes, hs, k);
    FitSpawned(NextFd(c.nodes), n.deferred, n.isAvail);
    var p := if n.p.st == Uninit then Started() else n.p;
    var n' := n.(fd := NextFd(c.nodes), p := p);
    var h' := if n.p.st == Uninit then H.Spawn(true) else hs[k];
    LinkedSet(c.nodes, hs, k, n', h');
    assert hs[k := hs[k]] == hs;
    hide Linked, H.Inv, H.Spawn, NextFd, Find;
  }

  lemma HiredLinked(c: Pool, hs: seq<H.Worker>, o: Luck)
    requires Linked(c.nodes, hs)
    ensures Linked(Allocate(c, o).c.nodes, Hired(c, hs, o))
  {
    hide Linked, Allocate, Hired;
    if Find(c.nodes, -1) < |c.nodes| {
      HiredOld(c, hs, o);
    } else {
      HiredNew(c, hs, o);
    }
  }

  lemma SentLinked(c: Pool, hs: seq<H.Worker>, k: nat, cmd: Cmd, sent: bool)
    requires Linked(c.nodes, hs) && k < |hs| && cmd != NoCmd
    ensures Linked(SendAt(c, k, cmd, H.Meets(hs[k], Quiet, sent)).c.nodes, Sent(hs, k, cmd, sent))
  {
    FitAt(c.nodes, hs, k);
    FitSent(c.nodes[k], hs[k], cmd, sent);
    hide Fit, Send, H.ParentSends;
    LinkedSet(c.nodes, hs, k, SendAt(c, k, cmd, H.Meets(hs[k], Quiet, sent)).c.nodes[k], H.ParentSends(hs[k], cmd, sent));
  }

  lemma DeferredLinked(c: Pool, hs: seq<H.Worker>, k: nat, cmd: Cmd)
    requires Linked(c.nodes, hs) && k < |hs| && Deferrable(cmd)
    ensures Linked(DeferAt(c, k, cmd).c.nodes, hs)
  {
    FitAt(c.nodes, hs, k);
    LinkedSet(c.nodes, hs, k, DeferAt(c, k, cmd).c.nodes[k], hs[k]);
    assert hs[k := hs[k]] == hs;
    hide H.Inv;
  }

  /** A worker that was running when it was handed out is the first free one. */
  lemma RunningIsFirst(c: Pool, hs: seq<H.Worker>, o: Luck)
    requires |hs| == |c.nodes|
    ensures
      var a := Allocate(c, o);
      a.at.Some? && a.wasInit ==> a.at.value == Find(c.nodes, -1) < |hs| && Hired(c, hs, o) == hs
  {
  }

  lemma NewLinked(c: Pool, hs: seq<H.Worker>, cmd: Cmd, fits: bool, o: Luck, sent: bool)
    requires Linked(c.nodes, hs) && Deferrable(cmd) && o.env.sent == sent
    requires Find(c.nodes, -1) < |hs| ==> o.env == H.Meets(hs[Find(c.nodes, -1)], Quiet, sent)
    ensures Linked(AskNew(c, cmd, fits, o).c.nodes, AskedNew(c, hs, cmd, fits, o))
  {
    HiredLinked(c, hs, o);
    RunningIsFirst(c, hs, o);
    hide Allocate, Hired, Find, Fit, SendAt, DeferAt;
    var a := Allocate(c, o);
    if a.at.Some? && fits {
      if a.wasInit {
        SentLinked(a.c, Hired(c, hs, o), a.at.value, cmd, sent);
      } else {
        DeferredLinked(a.c, Hired(c, hs, o), a.at.value, cmd);
      }
    }
  }

  lemma OnLinked(c: Pool, hs: seq<H.Worker>, fd: int, cmd: Cmd, fits: bool, o: Luck, sent: bool)
    requires Linked(c.nodes, hs) && cmd != NoCmd && o.env.sent == sent
    requires Find(c.nodes, fd) < |hs| ==> o.env == H.Meets(hs[Find(c.nodes, fd)], Quiet, sent)
    ensures Linked(AskOn(c, fd, cmd, fits, o).c.nodes, AskedOn(c, hs, fd, cmd, fits, o))
  {
    hide Find, SendAt;
    var k := Find(c.nodes, fd);
    if k < |hs| {
      SentLinked(c, hs, k, cmd, sent);
    }
    hide Linked, H.Meets, Sent;
  }

  lemma WholeLinked(c: Pool, hs: seq<H.Worker>, fd: int, fits: bool, o: Luck, sent: bool)
    requires Linked(c.nodes, hs) && o.env.sent == sent
    requires Find(c.nodes, fd) < |hs| ==> o.env == H.Meets(hs[Find(c.nodes, fd)], Quiet, sent)
    ensures Linked(WriteWhole(c, fd, fits, o).c.nodes, AskedWhole(c, hs, fd, fits, o))
  {
    hide Find, SendAt, DeferAt;
    var k := Find(c.nodes, fd);
    if k < |hs| {
      SentLinked(c, hs, k, WriteFsyncClose, sent);
      DeferredLinked(c, hs, k, WriteFsyncClose);
    }
    hide Linked, H.Meets, Sent;
  }

  lemma AskLinked(f: Fleet, r: Request, o: Chance)
    requires Linked(f.w.c.nodes, f.hs)
    ensures
      var luck := LuckOf(f, r, o);
      Linked(Ask(f.w.c, r, luck).c.nodes, Asked(f.w.c, f.hs, r, luck))
  {
    var c, luck := f.w.c, LuckOf(f, r, o);
    hide AskNew, AskOn, WriteWhole, AskedNew, AskedOn, AskedWhole, Hired, Allocate, Find;
    match r {
      case AskOpen(fits) => NewLinked(c, f.hs, Open, fits, luck, o.sent);
      case AskMkdir(fits) => NewLinked(c, f.hs, Mkdir, fits, luck, o.sent);
      case AskReserve => HiredLinked(c, f.hs, luck);
      case AskClose(fd) => OnLinked(c, f.hs, fd, Close, true, luck, o.sent);
      case AskFsync(fd) => OnLinked(c, f.hs, fd, Fsync, true, luck, o.sent);
      case AskWrite(fd, fits) => OnLinked(c, f.hs, fd, Write, fits, luck, o.sent);
      case AskReadAll(fd) => OnLinked(c, f.hs, fd, ReadAll, true, luck, o.sent);
      case AskWriteFsyncClose(fd, fits) => WholeLinked(c, f.hs, fd, fits, luck, o.sent);
    }
  }

  lemma FitStopped(n: Node, h: H.Worker, sent: bool)
    requires Fit(n, h)
    ensures Fit(n.(p := StopPrep(n.p, H.Meets(h, Quiet, sent)).p), H.ParentStops(h, sent))
  {
    H.StopKeeps(h, sent);
    hide H.Inv;
  }

  lemma {:induction false} StopLinked(nodes: seq<Node>, hs: seq<H.Worker>, sents: seq<bool>)
    requires Linked(nodes, hs) && |sents| == |hs|
    ensures Linked(StopAll(nodes, StopEnvs(hs, sents)), StopHs(hs, sents))
    decreases |nodes|
  {
    hide Fit, StopPrep, H.ParentStops;
    if nodes != [] {
      StopLinked(nodes[1..], hs[1..], sents[1..]);
      FitStopped(nodes[0], hs[0], sents[0]);
      assert StopEnvs(hs, sents)[1..] == StopEnvs(hs[1..], sents[1..]);
    }
  }

  lemma TurnProc(n: Node, h: H.Worker, s: Signal)
    requires n.p == h.p && (n.deferred == NoCmd || Deferrable(n.deferred)) && R.NodeInv(n) && H.CanPoll(h, s.revents)
    ensures
      var t := TurnOf(n, H.Meets(h, s.revents, s.sent));
      t.n.p == TurnHs(h, n.deferred, s).p && (t.n.deferred == n.deferred || t.n.deferred == NoCmd)
  {
    var e := H.Meets(h, s.revents, s.sent);
    R.TurnWithout(n, e);
    R.TurnWithOne(n, e);
    R.TurnWithTwo(n, e);
    hide TurnOf, HandleAll;
  }

  lemma TurnInv(h: H.Worker, deferred: Cmd, s: Signal)
    requires H.Inv(h) && H.CanPoll(h, s.revents)
    ensures H.Inv(TurnHs(h, deferred, s))
  {
    H.UpdateKeeps(h, s.revents, s.sent);
    var h1 := H.ParentUpdates(h, s.revents, s.sent);
    hide H.Inv, H.ParentUpdates, H.ParentSends;
    if deferred != NoCmd {
      H.SendKeeps(h1, deferred, s.sent);
    }
  }

  /** A worker's turn, for its node and for its processes. */
  lemma FitTurn(n: Node, h: H.Worker, s: Signal)
    requires Fit(n, h) && R.NodeInv(n) && H.CanPoll(h, s.revents)
    ensures Fit(TurnOf(n, H.Meets(h, s.revents, s.sent)).n, TurnHs(h, n.deferred, s))
  {
    TurnProc(n, h, s);
    TurnInv(h, n.deferred, s);
    hide TurnOf, TurnHs, H.Inv, R.NodeInv;
  }

  lemma {:induction false} EnvsAt(hs: seq<H.Worker>, signals: seq<Signal>, i: nat)
    requires |hs| == |signals| && i < |hs|
    ensures Envs(hs, signals)[i] == H.Meets(hs[i], signals[i].revents, signals[i].sent)
    decreases |hs|
  {
    hide H.Meets;
    if i > 0 {
      EnvsAt(hs[1..], signals[1..], i - 1);
    }
  }

  /** After a turn the processes behind it are as they were, one place up if a node was unlinked. */
  lemma RestStaysHs(hs: seq<H.Worker>, i: nat, h: H.Worker, k: nat)
    requires k <= i < |hs|
    ensures hs[i := h][i + 1..] == hs[i + 1..] && Removed(hs[i := h], k)[i..] == hs[i + 1..]
  {
  }

  lemma CanPollRest(hs: seq<H.Worker>, i: nat, h: H.Worker, k: nat, signals: seq<Signal>)
    requires k <= i < |hs| && signals != [] && i + |signals| == |hs| && CanPollAll(hs[i..], signals)
    ensures CanPollAll(hs[i := h][i + 1..], signals[1..]) && CanPollAll(Removed(hs[i := h], k)[i..], signals[1..])
  {
    hide H.CanPoll;
    RestStaysHs(hs, i, h, k);
    forall j | 0 <= j < |signals| - 1
      ensures H.CanPoll(hs[i + 1..][j], signals[1..][j].revents)
    {
      assert hs[i + 1..][j] == hs[i..][j + 1] && signals[1..][j] == signals[j + 1];
    }
  }

  /** The turns of all workers keep nodes and processes together. */
  lemma {:induction false} SweepLinked(nodes: seq<Node>, hs: seq<H.Worker>, i: nat, signals: seq<Signal>)
    requires Linked(nodes, hs) && R.NodesInv(nodes) && |nodes| == i + |signals| && CanPollAll(hs[i..], signals)
    ensures Linked(SweepFrom(nodes, i, Envs(hs[i..], signals)).nodes, SweepHs(nodes, hs, i, signals))
    decreases |signals|
  {
    if signals != [] {
      hide Linked, R.NodesInv, TurnOf, TurnHs, H.Meets, H.CanPoll, Find, CanPollAll;
      var n, h, s := nodes[i], hs[i], signals[0];
      var envs := Envs(hs[i..], signals);
      assert hs[i..][0] == h && hs[i..][1..] == hs[i + 1..];
      assert envs[0] == H.Meets(h, s.revents, s.sent) && envs[1..] == Envs(hs[i + 1..], signals[1..]);
      var t, h' := TurnOf(n, envs[0]), TurnHs(h, n.deferred, s);
      var nodes1, hs1 := nodes[i := t.n], hs[i := h'];
      R.EachInv(nodes, i);
      FitAt(nodes, hs, i);
      FitTurn(n, h, s);
      LinkedSet(nodes, hs, i, t.n, h');
      R.TurnKeeps(n, envs[0]);
      R.ReplaceKeeps(nodes, i, t.n);
      assert nodes1[i].fd == t.n.fd;
      var k := Find(nodes1, t.n.fd);
      RestStaysHs(hs, i, h', k);
      CanPollRest(hs, i, h', k, signals);
      if t.del {
        R.DeleteKeeps(nodes1, i);
        LinkedWithout(nodes1, hs1, k);
        SweepLinked(Without(nodes1, k), Removed(hs1, k), i, signals[1..]);
      } else {
        SweepLinked(nodes1, hs1, i + 1, signals[1..]);
      }
    }
  }

  // ----- Runs -----

  predicate Enabled(f: Fleet, a: Action) {
    match a
    case ChildMoves(i, _) => i < |f.hs|
    case ChildCrashes(i) => i < |f.hs|
    case Asks(_, _) => |f.hs| == |f.w.c.nodes|
    case AsksStop(sents) => |sents| == |f.hs| == |f.w.c.nodes| && !f.w.c.stopReq
    case Updates(signals) => CanPollAll(f.hs, signals) && |f.hs| == |f.w.c.nodes|
  }

  /** The step of the pool that an action is, if it is one. */
  function StepOf(f: Fleet, a: Action): Option<R.Step>
    requires Enabled(f, a)
  {
    match a
    case ChildMoves(_, _) => None
    case ChildCrashes(_) => None
    case Asks(r, o) => Some(R.Asks(r, LuckOf(f, r, o)))
    case AsksStop(sents) => Some(R.AsksStop(StopEnvs(f.hs, sents)))
    case Updates(signals) => Some(R.Updates(Envs(f.hs, signals)))
  }

  function NextHs(f: Fleet, a: Action): seq<H.Worker>
    requires Enabled(f, a)
  {
    match a
    case ChildMoves(i, ok) => f.hs[i := H.ChildStep(f.hs[i], ok)]
    case ChildCrashes(i) => f.hs[i := f.hs[i].(child := H.Gone)]
    case Asks(r, o) => Asked(f.w.c, f.hs, r, LuckOf(f, r, o))
    case AsksStop(sents) => StopHs(f.hs, sents)
    case Updates(signals) =>
      assert f.hs[0..] == f.hs;
      SweepHs(f.w.c.nodes, f.hs, 0, signals)
  }

  /** What an action does; one that cannot happen now changes nothing. */
  function Do(f: Fleet, a: Action): Fleet {
    if !Enabled(f, a) then f
    else
      var step := StepOf(f, a);
      Fleet(if step == None then f.w else R.Take(f.w, step.value), NextHs(f, a))
  }

  function Run(actions: seq<Action>): Fleet {
    if actions == [] then Fleet(R.Run([]), [])
    else Do(Run(actions[..|actions| - 1]), actions[|actions| - 1])
  }

  /** The steps of the pool in a run. */
  function Trace(actions: seq<Action>): seq<R.Step> {
    if actions == [] then []
    else
      var before, a := actions[..|actions| - 1], actions[|actions| - 1];
      var f := Run(before);
      Trace(before) + if !Enabled(f, a) || StepOf(f, a) == None then [] else [StepOf(f, a).value]
  }

  predicate FleetInv(f: Fleet) {
    R.Inv(f.w.c) && R.Balanced(f.w) && Linked(f.w.c.nodes, f.hs)
  }

  lemma ChildLinked(f: Fleet, i: nat, ok: bool)
    requires Linked(f.w.c.nodes, f.hs) && i < |f.hs|
    ensures Linked(f.w.c.nodes, f.hs[i := H.ChildStep(f.hs[i], ok)]) && Linked(f.w.c.nodes, f.hs[i := f.hs[i].(child := H.Gone)])
  {
    var nodes := f.w.c.nodes;
    FitAt(nodes, f.hs, i);
    H.ChildKeeps(f.hs[i], ok);
    H.CrashKeeps(f.hs[i]);
    hide Linked, H.Inv, H.ChildStep;
    LinkedSet(nodes, f.hs, i, nodes[i], H.ChildStep(f.hs[i], ok));
    LinkedSet(nodes, f.hs, i, nodes[i], f.hs[i].(child := H.Gone));
    assert nodes[i := nodes[i]] == nodes;
  }

  lemma UpdateLinked(f: Fleet, signals: seq<Signal>)
    requires R.Inv(f.w.c) && Linked(f.w.c.nodes, f.hs) && CanPollAll(f.hs, signals)
    ensures Linked(Do(f, Updates(signals)).w.c.nodes, Do(f, Updates(signals)).hs)
  {
    assert |f.w.c.nodes| == |f.hs| == |signals| && f.hs[0..] == f.hs;
    hide Linked, R.NodesInv, CanPollAll;
    SweepLinked(f.w.c.nodes, f.hs, 0, signals);
    hide SweepFrom, SweepHs;
  }

  lemma DoLinked(f: Fleet, a: Action)
    requires FleetInv(f) && Enabled(f, a)
    ensures Linked(Do(f, a).w.c.nodes, Do(f, a).hs)
  {
    match a {
      case ChildMoves(i, ok) => ChildLinked(f, i, ok);
      case ChildCrashes(i) => ChildLinked(f, i, true);
      case Asks(r, o) => AskLinked(f, r, o);
      case AsksStop(sents) => StopLinked(f.w.c.nodes, f.hs, sents);
      case Updates(signals) => UpdateLinked(f, signals);
    }
    hide Linked, R.Inv, R.Balanced, Ask, Asked, SweepHs, SweepFrom, StopHs, StopAll, Envs, StopEnvs;
  }

  lemma DoKeeps(f: Fleet, a: Action)
    requires FleetInv(f)
    ensures FleetInv(Do(f, a))
  {
    hide Linked, R.Inv, R.Balanced, R.Take, NextHs;
    if Enabled(f, a) {
      DoLinked(f, a);
      if StepOf(f, a).Some? {
        R.TakeKeeps(f.w, StepOf(f, a).value);
      }
    }
  }

  lemma SnocPool(steps: seq<R.Step>, s: R.Step)
    ensures R.Run(steps + [s]) == R.Take(R.Run(steps), s)
  {
    hide R.Take;
    assert (steps + [s])[..|steps|] == steps;
  }

  /**
   Whatever the processes do and whenever they crash: the pool's part of a run is a run
   of the pool, each node's worker is the parent of its handshake, and nothing is held
   back for a worker but what it can send.
   */
  lemma {:induction false} FleetIsPool(actions: seq<Action>)
    ensures Run(actions).w == R.Run(Trace(actions)) && FleetInv(Run(actions))
    decreases |actions|
  {
    if actions == [] {
      R.RunKeeps([]);
    } else {
      var before, a := actions[..|actions| - 1], actions[|actions| - 1];
      FleetIsPool(before);
      var f := Run(before);
      DoKeeps(f, a);
      hide FleetInv, NextHs, R.Run, R.Take;
      var steps := Trace(before);
      if !Enabled(f, a) || StepOf(f, a) == None {
        assert steps + [] == steps;
      } else {
        SnocPool(steps, StepOf(f, a).value);
      }
    }
  }

  // ----- What is told is what happened -----

  /**
   What a worker has to tell, in terms of what its child did: the outcome in the child's
   last report; a failure if the child is gone; a failure of what was held back if the
   worker could not be started or not be reached.
   */
  function Happened(n: Node, h: H.Worker, s: Signal): seq<Note> {
    if h.p.st == Busy && IsFile(h.p.cmd) then
      match s.revents
      case Quiet => []
      case HungUp => [Note(n.fd, Failed(h.p.cmd))]
      case Readable =>
        if |h.ran| != |h.told| + 1 then []
        else
          var last := h.ran[|h.told|];
          [Note(n.fd, if last.ok then Done(last.cmd) else Failed(last.cmd))]
    else if h.p.st == InitPend && n.deferred != NoCmd &&
            (h.p.stopReq || s.revents == HungUp || (s.revents == Readable && !s.sent)) then
      [Note(n.fd, Failed(n.deferred))]
    else []
  }

  function AllHappened(nodes: seq<Node>, hs: seq<H.Worker>, signals: seq<Signal>): seq<Note>
    requires |nodes| == |hs| == |signals|
  {
    if nodes == [] then []
    else Happened(nodes[0], hs[0], signals[0]) + AllHappened(nodes[1..], hs[1..], signals[1..])
  }

  lemma VerdictHappened(n: Node, h: H.Worker, s: Signal)
    requires Fit(n, h) && R.NodeInv(n) && H.CanPoll(h, s.revents)
    ensures Verdict(n, H.Meets(h, s.revents, s.sent)) == Happened(n, h, s)
  {
    if (h.p.st == InitPend || h.p.st == Busy) && s.revents == Readable {
      assert H.Underway(h);
      H.ReplyTaken(h);
      hide H.HistoryInv, H.ChildInv;
    }
    hide H.Inv;
  }

  lemma {:induction false} VerdictsHappened(nodes: seq<Node>, hs: seq<H.Worker>, signals: seq<Signal>)
    requires Linked(nodes, hs) && CanPollAll(hs, signals) && forall n <- nodes :: R.NodeInv(n)
    ensures Verdicts(nodes, Envs(hs, signals)) == AllHappened(nodes, hs, signals)
    decreases |nodes|
  {
    hide Fit, R.NodeInv, Verdict, Happened, H.Meets, H.CanPoll;
    if nodes != [] {
      VerdictHappened(nodes[0], hs[0], signals[0]);
      VerdictsHappened(nodes[1..], hs[1..], signals[1..]);
      assert Envs(hs, signals)[1..] == Envs(hs[1..], signals[1..]);
    }
  }

  /**
   Over every run of the pool and all its processes: an update tells exactly what the
   children did, each worker's outcome under its own descriptor and in the order of the
   list, and then the end of a stop.
   */
  lemma ToldAsHappened(actions: seq<Action>, signals: seq<Signal>)
    ensures
      var f := Run(actions);
      var c := f.w.c;
      && |f.hs| == |c.nodes|
      && (CanPollAll(f.hs, signals) ==>
            var (c', notes) := Refresh(c, Envs(f.hs, signals));
            notes == AllHappened(c.nodes, f.hs, signals) +
                     if c.stopReq && AllStopped(c'.nodes) then [Note(-1, Stopped)] else [])
  {
    FleetIsPool(actions);
    hide Run;
    var f := Run(actions);
    if CanPollAll(f.hs, signals) {
      NotesExactly(Trace(actions), Envs(f.hs, signals));
      VerdictsHappened(f.w.c.nodes, f.hs, signals);
    }
    hide Refresh, Verdicts, AllHappened, Envs, R.Run;
  }

  /** A worker of a running pool takes a command exactly if it is available and its byte gets through: its child is idle then. */
  lemma TakesCommand(actions: seq<Action>, i: nat, cmd: Cmd, sent: bool)
    ensures
      var f := Run(actions);
      i < |f.hs| == |f.w.c.nodes| ==>
        (Send(f.w.c.nodes[i].p, cmd, H.Meets(f.hs[i], Quiet, sent)).ok <==> f.w.c.nodes[i].p.st == Avail && sent)
  {
    FleetIsPool(actions);
    hide Run;
    var f := Run(actions);
    if i < |f.hs| == |f.w.c.nodes| {
      FitAt(f.w.c.nodes, f.hs, i);
    }
  }
}
