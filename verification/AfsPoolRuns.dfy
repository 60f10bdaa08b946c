/**
 Whole runs of the pool of `src/afs.c`: descriptors stay unique, no request and
 no outcome is lost or made up, and the event and poll arrays never run out.
 */
module AfsPoolRuns {
  import opened AfsPool
  import opened AfsProc

  // ----- What is owed to the client -----

  /** A command and the descriptor it was asked for. */
  type Job = (int, Cmd)

  function InFlight(n: Node): multiset<Job> {
    if n.p.st == Busy && IsFile(n.p.cmd) then multiset{(n.fd, n.p.cmd)} else multiset{}
  }

  function Deferred(n: Node): multiset<Job> {
    if n.deferred != NoCmd then multiset{(n.fd, n.deferred)} else multiset{}
  }

  /** The command a worker still owes an outcome for, in flight or deferred. */
  function Owed(n: Node): multiset<Job> {
    InFlight(n) + Deferred(n)
  }

  function OwedAll(nodes: seq<Node>): multiset<Job> {
    if nodes == [] then multiset{} else Owed(nodes[0]) + OwedAll(nodes[1..])
  }

  /** The commands whose outcome these notes tell. */
  function Told(notes: seq<Note>): multiset<Job> {
    if notes == [] then multiset{} else ToldBy(notes[0]) + Told(notes[1..])
  }

  function ToldBy(n: Note): multiset<Job> {
    match n.ev
    case Done(c) => multiset{(n.fd, c)}
    case Failed(c) => multiset{(n.fd, c)}
    case _ => multiset{}
  }

  lemma {:induction false} OwedConcat(a: seq<Node>, b: seq<Node>)
    ensures OwedAll(a + b) == OwedAll(a) + OwedAll(b)
  {
    if a == [] {
      assert a + b == b;
    } else {
      assert (a + b)[1..] == a[1..] + b;
      OwedConcat(a[1..], b);
    }
  }

  lemma OwedOne(n: Node)
    ensures OwedAll([n]) == Owed(n)
  {
    assert [n][1..] == [];
  }

  /** Replacing one node replaces what it owes. */
  lemma OwedUpdate(nodes: seq<Node>, k: nat, n: Node)
    requires k < |nodes|
    ensures OwedAll(nodes[k := n]) + Owed(nodes[k]) == OwedAll(nodes) + Owed(n)
  {
    hide OwedAll, Owed;
    var a, b := nodes[..k], nodes[k + 1..];
    assert nodes == a + [nodes[k]] + b && nodes[k := n] == a + [n] + b;
    OwedConcat(a + [nodes[k]], b);
    OwedConcat(a, [nodes[k]]);
    OwedConcat(a + [n], b);
    OwedConcat(a, [n]);
    OwedOne(n);
    OwedOne(nodes[k]);
  }

  lemma OwedWithout(nodes: seq<Node>, k: nat)
    requires k < |nodes|
    ensures OwedAll(nodes) == OwedAll(Without(nodes, k)) + Owed(nodes[k])
  {
    hide OwedAll, Owed;
    var a, b := nodes[..k], nodes[k + 1..];
    assert nodes == a + [nodes[k]] + b;
    OwedConcat(a + [nodes[k]], b);
    OwedConcat(a, [nodes[k]]);
    OwedConcat(a, b);
    OwedOne(nodes[k]);
  }

  lemma {:induction false} ToldConcat(a: seq<Note>, b: seq<Note>)
    ensures Told(a + b) == Told(a) + Told(b)
  {
    if a == [] {
      assert a + b == b;
    } else {
      assert (a + b)[1..] == a[1..] + b;
      ToldConcat(a[1..], b);
    }
  }

  lemma Regroup(a: seq<Note>, b: seq<Note>, c: seq<Note>)
    ensures a + (b + c) == a + b + c
  {
  }

  // ----- Invariants -----

  /** Only a starting worker has a command deferred, and a free worker owes nothing. */
  predicate NodeInv(n: Node) {
    && n.fd >= -1
    && (n.p.st == Busy ==> n.p.cmd != NoCmd)
    && (n.deferred != NoCmd ==> n.p.st == InitPend && IsFile(n.deferred))
    && (n.fd == -1 ==> n.p.st != InitPend && !(n.p.st == Busy && IsFile(n.p.cmd)))
  }

  /** No descriptor is used twice. */
  predicate Distinct(nodes: seq<Node>) {
    forall i, j | 0 <= i < j < |nodes| && nodes[i].fd >= 0 :: nodes[i].fd != nodes[j].fd
  }

  predicate NodesInv(nodes: seq<Node>) {
    Distinct(nodes) && forall n <- nodes :: NodeInv(n)
  }

  predicate Inv(c: Pool) {
    NodesInv(c.nodes) && |c.nodes| <= c.pfdsMax && |c.nodes| * MAX_EVENTS <= c.evsMax
  }

  // ----- Updates -----

  /** What a turn must keep: what was owed is told or still owed, and a worker that must go owes nothing. */
  predicate TurnGood(n: Node, t: Turn) {
    && NodeInv(t.n) && (t.n.fd == n.fd || t.n.fd == -1)
    && Owed(n) == Owed(t.n) + Told(t.notes)
    && (t.del ==> Owed(t.n) == multiset{})
    && |t.notes| <= 1
  }

  lemma TurnWithout(n: Node, e: Env)
    ensures
      var x := Update(n.p, e);
      x.evs == [] ==> TurnOf(n, e) == Turn(n.(p := x.p), [], !x.ok)
  {
    hide Update;
  }

  lemma TurnWithOne(n: Node, e: Env)
    ensures
      var x := Update(n.p, e);
      |x.evs| == 1 ==>
        var t := Handle(Turn(n.(p := x.p), [], false), x.evs[0], e);
        TurnOf(n, e) == t.(del := t.del || !x.ok)
  {
    hide Update, Handle;
    var x := Update(n.p, e);
    if |x.evs| == 1 {
      var t0 := Turn(n.(p := x.p), [], false);
      assert HandleAll(t0, x.evs, e) == HandleAll(Handle(t0, x.evs[0], e), x.evs[1..], e);
      assert x.evs[1..] == [];
    }
  }

  lemma TurnWithTwo(n: Node, e: Env)
    ensures
      var x := Update(n.p, e);
      |x.evs| == 2 ==>
        var t := Handle(Handle(Turn(n.(p := x.p), [], false), x.evs[0], e), x.evs[1], e);
        TurnOf(n, e) == t.(del := t.del || !x.ok)
  {
    hide Update, Handle;
    var x := Update(n.p, e);
    if |x.evs| == 2 {
      var t0 := Turn(n.(p := x.p), [], false);
      var t1 := Handle(t0, x.evs[0], e);
      assert HandleAll(t0, x.evs, e) == HandleAll(t1, x.evs[1..], e);
      assert HandleAll(t1, x.evs[1..], e) == HandleAll(Handle(t1, x.evs[1], e), x.evs[2..], e);
    }
  }

  lemma ToldOne(n: Note)
    ensures Told([] + [n]) == ToldBy(n)
  {
    assert [] + [n] == [n] && [n][1..] == [];
  }

  /** The outcome of a file command is told, and whatever the worker does next is no file command. */
  lemma OutcomeTold(n: Node, p: Proc, ev: Event, del: bool, e: Env)
    requires NodeInv(n) && n.p.st == Busy && IsFile(n.p.cmd) && (ev == Done(n.p.cmd) || ev == Failed(n.p.cmd))
    requires p.st == Uninit || p.st == Dead || p.st == Avail || (p.st == Busy && p.cmd == Exit)
    ensures
      var t := Handle(Turn(n.(p := p), [], false), ev, e);
      TurnGood(n, t.(del := t.del || del))
  {
    ToldOne(Note(n.fd, ev));
    hide Told;
  }

  lemma BusyUpdate(p: Proc, e: Env)
    requires p.st == Busy && p.cmd != NoCmd
    ensures
      var x := Update(p, e);
      && |x.evs| <= 1
      && (x.evs == [] ==> x.p == p && x.ok)
      && (IsFile(p.cmd) && x.evs != [] ==>
            && (x.evs[0] == Done(p.cmd) || x.evs[0] == Failed(p.cmd))
            && (x.p.st == Uninit || x.p.st == Dead || x.p.st == Avail || (x.p.st == Busy && x.p.cmd == Exit)))
      && (p.cmd == Exit && x.evs != [] ==>
            && (x.evs[0] == InitDone || x.evs[0] == StopFailed)
            && (x.p.st == Uninit || x.p.st == Dead || x.p.st == Avail || (x.p.st == Busy && x.p.cmd == Exit))
            && (x.ok ==> x.p.st == Avail || x.p.st == Busy))
  {
  }

  lemma TurnBusy(n: Node, e: Env)
    requires NodeInv(n) && n.p.st == Busy
    ensures TurnGood(n, TurnOf(n, e)) && |Update(n.p, e).evs| <= 1
  {
    TurnWithout(n, e);
    TurnWithOne(n, e);
    BusyUpdate(n.p, e);
    hide TurnOf, HandleAll, Update;
    var x := Update(n.p, e);
    if x.evs != [] && IsFile(n.p.cmd) {
      OutcomeTold(n, x.p, x.evs[0], !x.ok, e);
      hide TurnGood, Handle;
    }
  }

  /** The command held back for a starting worker goes out or is told to have failed. */
  lemma DeferredSent(n: Node, e: Env)
    requires NodeInv(n) && n.p.st == InitPend
    ensures TurnGood(n, Handle(Turn(n.(p := n.p.(st := Avail)), [], false), InitDone, e))
  {
    ToldOne(Note(n.fd, Failed(n.deferred)));
    ToldNone();
    hide Told;
  }

  lemma DeferredFails(n: Node, p: Proc, e: Env)
    requires NodeInv(n) && n.p.st == InitPend && p.st == Uninit
    ensures
      var t := Handle(Turn(n.(p := p), [], false), InitFailed, e);
      t.del && Handle(t, Stopped, e).del && TurnGood(n, t) && TurnGood(n, Handle(t, Stopped, e))
  {
    ToldOne(Note(n.fd, Failed(n.deferred)));
    ToldNone();
    hide Told;
  }

  lemma InitPendUpdate(p: Proc, e: Env)
    requires p.st == InitPend
    ensures
      var x := Update(p, e);
      || (x.evs == [] && x.p == p && x.ok)
      || (x.evs == [InitDone] && x.p == p.(st := Avail) && x.ok)
      || (x.evs == [InitFailed] && x.p.st == Uninit && !x.ok)
      || (x.evs == [InitFailed, Stopped] && x.p.st == Uninit && !x.ok)
  {
  }

  lemma NothingHappens(n: Node)
    requires NodeInv(n)
    ensures TurnGood(n, Turn(n, [], false))
  {
    ToldNone();
  }

  lemma TurnInitPend(n: Node, e: Env)
    requires NodeInv(n) && n.p.st == InitPend
    ensures TurnGood(n, TurnOf(n, e))
  {
    InitPendUpdate(n.p, e);
    hide TurnOf, HandleAll, Update, TurnGood, NodeInv, Send;
    var x := Update(n.p, e);
    var t := Turn(n.(p := x.p), [], false);
    if x.evs == [] {
      TurnWithout(n, e);
      NothingHappens(n);
    } else if x.ok {
      TurnWithOne(n, e);
      DeferredSent(n, e);
    } else {
      TurnWithOne(n, e);
      TurnWithTwo(n, e);
      DeferredFails(n, x.p, e);
    }
  }

  /** A worker without a command has nothing to tell. */
  lemma NothingTold(n: Node, p: Proc, ev: Event, del: bool, e: Env)
    requires NodeInv(n) && n.p.st != InitPend && n.p.st != Busy && p.st == Uninit && (ev == Stopped || ev == StopFailed)
    ensures
      var t := Handle(Turn(n.(p := p), [], false), ev, e);
      TurnGood(n, t.(del := t.del || del)) && TurnGood(n, Turn(n.(p := p), [], del))
  {
    ToldNone();
    hide Told;
  }

  lemma OtherUpdate(p: Proc, e: Env)
    requires p.st != InitPend && p.st != Busy
    ensures
      var x := Update(p, e);
      || (x.evs == [] && x.p == p && x.ok)
      || (x.evs == [] && x.p.st == Uninit)
      || (x.p.st == Uninit && (x.evs == [Stopped] || x.evs == [StopFailed]))
  {
  }

  lemma TurnOther(n: Node, e: Env)
    requires NodeInv(n) && n.p.st != InitPend && n.p.st != Busy
    ensures TurnGood(n, TurnOf(n, e)) && |Update(n.p, e).evs| <= 1
  {
    OtherUpdate(n.p, e);
    hide TurnOf, HandleAll, Update, TurnGood;
    var x := Update(n.p, e);
    if x.evs == [] {
      TurnWithout(n, e);
      NothingHappens(n);
      if x.p.st == Uninit {
        NothingTold(n, x.p, Stopped, !x.ok, e);
      }
    } else {
      TurnWithOne(n, e);
      NothingTold(n, x.p, x.evs[0], !x.ok, e);
    }
    hide NodeInv, Handle;
  }

  /** One worker's turn keeps its books, and the worker's event queue never gets full. */
  lemma TurnKeeps(n: Node, e: Env)
    requires NodeInv(n)
    ensures TurnGood(n, TurnOf(n, e)) && |Update(n.p, e).evs| < MAX_EVENTS
  {
    hide TurnOf, Update, TurnGood;
    match n.p.st {
      case Busy => TurnBusy(n, e);
      case InitPend =>
        InitPendUpdate(n.p, e);
        TurnInitPend(n, e);
      case _ => TurnOther(n, e);
    }
  }

  // ----- Descriptors -----

  /** Lookup finds the one owner of a descriptor. */
  lemma UniqueOwner(nodes: seq<Node>, fd: int)
    requires Distinct(nodes) && fd >= 0
    ensures
      var k := Find(nodes, fd);
      forall j | 0 <= j < |nodes| :: nodes[j].fd == fd <==> j == k
  {
  }

  /** The nodes with other descriptors, in their order. */
  function Others(nodes: seq<Node>, fd: int): seq<Node> {
    if nodes == [] then []
    else (if nodes[0].fd == fd then [] else [nodes[0]]) + Others(nodes[1..], fd)
  }

  lemma {:induction false} OthersAll(nodes: seq<Node>, fd: int)
    requires forall n <- nodes :: n.fd != fd
    ensures Others(nodes, fd) == nodes
  {
    if nodes != [] {
      OthersAll(nodes[1..], fd);
    }
  }

  /** Deleting a descriptor removes its owner and nothing else, and keeps the order of the rest. */
  lemma {:induction false} DeleteExact(nodes: seq<Node>, fd: int)
    requires Distinct(nodes) && fd >= 0
    ensures Delete(nodes, fd) == Others(nodes, fd)
  {
    if nodes == [] {
    } else if nodes[0].fd == fd {
      assert forall n <- nodes[1..] :: n.fd != fd;
      OthersAll(nodes[1..], fd);
      assert Delete(nodes, fd) == nodes[1..];
    } else {
      DeleteExact(nodes[1..], fd);
      var k := Find(nodes[1..], fd);
      assert Find(nodes, fd) == 1 + k;
      if k < |nodes| - 1 {
        assert Without(nodes, 1 + k) == [nodes[0]] + Without(nodes[1..], k);
      } else {
        assert nodes == [nodes[0]] + nodes[1..];
      }
    }
  }

  lemma WithoutKeeps(nodes: seq<Node>, k: nat)
    requires NodesInv(nodes) && k < |nodes|
    ensures NodesInv(Without(nodes, k))
  {
    var r := Without(nodes, k);
    forall i, j | 0 <= i < j < |r| && r[i].fd >= 0
      ensures r[i].fd != r[j].fd
    {
      var i', j' := if i < k then i else i + 1, if j < k then j else j + 1;
      assert r[i] == nodes[i'] && r[j] == nodes[j'];
    }
  }

  /** A node may keep its descriptor, lose it or get the next new one. */
  lemma ReplaceKeeps(nodes: seq<Node>, k: nat, n: Node)
    requires NodesInv(nodes) && k < |nodes| && NodeInv(n)
    requires n.fd == nodes[k].fd || n.fd == -1 || n.fd == NextFd(nodes)
    ensures NodesInv(nodes[k := n])
  {
    var r := nodes[k := n];
    forall i, j | 0 <= i < j < |r| && r[i].fd >= 0
      ensures r[i].fd != r[j].fd
    {
      assert nodes[i] in nodes && nodes[j] in nodes;
    }
  }

  lemma AppendKeeps(nodes: seq<Node>, n: Node)
    requires NodesInv(nodes) && NodeInv(n) && n.fd == NextFd(nodes)
    ensures NodesInv(nodes + [n])
  {
    var r := nodes + [n];
    forall i, j | 0 <= i < j < |r| && r[i].fd >= 0
      ensures r[i].fd != r[j].fd
    {
      assert nodes[i] in nodes;
    }
  }

  // ----- A whole update -----

  /** Deleting the first node with the descriptor of one that must go never loses a command. */
  lemma DeleteKeeps(nodes: seq<Node>, i: nat)
    requires NodesInv(nodes) && i < |nodes| && Owed(nodes[i]) == multiset{}
    ensures
      var r := Delete(nodes, nodes[i].fd);
      NodesInv(r) && OwedAll(r) == OwedAll(nodes) && |r| == |nodes| - 1
  {
    hide OwedAll;
    var k := Find(nodes, nodes[i].fd);
    assert k <= i;
    assert NodeInv(nodes[k]);
    if nodes[i].fd >= 0 {
      UniqueOwner(nodes, nodes[i].fd);
    }
    OwedWithout(nodes, k);
    WithoutKeeps(nodes, k);
  }

  lemma {:induction false} SweepKeeps(nodes: seq<Node>, i: nat, envs: seq<Env>)
    requires NodesInv(nodes) && i + |envs| == |nodes|
    ensures
      var x := SweepFrom(nodes, i, envs);
      && NodesInv(x.nodes) && |x.nodes| <= |nodes|
      && OwedAll(nodes) == OwedAll(x.nodes) + Told(x.notes)
      && |x.notes| <= |envs|
    decreases |envs|
  {
    hide TurnOf, OwedAll, Told, NodesInv;
    if envs == [] {
      assert Told([]) == multiset{} by { ToldNone(); }
    } else {
      var t := TurnOf(nodes[i], envs[0]);
      assert NodeInv(nodes[i]) by { EachInv(nodes, i); }
      TurnKeeps(nodes[i], envs[0]);
      ReplaceKeeps(nodes, i, t.n);
      OwedUpdate(nodes, i, t.n);
      var nodes1 := nodes[i := t.n];
      Books(OwedAll(nodes), OwedAll(nodes1), Owed(nodes[i]), Owed(t.n), Told(t.notes));
      hide Owed;
      if t.del {
        DeleteKeeps(nodes1, i);
        SweepKeeps(Delete(nodes1, t.n.fd), i, envs[1..]);
        ToldConcat(t.notes, SweepFrom(Delete(nodes1, t.n.fd), i, envs[1..]).notes);
      } else {
        SweepKeeps(nodes1, i + 1, envs[1..]);
        ToldConcat(t.notes, SweepFrom(nodes1, i + 1, envs[1..]).notes);
      }
    }
  }

  lemma Books(all: multiset<Job>, all': multiset<Job>, one: multiset<Job>, one': multiset<Job>, told: multiset<Job>)
    requires all' + one == all + one' && one == one' + told
    ensures all == all' + told
  {
    forall j: Job
      ensures all[j] == (all' + told)[j]
    {
      assert (all' + one)[j] == (all + one')[j] && one[j] == one'[j] + told[j];
    }
  }

  lemma ToldNone()
    ensures Told([]) == multiset{}
  {
  }

  lemma EachInv(nodes: seq<Node>, k: nat)
    requires NodesInv(nodes) && k < |nodes|
    ensures NodeInv(nodes[k])
  {
    assert nodes[k] in nodes;
  }

  // ----- Requests -----

  /** The jobs a request adds: its own, if it was accepted. */
  function Accepted(r: Request, a: Answer): multiset<Job> {
    if a.ok && Wanted(r).Some? then multiset{(a.fd, Wanted(r).value)} else multiset{}
  }

  /** The command that a request throws away: one that its worker still waits to be started for. */
  function Overwritten(c: Pool, r: Request): multiset<Job> {
    if !r.AskWriteFsyncClose? || r.fd == -1 || !r.fits then multiset{}
    else
      var k := Find(c.nodes, r.fd);
      if k < |c.nodes| && c.nodes[k].p.st == InitPend && c.nodes[k].deferred != NoCmd
      then multiset{(r.fd, c.nodes[k].deferred)} else multiset{}
  }

  /** A command that is sent is owed from then on. */
  lemma SendOwes(n: Node, cmd: Cmd, e: Env)
    requires NodeInv(n) && n.fd >= 0 && IsFile(cmd)
    ensures
      var x := Send(n.p, cmd, e);
      var n' := n.(p := x.p);
      NodeInv(n') && Owed(n') == Owed(n) + if x.ok then multiset{(n.fd, cmd)} else multiset{}
  {
    var x := Send(n.p, cmd, e);
    var n' := n.(p := x.p);
    assert InFlight(n') == InFlight(n) + (if x.ok then multiset{(n.fd, cmd)} else multiset{}) && Deferred(n') == Deferred(n);
    hide InFlight, Deferred;
  }

  /** Sending moves nothing but what the worker owes. */
  lemma SendAtKeeps(c: Pool, k: nat, cmd: Cmd, e: Env)
    requires Inv(c) && k < |c.nodes| && c.nodes[k].fd >= 0 && IsFile(cmd)
    ensures
      var a := SendAt(c, k, cmd, e);
      && Inv(a.c) && a.fd == c.nodes[k].fd
      && OwedAll(a.c.nodes) == OwedAll(c.nodes) + JobIf(a, cmd)
  {
    hide OwedAll, NodesInv, Owed, Send;
    EachInv(c.nodes, k);
    var n := c.nodes[k];
    var n' := n.(p := Send(n.p, cmd, e).p);
    SendOwes(n, cmd, e);
    ReplaceKeeps(c.nodes, k, n');
    OwedUpdate(c.nodes, k, n');
    var a := SendAt(c, k, cmd, e);
    Books(OwedAll(a.c.nodes), OwedAll(c.nodes), Owed(n'), Owed(n), JobIf(a, cmd));
  }

  lemma DeferAtKeeps(c: Pool, k: nat, cmd: Cmd)
    requires Inv(c) && k < |c.nodes| && c.nodes[k].p.st == InitPend && IsFile(cmd)
    ensures
      var a, n := DeferAt(c, k, cmd), c.nodes[k];
      && Inv(a.c) && a.ok && a.fd == n.fd
      && OwedAll(a.c.nodes) + (if n.deferred == NoCmd then multiset{} else multiset{(n.fd, n.deferred)})
         == OwedAll(c.nodes) + multiset{(a.fd, cmd)}
  {
    EachInv(c.nodes, k);
    var n := c.nodes[k];
    var n' := n.(deferred := cmd, isAvail := false);
    ReplaceKeeps(c.nodes, k, n');
    assert Owed(n) == if n.deferred == NoCmd then multiset{} else multiset{(n.fd, n.deferred)};
    assert Owed(n') == multiset{(n.fd, cmd)};
    hide OwedAll, NodesInv, Owed;
    OwedUpdate(c.nodes, k, n');
  }

  /** A worker handed out owes nothing and has a descriptor. */
  lemma AllocateKeeps(c: Pool, o: Luck)
    requires Inv(c)
    ensures
      var a := Allocate(c, o);
      && Inv(a.c) && OwedAll(a.c.nodes) == OwedAll(c.nodes)
      && (a.at.Some? ==>
            var n := a.c.nodes[a.at.value];
            n.fd >= 0 && n.deferred == NoCmd && (!a.wasInit ==> n.p.st == InitPend))
  {
    hide OwedAll, NodesInv;
    var k := Find(c.nodes, -1);
    if k < |c.nodes| {
      EachInv(c.nodes, k);
      var n := c.nodes[k];
      if n.p.st == Uninit && !o.start {
        DeleteKeeps(c.nodes, k);
      } else {
        var n' := n.(fd := NextFd(c.nodes), p := if n.p.st == Uninit then Started() else n.p);
        ReplaceKeeps(c.nodes, k, n');
        assert Owed(n) == Owed(n') == multiset{};
        hide Owed;
        OwedUpdate(c.nodes, k, n');
        Books(OwedAll(c.nodes), OwedAll(c.nodes[k := n']), Owed(n), Owed(n'), multiset{});
      }
    } else {
      AddKeeps(c, o);
      var (c1, ok) := Add(c, o);
      if ok && !o.start {
        DeleteKeeps(c1.nodes, |c.nodes|);
      }
    }
  }

  lemma AddKeeps(c: Pool, o: Luck)
    requires Inv(c)
    ensures
      var (c1, ok) := Add(c, o);
      && Inv(c1) && OwedAll(c1.nodes) == OwedAll(c.nodes)
      && (ok ==> |c1.nodes| == |c.nodes| + 1 && c1.nodes[|c.nodes|] == Node(NextFd(c.nodes), Started(), NoCmd, false))
  {
    hide OwedAll, NodesInv;
    var n := Node(NextFd(c.nodes), Started(), NoCmd, false);
    AppendKeeps(c.nodes, n);
    OwedConcat(c.nodes, [n]);
    OwedOne(n);
    assert Owed(n) == multiset{};
  }

  function JobIf(a: Answer, cmd: Cmd): multiset<Job> {
    if a.ok then multiset{(a.fd, cmd)} else multiset{}
  }

  /** Apart from a whole-file write, no request overwrites anything. */
  lemma NothingOverwritten(c: Pool, r: Request, x: multiset<Job>)
    requires !r.AskWriteFsyncClose?
    ensures x + Overwritten(c, r) == x
  {
  }

  lemma AcceptedIs(r: Request, a: Answer, x: multiset<Job>)
    ensures Wanted(r).Some? ==> Accepted(r, a) == JobIf(a, Wanted(r).value)
    ensures Wanted(r).None? ==> x + Accepted(r, a) == x
  {
  }

  /** A request keeps the books: it adds its own job if it is accepted, and drops what it overwrites. */
  lemma AskKeeps(c: Pool, r: Request, o: Luck)
    requires Inv(c)
    ensures
      var a := Ask(c, r, o);
      && Inv(a.c)
      && OwedAll(a.c.nodes) + Overwritten(c, r) == OwedAll(c.nodes) + Accepted(r, a)
  {
    hide OwedAll, Allocate, Inv, AskNew, AskOn, WriteWhole, Overwritten, Accepted, JobIf;
    var a := Ask(c, r, o);
    AcceptedIs(r, a, OwedAll(c.nodes));
    if r.AskWriteFsyncClose? {
      WriteWholeKeeps(c, r.fd, r.fits, o);
    } else {
      NothingOverwritten(c, r, OwedAll(a.c.nodes));
      match r {
        case AskOpen(fits) => AskNewKeeps(c, Open, fits, o);
        case AskMkdir(fits) => AskNewKeeps(c, Mkdir, fits, o);
        case AskReserve => AllocateKeeps(c, o);
        case AskClose(fd) => AskOnKeeps(c, fd, Close, true, o);
        case AskFsync(fd) => AskOnKeeps(c, fd, Fsync, true, o);
        case AskWrite(fd, fits) => AskOnKeeps(c, fd, Write, fits, o);
        case AskReadAll(fd) => AskOnKeeps(c, fd, ReadAll, true, o);
      }
    }
  }

  lemma AskNewKeeps(c: Pool, cmd: Cmd, fits: bool, o: Luck)
    requires Inv(c) && IsFile(cmd)
    ensures
      var a := AskNew(c, cmd, fits, o);
      Inv(a.c) && OwedAll(a.c.nodes) == OwedAll(c.nodes) + JobIf(a, cmd)
  {
    hide OwedAll, Allocate, Inv;
    AllocateKeeps(c, o);
    var a := Allocate(c, o);
    if a.at.Some? && fits {
      if a.wasInit {
        SendAtKeeps(a.c, a.at.value, cmd, o.env);
      } else {
        DeferAtKeeps(a.c, a.at.value, cmd);
      }
    }
  }

  lemma AskOnKeeps(c: Pool, fd: int, cmd: Cmd, fits: bool, o: Luck)
    requires Inv(c) && IsFile(cmd)
    ensures
      var a := AskOn(c, fd, cmd, fits, o);
      Inv(a.c) && OwedAll(a.c.nodes) == OwedAll(c.nodes) + JobIf(a, cmd)
  {
    hide OwedAll, SendAt, NodesInv;
    var k := Find(c.nodes, fd);
    if fd != -1 && k < |c.nodes| {
      EachInv(c.nodes, k);
      SendAtKeeps(c, k, cmd, o.env);
    }
  }

  lemma WriteWholeKeeps(c: Pool, fd: int, fits: bool, o: Luck)
    requires Inv(c)
    ensures
      var a := WriteWhole(c, fd, fits, o);
      && Inv(a.c)
      && OwedAll(a.c.nodes) + Overwritten(c, AskWriteFsyncClose(fd, fits)) == OwedAll(c.nodes) + JobIf(a, WriteFsyncClose)
  {
    hide OwedAll, SendAt, DeferAt, NodesInv;
    var a := WriteWhole(c, fd, fits, o);
    assert OwedAll(a.c.nodes) + multiset{} == OwedAll(a.c.nodes) && OwedAll(c.nodes) + multiset{} == OwedAll(c.nodes);
    var k := Find(c.nodes, fd);
    if fd != -1 && k < |c.nodes| {
      EachInv(c.nodes, k);
      SendAtKeeps(c, k, WriteFsyncClose, o.env);
      if c.nodes[k].p.st == InitPend {
        DeferAtKeeps(c, k, WriteFsyncClose);
      }
    }
  }

  lemma StopKeeps(n: Node, e: Env)
    requires NodeInv(n)
    ensures
      var n' := n.(p := StopPrep(n.p, e).p);
      NodeInv(n') && Owed(n') == Owed(n)
  {
    var n' := n.(p := StopPrep(n.p, e).p);
    assert InFlight(n') == InFlight(n) && Deferred(n') == Deferred(n);
    hide InFlight, Deferred;
  }

  lemma {:induction false} StopAllKeeps(nodes: seq<Node>, envs: seq<Env>)
    requires |nodes| == |envs| && forall n <- nodes :: NodeInv(n)
    ensures
      var r := StopAll(nodes, envs);
      && |r| == |nodes| && OwedAll(r) == OwedAll(nodes)
      && (forall i | 0 <= i < |r| :: r[i].fd == nodes[i].fd && NodeInv(r[i]))
  {
    if nodes != [] {
      hide Owed, NodeInv, StopPrep;
      StopAllKeeps(nodes[1..], envs[1..]);
      StopKeeps(nodes[0], envs[0]);
      var r := StopAll(nodes, envs);
      assert r[1..] == StopAll(nodes[1..], envs[1..]);
    }
  }

  // ----- Runs -----

  /** The pool, and what the client has had accepted, been told and lost so far. */
  datatype World = World(c: Pool, accepted: multiset<Job>, told: multiset<Job>, lost: multiset<Job>)

  datatype Step =
    | Asks(r: Request, o: Luck)
    | AsksStop(envs: seq<Env>)
    | Updates(envs: seq<Env>)

  /** One step; the lists of what the workers meet must be as long as the list of workers. */
  function Take(w: World, s: Step): World {
    match s
    case Asks(r, o) =>
      var a := Ask(w.c, r, o);
      World(a.c, w.accepted + Accepted(r, a), w.told, w.lost + Overwritten(w.c, r))
    case AsksStop(envs) =>
      if w.c.stopReq || |envs| != |w.c.nodes| then w
      else w.(c := w.c.(nodes := StopAll(w.c.nodes, envs), stopReq := true))
    case Updates(envs) =>
      if |envs| != |w.c.nodes| then w
      else
        var (c, notes) := Refresh(w.c, envs);
        w.(c := c, told := w.told + Told(notes))
  }

  function Run(steps: seq<Step>): World {
    if steps == [] then World(INIT, multiset{}, multiset{}, multiset{})
    else Take(Run(steps[..|steps| - 1]), steps[|steps| - 1])
  }

  predicate Balanced(w: World) {
    w.accepted == w.told + OwedAll(w.c.nodes) + w.lost
  }

  lemma AskTaken(w: World, r: Request, o: Luck)
    requires Inv(w.c) && Balanced(w)
    ensures Inv(Take(w, Asks(r, o)).c) && Balanced(Take(w, Asks(r, o)))
  {
    AskKeeps(w.c, r, o);
    hide Ask, OwedAll, Overwritten, Accepted, Inv;
    var a := Ask(w.c, r, o);
    Rebalance(w.accepted, w.told, OwedAll(w.c.nodes), w.lost, OwedAll(a.c.nodes), Overwritten(w.c, r), Accepted(r, a));
  }

  lemma Rebalance(accepted: multiset<Job>, told: multiset<Job>, owed: multiset<Job>, lost: multiset<Job>,
                  owed': multiset<Job>, more: multiset<Job>, job: multiset<Job>)
    requires accepted == told + owed + lost && owed' + more == owed + job
    ensures accepted + job == told + owed' + (lost + more)
  {
    forall j: Job
      ensures (accepted + job)[j] == (told + owed' + (lost + more))[j]
    {
      assert (owed' + more)[j] == (owed + job)[j] && accepted[j] == told[j] + owed[j] + lost[j];
    }
  }

  lemma StopTaken(w: World, envs: seq<Env>)
    requires Inv(w.c) && Balanced(w) && |envs| == |w.c.nodes|
    ensures
      var nodes := StopAll(w.c.nodes, envs);
      NodesInv(nodes) && |nodes| == |w.c.nodes| && OwedAll(nodes) == OwedAll(w.c.nodes)
  {
    StopAllKeeps(w.c.nodes, envs);
    hide StopAll, OwedAll, NodeInv;
  }

  lemma UpdateTaken(w: World, envs: seq<Env>)
    requires Inv(w.c) && Balanced(w) && |envs| == |w.c.nodes|
    ensures
      var x := SweepFrom(w.c.nodes, 0, envs);
      && Take(w, Updates(envs)) == w.(c := w.c.(nodes := x.nodes), told := w.told + Told(x.notes))
      && NodesInv(x.nodes) && |x.nodes| <= |w.c.nodes|
      && w.accepted == w.told + Told(x.notes) + OwedAll(x.nodes) + w.lost
  {
    hide SweepFrom, OwedAll, Told, NodesInv;
    var x := SweepFrom(w.c.nodes, 0, envs);
    SweepKeeps(w.c.nodes, 0, envs);
    assert w.accepted == w.told + Told(x.notes) + OwedAll(x.nodes) + w.lost by {
      Retell(w.accepted, w.told, OwedAll(w.c.nodes), w.lost, OwedAll(x.nodes), Told(x.notes));
    }
    RefreshTells(w.c, envs);
  }

  lemma Retell(accepted: multiset<Job>, told: multiset<Job>, owed: multiset<Job>, lost: multiset<Job>,
               owed': multiset<Job>, more: multiset<Job>)
    requires accepted == told + owed + lost && owed == owed' + more
    ensures accepted == told + more + owed' + lost
  {
    forall j: Job
      ensures accepted[j] == (told + more + owed' + lost)[j]
    {
    }
  }

  lemma TakeKeeps(w: World, s: Step)
    requires Inv(w.c) && Balanced(w)
    ensures Inv(Take(w, s).c) && Balanced(Take(w, s))
  {
    hide OwedAll, NodesInv, StopAll, Ask, Refresh;
    match s {
      case Asks(r, o) => AskTaken(w, r, o);
      case AsksStop(envs) =>
        if |envs| == |w.c.nodes| {
          StopTaken(w, envs);
        }
      case Updates(envs) =>
        if |envs| == |w.c.nodes| {
          UpdateTaken(w, envs);
        }
    }
  }

  lemma RefreshTells(c: Pool, envs: seq<Env>)
    requires |envs| == |c.nodes|
    ensures Told(Refresh(c, envs).1) == Told(SweepFrom(c.nodes, 0, envs).notes)
  {
    hide SweepFrom;
    var x := SweepFrom(c.nodes, 0, envs);
    ToldConcat(x.notes, [Note(-1, Stopped)]);
    ToldOne(Note(-1, Stopped));
    assert [] + [Note(-1, Stopped)] == [Note(-1, Stopped)] && x.notes + [] == x.notes;
    hide Told;
  }

  lemma {:induction false} RunKeeps(steps: seq<Step>)
    ensures Inv(Run(steps).c) && Balanced(Run(steps))
    decreases |steps|
  {
    hide Take;
    if steps != [] {
      RunKeeps(steps[..|steps| - 1]);
      TakeKeeps(Run(steps[..|steps| - 1]), steps[|steps| - 1]);
    }
  }

  /**
   Every request gets its own outcome. In every run, whatever the workers and
   the system do: each accepted command has been told as done or failed under its
   own descriptor and kind, or is still in flight or deferred on its worker, or
   was overwritten, and exactly one of these; and nothing is told that was not
   accepted. A command is overwritten exactly by a whole-file write that is
   accepted while its worker, still starting, holds another command back.
   */
  lemma OutcomesMatch(steps: seq<Step>)
    ensures
      var w := Run(steps);
      w.accepted == w.told + OwedAll(w.c.nodes) + w.lost
  {
    RunKeeps(steps);
  }

  /** Does the client have a command on `fd` whose outcome it has not been told? */
  ghost predicate Unanswered(w: World, fd: int) {
    exists c: Cmd :: (fd, c) in w.accepted - w.told
  }

  /** The client writes a whole file only through descriptors with nothing unanswered. */
  ghost predicate Polite(steps: seq<Step>) {
    steps == [] ||
    (&& Polite(steps[..|steps| - 1])
     && (steps[|steps| - 1].Asks? && steps[|steps| - 1].r.AskWriteFsyncClose? ==>
           !Unanswered(Run(steps[..|steps| - 1]), steps[|steps| - 1].r.fd)))
  }

  lemma OwedIn(nodes: seq<Node>, k: nat, j: Job)
    requires k < |nodes| && j in Owed(nodes[k])
    ensures j in OwedAll(nodes)
  {
    OwedWithout(nodes, k);
  }

  /** Only a command that the client has no answer for can be overwritten. */
  lemma OverwritesUnanswered(w: World, r: Request)
    requires Balanced(w) && Overwritten(w.c, r) != multiset{}
    ensures r.AskWriteFsyncClose? && Unanswered(w, r.fd)
  {
    var k := Find(w.c.nodes, r.fd);
    var j := (r.fd, w.c.nodes[k].deferred);
    OwedIn(w.c.nodes, k, j);
    hide OwedAll;
    assert w.accepted[j] > w.told[j];
    assert j in w.accepted - w.told;
  }

  /**
   No whole-file write that fits was asked of a worker that, still starting,
   held a command back.
   */
  predicate Careful(steps: seq<Step>) {
    steps == [] ||
    (&& Careful(steps[..|steps| - 1])
     && (steps[|steps| - 1].Asks? ==>
           Overwritten(Run(steps[..|steps| - 1]).c, steps[|steps| - 1].r) == multiset{}))
  }

  lemma {:induction false} LostExactly(steps: seq<Step>)
    ensures Run(steps).lost == multiset{} <==> Careful(steps)
    decreases |steps|
  {
    hide Ask, StopAll, Refresh, Overwritten;
    if steps != [] {
      LostExactly(steps[..|steps| - 1]);
      var w, s := Run(steps[..|steps| - 1]), steps[|steps| - 1];
      if s.Asks? {
        BothEmpty(w.lost, Overwritten(w.c, s.r));
      }
    }
  }

  lemma BothEmpty(a: multiset<Job>, b: multiset<Job>)
    ensures a + b == multiset{} <==> a == multiset{} && b == multiset{}
  {
    if a + b == multiset{} {
      forall j: Job
        ensures a[j] == 0 && b[j] == 0
      {
        assert (a + b)[j] == 0;
      }
    }
  }

  /**
   Exactly when each accepted command gets its one outcome: all commands not
   told yet are in flight or deferred if and only if no command was overwritten.
   */
  lemma EachOutcomeOnce(steps: seq<Step>)
    ensures
      var w := Run(steps);
      w.accepted == w.told + OwedAll(w.c.nodes) <==> Careful(steps)
  {
    hide Run, OwedAll, Careful;
    RunKeeps(steps);
    LostExactly(steps);
    var w := Run(steps);
    NothingMore(w.told + OwedAll(w.c.nodes), w.lost);
  }

  lemma NothingMore(a: multiset<Job>, b: multiset<Job>)
    ensures a + b == a <==> b == multiset{}
  {
    if a + b == a {
      forall j: Job
        ensures b[j] == 0
      {
        assert (a + b)[j] == a[j];
      }
    }
  }

  /** A client that waits for its answers is careful. */
  lemma {:induction false} PoliteIsCareful(steps: seq<Step>)
    requires Polite(steps)
    ensures Careful(steps)
    decreases |steps|
  {
    hide Run, Overwritten;
    if steps != [] {
      var w, s := Run(steps[..|steps| - 1]), steps[|steps| - 1];
      PoliteIsCareful(steps[..|steps| - 1]);
      RunKeeps(steps[..|steps| - 1]);
      if s.Asks? && Overwritten(w.c, s.r) != multiset{} {
        OverwritesUnanswered(w, s.r);
      }
    }
  }

  /**
   Descriptors stay unique: in every run no descriptor has two workers, lookup
   finds the one owner, and deleting a descriptor removes that worker and nothing
   else and keeps the order of the rest.
   */
  lemma DescriptorsUnique(steps: seq<Step>, fd: int)
    requires fd >= 0
    ensures
      var nodes := Run(steps).c.nodes;
      && (forall i, j | 0 <= i < |nodes| && 0 <= j < |nodes| && nodes[i].fd == fd == nodes[j].fd :: i == j)
      && (forall j | 0 <= j < |nodes| && nodes[j].fd == fd :: j == Find(nodes, fd))
      && Delete(nodes, fd) == Others(nodes, fd)
  {
    RunKeeps(steps);
    hide Run;
    UniqueOwner(Run(steps).c.nodes, fd);
    DeleteExact(Run(steps).c.nodes, fd);
  }

  /**
   Capacity: in every run an update tells at most one note per worker and one
   more for a completed stop. They fit the event array, except that the stop note
   of a pool that never had a worker finds no array at all.
   */
  lemma NotesFit(steps: seq<Step>, envs: seq<Env>)
    ensures
      var c := Run(steps).c;
      && |c.nodes| <= c.pfdsMax
      && (|envs| == |c.nodes| ==>
            var notes := Refresh(c, envs).1;
            |notes| <= |c.nodes| + 1 && (|notes| <= c.evsMax <==> !(c.stopReq && c.evsMax == 0)))
  {
    RunKeeps(steps);
    hide Run;
    var c := Run(steps).c;
    if |envs| == |c.nodes| {
      SweepKeeps(c.nodes, 0, envs);
      if c.nodes == [] {
        assert SweepFrom(c.nodes, 0, envs) == Sweep([], []);
      }
    }
    hide SweepFrom, NodesInv;
  }

  /** A stop asked of a pool that never had a worker is told at once, into no array. */
  lemma StopNoteLost()
    ensures
      var c := Run([AsksStop([])]).c;
      c.nodes == [] && Refresh(c, []).1 == [Note(-1, Stopped)] && c.evsMax == 0
  {
    assert [AsksStop([])][..0] == [];
    assert Run([AsksStop([])]) == Take(Run([]), AsksStop([]));
    var c := Run([AsksStop([])]).c;
    assert c.nodes == [] && SweepFrom(c.nodes, 0, []) == Sweep([], []);
  }

  lemma AllocateGrows(c: Pool, o: Luck)
    ensures Allocate(c, o).c.evsMax >= c.evsMax
  {
    hide Find, NextFd, Delete;
  }

  lemma AskGrows(c: Pool, r: Request, o: Luck)
    ensures Ask(c, r, o).c.evsMax >= c.evsMax
  {
    AllocateGrows(c, o);
    hide Allocate, Send, Find;
  }

  lemma RefreshSame(c: Pool, envs: seq<Env>)
    ensures |envs| == |c.nodes| ==> Refresh(c, envs).0.evsMax == c.evsMax
  {
    hide SweepFrom;
  }

  lemma TakeGrows(w: World, s: Step)
    ensures Take(w, s).c.evsMax >= w.c.evsMax
  {
    hide Ask, Refresh, StopAll, Accepted, Overwritten;
    match s {
      case Asks(r, o) => AskGrows(w.c, r, o);
      case AsksStop(_) =>
      case Updates(envs) => RefreshSame(w.c, envs);
    }
  }

  lemma RunSnoc(steps: seq<Step>, s: Step)
    ensures Run(steps + [s]) == Take(Run(steps), s)
  {
    hide Take;
    assert (steps + [s])[..|steps|] == steps;
  }

  lemma {:induction false} RunGrows(steps: seq<Step>, more: seq<Step>)
    ensures Run(steps + more).c.evsMax >= Run(steps).c.evsMax
    decreases |more|
  {
    hide Take, Run;
    if more == [] {
      assert steps + more == steps;
    } else {
      var before, s := more[..|more| - 1], more[|more| - 1];
      RunGrows(steps, before);
      RunSnoc(steps + before, s);
      assert steps + before + [s] == steps + more;
      TakeGrows(Run(steps + before), s);
    }
  }

  /** So once a pool has had a worker, every later update has room for its notes. */
  lemma NotesFitOnceUsed(steps: seq<Step>, more: seq<Step>, envs: seq<Env>)
    ensures
      var c := Run(steps + more).c;
      Run(steps).c.nodes != [] && |envs| == |c.nodes| ==> |Refresh(c, envs).1| <= c.evsMax
  {
    RunKeeps(steps);
    RunGrows(steps, more);
    NotesFit(steps + more, envs);
    hide Run, Refresh;
  }

  const LUCKY := Luck(true, true, true, true, Env(Quiet, NoRes, true, true))

  /** The pool after a first open, as its worker starts. */
  lemma FirstOpen()
    ensures
      var a := Ask(INIT, AskOpen(true), LUCKY);
      a.c.nodes == [Node(0, Started(), Open, false)] && a.ok && a.fd == 0
  {
    var n := Node(0, Started(), NoCmd, false);
    assert Allocate(INIT, LUCKY).c.nodes == [n];
    assert [n][0 := n.(deferred := Open)] == [n.(deferred := Open)];
  }

  lemma ThenWrite(c: Pool)
    requires c.nodes == [Node(0, Started(), Open, false)]
    ensures
      var r := AskWriteFsyncClose(0, true);
      var a := Ask(c, r, LUCKY);
      && a.c.nodes == [Node(0, Started(), WriteFsyncClose, false)] && a.ok && a.fd == 0
      && Overwritten(c, r) == multiset{(0, Open)}
  {
    assert Find(c.nodes, 0) == 0;
  }

  /**
   A command can be lost: an open and then a whole-file write on the same,
   still starting worker are both accepted, and the open is forgotten.
   */
  lemma OpenForgotten()
    ensures
      var w := Run([Asks(AskOpen(true), LUCKY), Asks(AskWriteFsyncClose(0, true), LUCKY)]);
      && w.accepted == multiset{(0, Open), (0, WriteFsyncClose)}
      && w.lost == multiset{(0, Open)}
      && OwedAll(w.c.nodes) == multiset{(0, WriteFsyncClose)}
  {
    hide Ask, OwedAll;
    var s1, s2 := Asks(AskOpen(true), LUCKY), Asks(AskWriteFsyncClose(0, true), LUCKY);
    var w0 := Run([]);
    FirstOpen();
    var w1 := Take(w0, s1);
    ThenWrite(w1.c);
    assert Overwritten(w0.c, s1.r) == multiset{};
    assert w1.accepted == multiset{(0, Open)} && w1.lost == multiset{};
    RunSnoc([], s1);
    RunSnoc([s1], s2);
    assert [] + [s1] == [s1] && [s1] + [s2] == [s1, s2];
    hide Run;
    OwedOne(Node(0, Started(), WriteFsyncClose, false));
    hide Overwritten;
  }
}
