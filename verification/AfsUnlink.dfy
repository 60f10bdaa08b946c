/**
 Which node an update of the pool of `src/afs.c` unlinks when a worker has to go:
 the worker's own, or, if it has no descriptor, the first free one.
 */
module AfsUnlink {
  import opened AfsPool
  import opened AfsPoolRuns
  import opened AfsProc

  // ----- An update, turn by turn -----

  /** The list after a turn, and where the next worker is. */
  datatype Place = Place(nodes: seq<Node>, at: nat)

  function OneTurn(nodes: seq<Node>, i: nat, e: Env): (r: Place)
    requires i < |nodes|
    ensures |r.nodes| - r.at == |nodes| - i - 1
  {
    var t := TurnOf(nodes[i], e);
    var nodes1 := nodes[i := t.n];
    if !t.del then Place(nodes1, i + 1)
    else
      assert nodes1[i].fd == t.n.fd;
      Place(Delete(nodes1, t.n.fd), i)
  }

  /** The list after the first `m` turns of an update. */
  function AfterTurns(nodes: seq<Node>, envs: seq<Env>, m: nat): (r: Place)
    requires m <= |envs| == |nodes|
    ensures |r.nodes| - r.at == |nodes| - m
  {
    if m == 0 then Place(nodes, 0)
    else
      var p := AfterTurns(nodes, envs, m - 1);
      OneTurn(p.nodes, p.at, envs[m - 1])
  }

  lemma {:induction false} TurnsSweep(nodes: seq<Node>, envs: seq<Env>, m: nat)
    requires m <= |envs| == |nodes|
    ensures
      var p := AfterTurns(nodes, envs, m);
      SweepFrom(nodes, 0, envs).nodes == SweepFrom(p.nodes, p.at, envs[m..]).nodes
    decreases m
  {
    if m == 0 {
      assert envs[0..] == envs;
    } else {
      TurnsSweep(nodes, envs, m - 1);
      var p := AfterTurns(nodes, envs, m - 1);
      assert envs[m - 1..][1..] == envs[m..] && envs[m - 1..][0] == envs[m - 1];
      hide TurnOf, AfterTurns;
    }
  }

  /** The turns one after the other are the update. */
  lemma TurnsAreUpdate(nodes: seq<Node>, envs: seq<Env>)
    requires |envs| == |nodes|
    ensures AfterTurns(nodes, envs, |envs|).nodes == SweepFrom(nodes, 0, envs).nodes
  {
    TurnsSweep(nodes, envs, |envs|);
    hide AfterTurns;
    assert envs[|envs|..] == [];
  }

  lemma {:induction false} TurnsKeep(nodes: seq<Node>, envs: seq<Env>, m: nat)
    requires m <= |envs| == |nodes| && NodesInv(nodes)
    ensures NodesInv(AfterTurns(nodes, envs, m).nodes)
    decreases m
  {
    hide NodesInv, TurnOf;
    if m > 0 {
      TurnsKeep(nodes, envs, m - 1);
      var p := AfterTurns(nodes, envs, m - 1);
      var t := TurnOf(p.nodes[p.at], envs[m - 1]);
      EachInv(p.nodes, p.at);
      TurnKeeps(p.nodes[p.at], envs[m - 1]);
      ReplaceKeeps(p.nodes, p.at, t.n);
      if t.del {
        DeleteKeeps(p.nodes[p.at := t.n], p.at);
      }
      hide AfterTurns, TurnGood;
    }
  }

  // ----- Which node goes -----

  lemma GoneProc(p: Proc, e: Env)
    requires e.idle && (p.st == Busy ==> p.cmd != NoCmd)
    ensures
      var x := Update(p, e);
      && |x.evs| <= 2
      && (!x.ok || InitFailed in x.evs ==> x.p.st == Uninit || x.p.st == Dead)
      && (|x.evs| == 2 ==> x.evs == [InitFailed, Stopped])
      && (InitDone in x.evs && p.st == InitPend ==> x.evs == [InitDone] && x.ok)
  {
  }

  lemma HandleKeepsProc(t: Turn, ev: Event, e: Env)
    requires ev != InitDone || t.n.deferred == NoCmd
    ensures
      var t' := Handle(t, ev, e);
      t'.n.p == t.n.p && (t'.n.deferred == t.n.deferred || t'.n.deferred == NoCmd) && (t'.del ==> t.del || ev == InitFailed)
  {
  }

  /** A worker that must go has no process any more, or none that hears from it. */
  lemma GoneState(n: Node, e: Env)
    requires NodeInv(n) && e.idle
    ensures TurnOf(n, e).del ==> TurnOf(n, e).n.p.st == Uninit || TurnOf(n, e).n.p.st == Dead
  {
    TurnWithout(n, e);
    TurnWithOne(n, e);
    TurnWithTwo(n, e);
    GoneProc(n.p, e);
    hide TurnOf, HandleAll, Update;
    var x := Update(n.p, e);
    var t := Turn(n.(p := x.p), [], false);
    if |x.evs| >= 1 {
      assert x.evs[0] in x.evs;
      if x.evs[0] == InitDone && n.p.st == InitPend {
        assert !Handle(t, InitDone, e).del;
      } else {
        HandleKeepsProc(t, x.evs[0], e);
        var t1 := Handle(t, x.evs[0], e);
        hide Handle;
        HandleKeepsProc(t1, Stopped, e);
      }
    }
  }

  /** What is unlinked for the worker at `i`, which must go and has become `n`. */
  predicate Unlinks(nodes: seq<Node>, i: nat, n: Node, own: bool)
    requires i < |nodes|
  {
    var nodes1 := nodes[i := n];
    var k, r := Find(nodes1, n.fd), Delete(nodes1, n.fd);
    if own then k == i && r == Without(nodes, i)
    else
      // another free worker goes, with its process in whatever state it is, and the failed one stays
      && k < i && nodes[k].fd == -1 && Owed(nodes[k]) == multiset{}
      && r == Without(nodes1, k)
      && i - 1 < |r| && r[i - 1] == n && n.fd == -1
  }

  lemma FirstHas(nodes: seq<Node>, i: nat)
    requires i < |nodes| && Distinct(nodes)
    ensures
      var k := Find(nodes, nodes[i].fd);
      k <= i && (k == i <==> nodes[i].fd >= 0 || forall j | 0 <= j < i :: nodes[j].fd != nodes[i].fd)
  {
    var k := Find(nodes, nodes[i].fd);
    assert k <= i;
  }

  lemma OtherStays(nodes: seq<Node>, i: nat, k: nat)
    requires k < i < |nodes|
    ensures i - 1 < |Without(nodes, k)| && Without(nodes, k)[i - 1] == nodes[i]
  {
  }

  lemma UnlinksWhich(nodes: seq<Node>, i: nat, n: Node)
    requires i < |nodes| && NodesInv(nodes[i := n])
    ensures Unlinks(nodes, i, n, n.fd >= 0 || forall j | 0 <= j < i :: nodes[j].fd != -1)
  {
    var nodes1 := nodes[i := n];
    EachInv(nodes1, i);
    FirstHas(nodes1, i);
    var k := Find(nodes1, n.fd);
    assert n.fd >= 0 || n.fd == -1;
    assert forall j | 0 <= j < i :: nodes1[j] == nodes[j];
    EachInv(nodes1, k);
    hide NodesInv, Find;
    if k == i {
      assert Without(nodes1, i) == Without(nodes, i);
    } else {
      OtherStays(nodes1, i, k);
      assert nodes1[k].fd == -1;
      FreeOwesNothing(nodes1[k]);
    }
  }

  lemma FreeOwesNothing(n: Node)
    requires NodeInv(n) && n.fd == -1
    ensures Owed(n) == multiset{}
  {
  }

  /**
   Over every run and at every turn of every update: a worker that must go is
   itself unlinked if and only if it still has a descriptor or no free worker
   stands before it. Otherwise the first free worker is unlinked, with its process
   left running if it had one, and the failed worker stays in the list.
   */
  lemma UnlinksExactly(steps: seq<Step>, envs: seq<Env>, m: nat)
    ensures
      var nodes := Run(steps).c.nodes;
      m < |envs| == |nodes| ==>
        var p := AfterTurns(nodes, envs, m);
        var t := TurnOf(p.nodes[p.at], envs[m]);
        t.del ==>
          && Unlinks(p.nodes, p.at, t.n, t.n.fd >= 0 || forall j | 0 <= j < p.at :: p.nodes[j].fd != -1)
          && (envs[m].idle ==> t.n.p.st == Uninit || t.n.p.st == Dead)
  {
    hide Run, TurnOf, NodesInv, Unlinks;
    RunKeeps(steps);
    var nodes := Run(steps).c.nodes;
    if m < |envs| == |nodes| {
      TurnsKeep(nodes, envs, m);
      var p := AfterTurns(nodes, envs, m);
      hide AfterTurns;
      var t := TurnOf(p.nodes[p.at], envs[m]);
      EachInv(p.nodes, p.at);
      TurnKeeps(p.nodes[p.at], envs[m]);
      ReplaceKeeps(p.nodes, p.at, t.n);
      if t.del {
        if envs[m].idle {
          GoneState(p.nodes[p.at], envs[m]);
        }
        UnlinksWhich(p.nodes, p.at, t.n);
      }
    }
  }

  // ----- A live worker unlinked -----

  const REPLY := Env(Readable, OkRes, true, true)
  const SILENT := Env(Quiet, NoRes, true, true)
  const HANGUP := Env(HungUp, NoRes, true, true)

  /** A worker that has made its directory and is free, and one whose process has died since. */
  const FREE := Node(-1, Proc(Avail, false, NoCmd), NoCmd, true)
  const GONE := Node(-1, Proc(Uninit, false, NoCmd), NoCmd, true)

  function Making(fd: int): Node {
    Node(fd, Started(), Mkdir, false)
  }

  function MakingNow(fd: int): Node {
    Node(fd, Proc(Busy, false, Mkdir), NoCmd, true)
  }

  lemma MakingTurns(fd: nat)
    ensures TurnOf(Making(fd), REPLY) == Turn(MakingNow(fd), [], false)
    ensures TurnOf(MakingNow(fd), REPLY).n == FREE && !TurnOf(MakingNow(fd), REPLY).del
    ensures TurnOf(FREE, SILENT) == Turn(FREE, [], false)
    ensures TurnOf(FREE, HANGUP) == Turn(GONE, [], true)
  {
    TurnWithOne(Making(fd), REPLY);
    TurnWithOne(MakingNow(fd), REPLY);
    TurnWithout(FREE, SILENT);
    TurnWithout(FREE, HANGUP);
    hide TurnOf, HandleAll;
    var none: seq<Note> := [];
    assert none + none == none;
  }

  lemma SweepTwo(a: Node, b: Node, a': Node, b': Node, e: Env, e': Env)
    requires TurnOf(a, e).n == a' && !TurnOf(a, e).del && TurnOf(b, e').n == b'
    ensures
      SweepFrom([a, b], 0, [e, e']).nodes ==
      if TurnOf(b, e').del then Delete([a', b'], b'.fd) else [a', b']
  {
    hide TurnOf;
    assert [a, b][0 := a'] == [a', b] && [a', b][1 := b'] == [a', b'];
    assert [e, e'][1..] == [e'] && [e'][1..] == [];
    var t := TurnOf(b, e');
    var x := SweepFrom([a', b], 1, [e']);
    assert SweepFrom([a, b], 0, [e, e']).nodes == x.nodes;
    assert [a', b'][1].fd == b'.fd;
    if t.del {
      assert x.nodes == SweepFrom(Delete([a', b'], b'.fd), 1, []).nodes;
    } else {
      assert x.nodes == SweepFrom([a', b'], 2, []).nodes;
    }
  }

  lemma MkdirTwice()
    ensures
      var a := Ask(INIT, AskMkdir(true), LUCKY);
      var b := Ask(a.c, AskMkdir(true), LUCKY);
      b.c.nodes == [Making(0), Making(1)] && !b.c.stopReq
  {
    var n := Node(0, Started(), NoCmd, false);
    assert Allocate(INIT, LUCKY).c.nodes == [n];
    var c := Ask(INIT, AskMkdir(true), LUCKY).c;
    assert c.nodes == [Making(0)];
    assert Find(c.nodes, -1) == 1 && NextFd(c.nodes) == 1;
    assert Allocate(c, LUCKY).c.nodes == [Making(0), Node(1, Started(), NoCmd, false)];
    hide Allocate;
  }

  lemma UpdateTwo(steps: seq<Step>, a: Node, b: Node, a': Node, b': Node, e: Env, e': Env)
    requires Run(steps).c.nodes == [a, b]
    requires TurnOf(a, e).n == a' && !TurnOf(a, e).del && TurnOf(b, e').n == b'
    ensures
      Run(steps + [Updates([e, e'])]).c.nodes ==
      if TurnOf(b, e').del then Delete([a', b'], b'.fd) else [a', b']
  {
    SweepTwo(a, b, a', b', e, e');
    RunSnoc(steps, Updates([e, e']));
    hide Run, TurnOf, SweepFrom;
  }

  function TwoMkdirs(): seq<Step> {
    [Asks(AskMkdir(true), LUCKY), Asks(AskMkdir(true), LUCKY)]
  }

  lemma TwoMaking()
    ensures Run(TwoMkdirs()).c.nodes == [Making(0), Making(1)]
  {
    var s := Asks(AskMkdir(true), LUCKY);
    MkdirTwice();
    hide Ask;
    RunSnoc([], s);
    RunSnoc([s], s);
    assert [] + [s] == [s] && [s] + [s] == TwoMkdirs();
    assert Run([]).c == INIT;
    hide Run, Accepted, Overwritten;
  }

  function Prelude(): seq<Step> {
    TwoMkdirs() + [Updates([REPLY, REPLY])] + [Updates([REPLY, REPLY])]
  }

  lemma TwoFree()
    ensures Run(Prelude()).c.nodes == [FREE, FREE]
  {
    TwoMaking();
    MakingTurns(0);
    MakingTurns(1);
    hide TurnOf, Run, TwoMkdirs;
    UpdateTwo(TwoMkdirs(), Making(0), Making(1), MakingNow(0), MakingNow(1), REPLY, REPLY);
    UpdateTwo(TwoMkdirs() + [Updates([REPLY, REPLY])], MakingNow(0), MakingNow(1), FREE, FREE, REPLY, REPLY);
  }

  /**
   Of two free workers the second one's process dies. The update unlinks the first
   one, whose process is alive and idle, and keeps the dead one.
   */
  lemma LiveWorkerUnlinked()
    ensures Run(Prelude()).c.nodes == [FREE, FREE]
    ensures Run(Prelude() + [Updates([SILENT, HANGUP])]).c.nodes == [GONE]
  {
    TwoFree();
    MakingTurns(0);
    hide Run, TurnOf, Prelude;
    UpdateTwo(Prelude(), FREE, FREE, FREE, GONE, SILENT, HANGUP);
    assert Find([FREE, GONE], -1) == 0 && Delete([FREE, GONE], -1) == [GONE];
  }
}
