/**
 What an update of the pool of `src/afs.c` tells: exactly which poll results settle
 a command, with which outcome, under which descriptor and in which order.
 */
module AfsSettle {
  import opened AfsPool
  import opened AfsPoolRuns
  import opened AfsProc

  // ----- What one worker is due to tell -----

  /** A reply, or the end of the child, settles a command in flight. */
  predicate SettlesBusy(n: Node, e: Env) {
    n.p.st == Busy && IsFile(n.p.cmd) && e.revents != Quiet
  }

  /** Commands that can be held back for a starting worker and then sent. */
  predicate Deferrable(c: Cmd) {
    c == Open || c == Mkdir || c == WriteFsyncClose
  }

  /** A command held back fails with its worker's start, or if it cannot be sent once the worker has started. */
  predicate SettlesDeferred(n: Node, e: Env) {
    && n.p.st == InitPend && n.deferred != NoCmd
    && (|| n.p.stopReq || e.revents == HungUp
        || (e.revents == Readable && (e.res != OkRes || !e.idle || !e.sent || !Deferrable(n.deferred))))
  }

  predicate Settles(n: Node, e: Env) {
    SettlesBusy(n, e) || SettlesDeferred(n, e)
  }

  /** A command in flight is done if and only if the child replies that it is; everything else is a failure. */
  function Verdict(n: Node, e: Env): seq<Note> {
    if SettlesBusy(n, e) then
      [Note(n.fd, if e.revents == Readable && e.res == OkRes then Done(n.p.cmd) else Failed(n.p.cmd))]
    else if SettlesDeferred(n, e) then [Note(n.fd, Failed(n.deferred))]
    else []
  }

  /** A worker must go when its process is gone or can no longer be reached. */
  predicate Ends(n: Node, e: Env) {
    match n.p.st
    case InitPend => n.p.stopReq || e.revents == HungUp || (e.revents == Readable && e.res != OkRes)
    case Busy =>
      || e.revents == HungUp
      || (e.revents == Readable &&
          if n.p.cmd == Exit && e.res == OkRes then true else n.p.stopReq && !(e.idle && e.sent))
    case Avail => e.revents == HungUp
    case Dead => true
    case Uninit => true
  }

  /** A descriptor is free again after a closing command, whatever its outcome, and after a stop. */
  predicate Releases(n: Node, e: Env) {
    match n.p.st
    case InitPend => n.p.stopReq
    case Busy =>
      && e.revents != Quiet
      && (Frees(n.p.cmd) || (n.p.cmd == Exit && !(e.revents == Readable && e.res == OkRes)))
    case Avail => false
    case Dead => n.p.stopReq
    case Uninit => n.p.stopReq
  }

  /** A command is sent to a child: it works on it, or is out of reach, or, if it was not idle, got nothing. */
  function Reached(e: Env): St {
    if !e.idle then Avail else if e.sent then Busy else Dead
  }

  /** Where a worker is after its turn. */
  function After(n: Node, e: Env): St {
    match n.p.st
    case InitPend =>
      if Ends(n, e) then Uninit
      else if e.revents == Quiet then InitPend
      else if Deferrable(n.deferred) then Reached(e)
      else Avail
    case Busy =>
      if e.revents == Quiet then Busy
      else if e.revents == HungUp || (n.p.cmd == Exit && e.res == OkRes) then Uninit
      else if n.p.stopReq then Reached(e)
      else Avail
    case Avail => if e.revents == HungUp then Uninit else Avail
    case Dead => Uninit
    case Uninit => Uninit
  }

  predicate Exactly(n: Node, e: Env, t: Turn) {
    && t.notes == Verdict(n, e) && (t.del <==> Ends(n, e)) && t.n.p.st == After(n, e)
    && t.n.fd == if Releases(n, e) then -1 else n.fd
  }

  lemma BusyExactly(n: Node, e: Env)
    requires NodeInv(n) && n.p.st == Busy
    ensures Exactly(n, e, TurnOf(n, e))
  {
    TurnWithout(n, e);
    TurnWithOne(n, e);
    hide TurnOf, HandleAll;
    assert |Update(n.p, e).evs| <= 1;
  }

  lemma InitPendExactly(n: Node, e: Env)
    requires NodeInv(n) && n.p.st == InitPend
    ensures Exactly(n, e, TurnOf(n, e))
  {
    TurnWithout(n, e);
    TurnWithOne(n, e);
    TurnWithTwo(n, e);
    hide TurnOf, HandleAll;
  }

  lemma OtherExactly(n: Node, e: Env)
    requires NodeInv(n) && n.p.st != Busy && n.p.st != InitPend
    ensures Exactly(n, e, TurnOf(n, e))
  {
    TurnWithout(n, e);
    TurnWithOne(n, e);
    hide TurnOf, HandleAll;
  }

  /** One worker's turn: what it tells, whether it must go, and whether its descriptor is free again. */
  lemma TurnExactly(n: Node, e: Env)
    requires NodeInv(n)
    ensures Exactly(n, e, TurnOf(n, e))
  {
    hide Exactly, TurnOf;
    match n.p.st {
      case Busy => BusyExactly(n, e);
      case InitPend => InitPendExactly(n, e);
      case _ => OtherExactly(n, e);
    }
  }

  lemma VerdictTells(n: Node, e: Env)
    requires NodeInv(n)
    ensures Told(Verdict(n, e)) == if Settles(n, e) then Owed(n) else multiset{}
  {
    if Settles(n, e) {
      var note := Verdict(n, e)[0];
      assert [] + [note] == Verdict(n, e);
      ToldOne(note);
    } else {
      ToldNone();
    }
    hide Told;
  }

  /** A worker that settles owes nothing any more; one that does not owes what it did. */
  lemma DebtExactly(n: Node, e: Env)
    requires NodeInv(n)
    ensures
      var t := TurnOf(n, e);
      && Told(t.notes) == (if Settles(n, e) then Owed(n) else multiset{})
      && Owed(t.n) == (if Settles(n, e) then multiset{} else Owed(n))
  {
    TurnExactly(n, e);
    TurnKeeps(n, e);
    VerdictTells(n, e);
    hide TurnOf, Update, Settles, Verdict, Told, NodeInv, Owed;
    NothingMore(Owed(n), Owed(TurnOf(n, e).n));
  }

  // ----- A whole update -----

  /** What the workers are due to tell, in the order of the list. */
  function Verdicts(nodes: seq<Node>, envs: seq<Env>): seq<Note>
    requires |nodes| == |envs|
  {
    if nodes == [] then [] else Verdict(nodes[0], envs[0]) + Verdicts(nodes[1..], envs[1..])
  }

  /** A turn leaves the workers behind it as they were and moves them up if a node is unlinked. */
  lemma RestStays(nodes: seq<Node>, i: nat, n: Node)
    requires i < |nodes|
    ensures
      var nodes1 := nodes[i := n];
      nodes1[i + 1..] == nodes[i + 1..] && i <= |Delete(nodes1, n.fd)| && Delete(nodes1, n.fd)[i..] == nodes[i + 1..]
  {
    var nodes1 := nodes[i := n];
    assert nodes1[i].fd == n.fd;
    var k := Find(nodes1, n.fd);
    assert k <= i;
    hide Find;
  }

  lemma {:induction false} SweepExactly(nodes: seq<Node>, i: nat, envs: seq<Env>)
    requires NodesInv(nodes) && i + |envs| == |nodes|
    ensures SweepFrom(nodes, i, envs).notes == Verdicts(nodes[i..], envs)
    decreases |envs|
  {
    hide TurnOf, NodesInv, Verdict, Delete;
    if envs != [] {
      var n := nodes[i];
      var t := TurnOf(n, envs[0]);
      var nodes1 := nodes[i := t.n];
      EachInv(nodes, i);
      TurnExactly(n, envs[0]);
      TurnKeeps(n, envs[0]);
      ReplaceKeeps(nodes, i, t.n);
      RestStays(nodes, i, t.n);
      assert nodes[i..][0] == n && nodes[i..][1..] == nodes[i + 1..];
      if t.del {
        DeleteKeeps(nodes1, i);
        SweepExactly(Delete(nodes1, t.n.fd), i, envs[1..]);
      } else {
        SweepExactly(nodes1, i + 1, envs[1..]);
      }
    }
  }

  /**
   In every run: an update tells exactly what its workers are due to tell, each under
   its own descriptor and in the order of the list, and then the end of a stop.
   */
  lemma NotesExactly(steps: seq<Step>, envs: seq<Env>)
    ensures
      var c := Run(steps).c;
      |envs| == |c.nodes| ==>
        var (c', notes) := Refresh(c, envs);
        notes == Verdicts(c.nodes, envs) + if c.stopReq && AllStopped(c'.nodes) then [Note(-1, Stopped)] else []
  {
    RunKeeps(steps);
    hide Run;
    var c := Run(steps).c;
    if |envs| == |c.nodes| {
      SweepExactly(c.nodes, 0, envs);
      assert c.nodes[0..] == c.nodes;
    }
    hide SweepFrom, Verdicts;
  }

  /** The commands that settle in an update. */
  function Settled(nodes: seq<Node>, envs: seq<Env>): multiset<Job>
    requires |nodes| == |envs|
  {
    if nodes == [] then multiset{}
    else (if Settles(nodes[0], envs[0]) then Owed(nodes[0]) else multiset{}) + Settled(nodes[1..], envs[1..])
  }

  lemma {:induction false} VerdictsTell(nodes: seq<Node>, envs: seq<Env>)
    requires |nodes| == |envs| && forall n <- nodes :: NodeInv(n)
    ensures Told(Verdicts(nodes, envs)) == Settled(nodes, envs)
    decreases |nodes|
  {
    hide Verdict, Settles, Owed, NodeInv;
    if nodes == [] {
      ToldNone();
    } else {
      VerdictTells(nodes[0], envs[0]);
      VerdictsTell(nodes[1..], envs[1..]);
      ToldConcat(Verdict(nodes[0], envs[0]), Verdicts(nodes[1..], envs[1..]));
    }
  }

  /**
   In every run an update moves exactly the commands that settle from those still owed
   to those told: a reply, the end of a child and a failed start are never passed over.
   */
  lemma UpdateSettles(steps: seq<Step>, envs: seq<Env>)
    ensures
      var w, w' := Run(steps), Run(steps + [Updates(envs)]);
      |envs| == |w.c.nodes| ==>
        var settled := Settled(w.c.nodes, envs);
        w'.told == w.told + settled && OwedAll(w.c.nodes) == OwedAll(w'.c.nodes) + settled
  {
    assert (steps + [Updates(envs)])[..|steps|] == steps;
    var w := Run(steps);
    assert Run(steps + [Updates(envs)]) == Take(w, Updates(envs));
    RunKeeps(steps);
    hide Run;
    if |envs| == |w.c.nodes| {
      SweepExactly(w.c.nodes, 0, envs);
      SweepKeeps(w.c.nodes, 0, envs);
      RefreshTells(w.c, envs);
      assert w.c.nodes[0..] == w.c.nodes;
      VerdictsTell(w.c.nodes, envs);
    }
    hide SweepFrom, Verdicts, OwedAll, Told, Settled;
  }

  // ----- What a client sees -----

  /** The notes under one descriptor. */
  function Under(notes: seq<Note>, fd: int): seq<Note> {
    if notes == [] then []
    else (if notes[0].fd == fd then [notes[0]] else []) + Under(notes[1..], fd)
  }

  lemma {:induction false} UnderConcat(a: seq<Note>, b: seq<Note>, fd: int)
    ensures Under(a + b, fd) == Under(a, fd) + Under(b, fd)
  {
    if a == [] {
      assert a + b == b;
    } else {
      assert (a + b)[1..] == a[1..] + b && (a + b)[0] == a[0];
      UnderConcat(a[1..], b, fd);
      var first := if a[0].fd == fd then [a[0]] else [];
      Regroup(first, Under(a[1..], fd), Under(b, fd));
      assert Under(a + b, fd) == first + Under(a[1..] + b, fd);
    }
  }

  lemma UnderVerdict(n: Node, e: Env, fd: int)
    ensures Under(Verdict(n, e), fd) == if n.fd == fd then Verdict(n, e) else []
  {
    var v := Verdict(n, e);
    assert v != [] ==> v[1..] == [];
  }

  lemma {:induction false} UnderNone(nodes: seq<Node>, envs: seq<Env>, fd: int)
    requires |nodes| == |envs| && forall n <- nodes :: n.fd != fd
    ensures Under(Verdicts(nodes, envs), fd) == []
    decreases |nodes|
  {
    hide Verdict;
    if nodes != [] {
      UnderNone(nodes[1..], envs[1..], fd);
      UnderVerdict(nodes[0], envs[0], fd);
      UnderConcat(Verdict(nodes[0], envs[0]), Verdicts(nodes[1..], envs[1..]), fd);
    }
  }

  lemma {:induction false} UnderOwner(nodes: seq<Node>, envs: seq<Env>, k: nat)
    requires |nodes| == |envs| && k < |nodes| && Distinct(nodes) && nodes[k].fd >= 0
    ensures Under(Verdicts(nodes, envs), nodes[k].fd) == Verdict(nodes[k], envs[k])
    decreases |nodes|
  {
    var fd := nodes[k].fd;
    hide Verdict;
    UnderVerdict(nodes[0], envs[0], fd);
    UnderConcat(Verdict(nodes[0], envs[0]), Verdicts(nodes[1..], envs[1..]), fd);
    if k == 0 {
      UnderNone(nodes[1..], envs[1..], fd);
    } else {
      UnderOwner(nodes[1..], envs[1..], k - 1);
    }
  }

  /**
   What a client that owns a descriptor is told by an update, in every run: nothing if
   its worker has nothing to settle, and otherwise one note, which is the outcome of
   the one command it is waiting for.
   */
  lemma ClientTold(steps: seq<Step>, envs: seq<Env>, k: nat)
    ensures
      var c := Run(steps).c;
      k < |envs| == |c.nodes| && c.nodes[k].fd >= 0 ==>
        var n, notes := c.nodes[k], Under(Refresh(c, envs).1, c.nodes[k].fd);
        && notes == Verdict(n, envs[k])
        && Told(notes) == if Settles(n, envs[k]) then Owed(n) else multiset{}
  {
    var c := Run(steps).c;
    RunKeeps(steps);
    NotesExactly(steps, envs);
    hide Run, Verdict, Verdicts, Refresh, Told;
    if k < |envs| == |c.nodes| && c.nodes[k].fd >= 0 {
      var fd := c.nodes[k].fd;
      UnderOwner(c.nodes, envs, k);
      UnderConcat(Verdicts(c.nodes, envs), [Note(-1, Stopped)], fd);
      UnderConcat(Verdicts(c.nodes, envs), [], fd);
      assert Under([Note(-1, Stopped)], fd) == Under([], fd);
      EachInv(c.nodes, k);
      DebtExactly(c.nodes[k], envs[k]);
      TurnExactly(c.nodes[k], envs[k]);
      hide TurnOf;
    }
  }
}
