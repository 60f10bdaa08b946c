/**
 The handshake between a parent and one worker process of `src/afs.c`, over
 every interleaving of their steps and with the child crashing at any point.

 A step of the child is one access to shared memory or one system call; a step
 of the parent is one call on the worker, which `AfsAccesses` splits into single
 accesses. One byte on the socket is one signal.
 */
module AfsHandshake {
  import opened AfsProc

  datatype ChildSt = NotStarted | IdleSt | BusySt

  /** Where the child is in its loop. */
  datatype Pc =
    | Starting
    | Waiting
    | Woken
    | Clearing
    | Deciding
    | Running(cmd: Cmd)
    | Marking(exit: bool)
    | Replying(exit: bool)
    | Leaving
    | Gone

  /** A command the child carried out, and whether it succeeded. */
  datatype Report = Report(cmd: Cmd, ok: bool)

  /**
   The parent's view, the child's part of the shared memory, the bytes in flight,
   the child, what the child has carried out so far, and the replies the parent
   has taken so far.
   */
  datatype Worker = Worker(
    p: Proc,
    res: Res,
    st: ChildSt,
    toChild: nat,
    toParent: nat,
    child: Pc,
    ran: seq<Report>,
    told: seq<Report>)

  // ----- The child -----

  /** One step of the child; `ok` is the outcome of the command or system call, where there is one. */
  function ChildStep(w: Worker, ok: bool): Worker {
    match w.child
    case Starting => if w.st != NotStarted then w.(child := Gone) else w.(st := IdleSt, child := Waiting)
    case Waiting =>
      if !ok then w.(child := Gone)
      else if w.toChild == 0 then w
      else w.(toChild := w.toChild - 1, child := Woken)
    case Woken => w.(st := BusySt, child := Clearing)
    case Clearing => w.(res := NoRes, child := Deciding)
    case Deciding => w.(child := Running(w.p.cmd))
    case Running(c) =>
      var good := ok || !IsFile(c);
      w.(res := if good then OkRes else FailRes, child := Marking(c == Exit), ran := w.ran + [Report(c, good)])
    case Marking(exit) => w.(st := IdleSt, child := Replying(exit))
    case Replying(exit) =>
      if !ok then w.(st := NotStarted, child := Gone)
      else w.(toParent := w.toParent + 1, child := if exit then Leaving else Waiting)
    case Leaving => w.(st := NotStarted, child := Gone)
    case Gone => w
  }

  // ----- The parent -----

  /** What the parent meets, given a poll result and the fate of a byte it may write. */
  function Meets(w: Worker, revents: Revents, sent: bool): Env {
    Env(revents, w.res, w.st == IdleSt, sent)
  }

  function Spawn(sent: bool): Worker {
    Worker(Notify(Started(), sent).p, NoRes, NotStarted, if sent then 1 else 0, 0, Starting, [], [])
  }

  function ParentSends(w: Worker, c: Cmd, sent: bool): Worker {
    var x := Send(w.p, c, Meets(w, Quiet, sent));
    w.(p := x.p, toChild := w.toChild + if x.ok then 1 else 0)
  }

  function ParentStops(w: Worker, sent: bool): Worker {
    var x := StopPrep(w.p, Meets(w, Quiet, sent));
    w.(p := x.p, toChild := w.toChild + if x.ok && w.p.st == Avail then 1 else 0)
  }

  /** An update: the reply read, if any, is the one the parent then acts on. */
  function ParentUpdates(w: Worker, revents: Revents, sent: bool): Worker
    requires CanPoll(w, revents)
  {
    var x := Update(w.p, Meets(w, revents, sent));
    w.(p := x.p,
       toParent := if x.read then w.toParent - 1 else w.toParent,
       toChild := w.toChild + (if x.wrote then 1 else 0),
       told := if x.read then w.told + [Report(w.p.cmd, w.res == OkRes)] else w.told,
       child := if x.p.st == Uninit then Gone else w.child)
  }

  /** What poll can report: data only if there is some, a hang-up only if the child is gone. */
  predicate CanPoll(w: Worker, revents: Revents) {
    match revents
    case Quiet => true
    case Readable => w.toParent > 0
    case HungUp => w.child == Gone
  }

  // ----- Interleavings -----

  datatype Action =
    | ChildMoves(ok: bool)
    | ChildCrashes
    | Sends(cmd: Cmd, sent: bool)
    | Stops(sent: bool)
    | Updates(revents: Revents, sent: bool)

  predicate Enabled(w: Worker, a: Action) {
    match a
    case Updates(revents, _) => CanPoll(w, revents)
    case Sends(cmd, _) => IsFile(cmd)
    case _ => true
  }

  /** What an action does; one that cannot happen now changes nothing. */
  function Act(w: Worker, a: Action): Worker {
    if !Enabled(w, a) then w
    else match a
      case ChildMoves(ok) => ChildStep(w, ok)
      case ChildCrashes => w.(child := Gone)
      case Sends(cmd, sent) => ParentSends(w, cmd, sent)
      case Stops(sent) => ParentStops(w, sent)
      case Updates(revents, sent) => ParentUpdates(w, revents, sent)
  }

  /** A worker after any interleaving of actions. */
  function Run(started: bool, actions: seq<Action>): Worker {
    if actions == [] then Spawn(started)
    else Act(Run(started, actions[..|actions| - 1]), actions[|actions| - 1])
  }

  // ----- What every interleaving keeps -----

  predicate Working(pc: Pc) {
    pc != Starting && pc != Waiting && pc != Leaving && pc != Gone
  }

  /** The signals in flight: bytes to the child, the child at work, bytes to the parent. */
  function Tokens(w: Worker): nat {
    w.toChild + (if Working(w.child) then 1 else 0) + w.toParent
  }

  /** The child has carried the command out, and its reply is on the way or was lost with the child. */
  predicate Carried(w: Worker) {
    w.child.Marking? || w.child.Replying? || w.toParent == 1
  }

  /** The child's part of the shared memory says where the child is. */
  predicate ChildInv(w: Worker) {
    match w.child
    case Starting => w.st == NotStarted && w.toParent == 0
    case Waiting => w.st == IdleSt
    case Woken => w.st == IdleSt
    case Clearing => w.st == BusySt
    case Deciding => w.st == BusySt
    case Running(c) => w.st == BusySt && c == w.p.cmd
    case Marking(exit) => w.st == BusySt && exit == (w.p.cmd == Exit)
    case Replying(exit) => w.st == IdleSt && exit == (w.p.cmd == Exit)
    case Leaving => w.st == IdleSt && w.p.cmd == Exit && w.toParent == 1
    case Gone => true
  }

  /** The last command carried out is the current one, and `res` is its result. */
  predicate LastRan(w: Worker) {
    w.ran == w.told + [Report(w.p.cmd, w.res == OkRes)] && (!IsFile(w.p.cmd) ==> w.res == OkRes)
  }

  /** Replies are taken in the order in which commands were carried out, at most one being behind. */
  predicate InOrder(w: Worker) {
    w.told <= w.ran && |w.ran| <= |w.told| + 1
  }

  predicate HistoryInv(w: Worker) {
    if Carried(w) then LastRan(w)
    else if w.child == Gone then InOrder(w)
    else w.ran == w.told
  }

  /** A signal or the child's work is under way, and exactly one while the child lives. */
  predicate Underway(w: Worker) {
    && ChildInv(w) && HistoryInv(w)
    && Tokens(w) <= 1 && (w.child != Gone ==> Tokens(w) == 1)
    && (w.toParent == 1 && w.p.cmd != Exit ==> w.st == IdleSt)
  }

  predicate Quiescent(w: Worker) {
    w.toChild == 0 && w.toParent == 0 && (w.child == Waiting || w.child == Starting || w.child == Gone) && w.ran == w.told
  }

  predicate Inv(w: Worker) {
    match w.p.st
    case Uninit => w.child == Gone && InOrder(w)
    case Dead => Quiescent(w)
    case Avail => Quiescent(w) && w.child != Starting && w.st == IdleSt
    case InitPend => w.p.cmd == NoCmd && Underway(w)
    case Busy => w.p.cmd != NoCmd && Underway(w) && w.child != Starting
  }

  lemma UnderwayChild(w: Worker, ok: bool)
    requires Underway(w)
    ensures Underway(ChildStep(w, ok))
  {
  }

  lemma ChildKeeps(w: Worker, ok: bool)
    requires Inv(w)
    ensures Inv(ChildStep(w, ok)) && ChildStep(w, ok).p == w.p
  {
    if w.p.st == InitPend || w.p.st == Busy {
      UnderwayChild(w, ok);
      hide Underway;
    }
  }

  lemma CrashKeeps(w: Worker)
    requires Inv(w)
    ensures Inv(w.(child := Gone))
  {
  }

  lemma SendKeeps(w: Worker, c: Cmd, sent: bool)
    requires Inv(w) && c != NoCmd
    ensures Inv(ParentSends(w, c, sent))
  {
  }

  lemma StopKeeps(w: Worker, sent: bool)
    requires Inv(w)
    ensures Inv(ParentStops(w, sent))
  {
    if w.p.st == Avail {
      assert Quiescent(w);
    }
  }

  /** A reply that is taken leaves the child quiet, unless it was the reply to an exit command. */
  lemma ReplyTaken(w: Worker)
    requires Underway(w) && w.toParent == 1
    ensures LastRan(w)
    ensures w.p.cmd != Exit ==>
              Quiescent(w.(toParent := 0, told := w.told + [Report(w.p.cmd, w.res == OkRes)])) && w.st == IdleSt && w.child != Starting
  {
  }

  lemma UpdateKeeps(w: Worker, revents: Revents, sent: bool)
    requires Inv(w) && CanPoll(w, revents)
    ensures Inv(ParentUpdates(w, revents, sent))
  {
    if (w.p.st == InitPend || w.p.st == Busy) && revents == Readable {
      ReplyTaken(w);
      hide ChildInv, HistoryInv;
    }
  }

  lemma {:induction false} RunKeeps(started: bool, actions: seq<Action>)
    ensures Inv(Run(started, actions))
    decreases |actions|
  {
    if actions != [] {
      var w, a := Run(started, actions[..|actions| - 1]), actions[|actions| - 1];
      RunKeeps(started, actions[..|actions| - 1]);
      hide Inv, ChildStep, ParentSends, ParentStops, ParentUpdates;
      if Enabled(w, a) {
        match a {
          case ChildMoves(ok) => ChildKeeps(w, ok);
          case ChildCrashes => CrashKeeps(w);
          case Sends(cmd, sent) => SendKeeps(w, cmd, sent);
          case Stops(sent) => StopKeeps(w, sent);
          case Updates(revents, sent) => UpdateKeeps(w, revents, sent);
        }
      }
    }
  }

  /**
   Handshake safety, over every interleaving: a parent that waits for a live
   child has exactly one signal in flight; a parent that is available has none,
   and the child says it is idle, so a command is refused only because the worker
   is not available or the byte cannot be written, never for a "bad child st".
   */
  lemma HandshakeSafe(started: bool, actions: seq<Action>, c: Cmd, sent: bool)
    ensures
      var w := Run(started, actions);
      && ((w.p.st == InitPend || w.p.st == Busy) && w.child != Gone ==> Tokens(w) == 1)
      && (w.p.st == Avail ==> Tokens(w) == 0 && w.st == IdleSt)
      && (Send(w.p, c, Meets(w, Quiet, sent)).ok <==> w.p.st == Avail && sent)
  {
    RunKeeps(started, actions);
    hide Run, HistoryInv;
  }

  /**
   The command lies still while it is in flight: between the signal and the
   reply no action of either side changes it, whatever happens in between.
   */
  lemma CommandHeld(started: bool, actions: seq<Action>, a: Action)
    ensures
      var w, w' := Run(started, actions), Run(started, actions + [a]);
      w.p.st == InitPend || w.p.st == Busy ==>
        || w'.p.cmd == w.p.cmd
        || w'.p.st == Uninit
        || w'.told == w.told + [Report(w.p.cmd, w.res == OkRes)]
  {
    assert (actions + [a])[..|actions|] == actions;
    var w := Run(started, actions);
    RunKeeps(started, actions);
    assert Run(started, actions + [a]) == Act(w, a);
    if a.ChildMoves? {
      ChildKeeps(w, a.ok);
    }
    hide Run, ChildStep, HistoryInv;
  }

  /**
   Replies are true, over every interleaving. The replies taken are the reports
   of the commands the child carried out, in order, none twice and none left out
   but possibly the last. So the event queued for a reply names the command the
   child really carried out last and its real outcome; a worker never fails to
   start after it has replied; and a reply to an exit command is never a failure.
   */
  lemma RepliesAreTrue(started: bool, actions: seq<Action>, sent: bool)
    ensures
      var w := Run(started, actions);
      var evs := Update(w.p, Meets(w, Readable, sent)).evs;
      && InOrder(w)
      && (w.p.st == Busy && w.toParent > 0 && IsFile(w.p.cmd) ==>
            |w.ran| == |w.told| + 1 &&
            var last := w.ran[|w.told|];
            evs == [if last.ok then Done(last.cmd) else Failed(last.cmd)])
      && (w.p.st == InitPend && w.toParent > 0 && !w.p.stopReq ==> evs == [InitDone])
      && (w.p.st == Busy && w.toParent > 0 && w.p.cmd == Exit ==> evs == [InitDone])
  {
    RunKeeps(started, actions);
    hide Run;
    var w := Run(started, actions);
    if (w.p.st == InitPend || w.p.st == Busy) && w.toParent > 0 {
      ReplyTaken(w);
      hide ChildInv, HistoryInv;
    }
  }
}
