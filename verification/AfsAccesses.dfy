/**
 The handshake of `src/afs.c` at the level of single accesses. Here a call of the
 parent is no step of its own: the child may move or crash between any two accesses
 to shared memory or system calls of the parent, and between a poll and the update
 that uses its result. Every such run is a run of `AfsHandshake`, so all that is
 proved there holds here, and the two processes never access the same shared
 memory at a time.

 The command is stored by the parent alone, so reading it back is no step. What a
 reply carries besides its result is read together with the result.
 */
module AfsAccesses {
  import opened AfsProc
  import opened Options
  import H = AfsHandshake

  datatype Call = ToSend(cmd: Cmd) | ToStop | ToUpdate

  /** The access or system call that the parent is about to make, if it is in a call. */
  datatype At =
    | Out
    | Checking(cmd: Cmd)
    | Storing(cmd: Cmd)
    | Notifying(cmd: Cmd)
    | Taking
    | Judging
    | Clearing

  /**
   The worker as it is now, and where the parent is: in which call, with which
   worker it began, whether it has taken the child's byte, the result it has read,
   and the poll result it has not used yet.
   */
  datatype Fine = Fine(w: H.Worker, at: At, call: Call, was: Proc, taken: bool, got: Res, polled: Revents)

  // ----- Steps of the parent -----

  function Enter(f: Fine, at: At, call: Call): Fine {
    f.(at := at, call := call, was := f.w.p, taken := false)
  }

  /** A call up to its first access or system call; one without any is over at once. */
  function Begin(f: Fine, call: Call): Fine {
    var w, p := f.w, f.w.p;
    match call
    case ToSend(c) => if p.st != Avail then f else Enter(f, Checking(c), call)
    case ToStop =>
      var w1 := w.(p := p.(stopReq := true));
      if p.stopReq then f else if p.st != Avail then f.(w := w1) else Enter(f, Checking(Exit), call).(w := w1)
    case ToUpdate =>
      var f1 := f.(polled := Quiet);
      if f.polled == Readable && (p.st == Busy || (p.st == InitPend && !p.stopReq)) then Enter(f1, Taking, call)
      else
        var x := Update(p, Env(f.polled, w.res, true, true));
        f1.(w := w.(p := x.p, child := if x.p.st == Uninit then H.Gone else w.child))
  }

  /** The call is over. */
  function Return(f: Fine): Fine {
    if f.taken then f.(at := Out, w := f.w.(told := f.w.told + [H.Report(f.was.cmd, f.got == OkRes)])) else f.(at := Out)
  }

  function Killed(w: H.Worker, p: Proc): H.Worker {
    w.(p := p, child := H.Gone)
  }

  /** A reply has been dealt with, and a stop asked for meanwhile goes out. */
  function Answered(f: Fine, cmd: Cmd): Fine {
    var f1 := f.(w := f.w.(p := f.w.p.(st := Avail, cmd := cmd)));
    if f.w.p.stopReq then f1.(at := Checking(Exit)) else Return(f1)
  }

  /** The result of a reply, just read. */
  function Judge(f: Fine): Fine {
    var w, p := f.w, f.w.p;
    if p.st == InitPend then
      Return(f.(w := if f.got == OkRes then w.(p := p.(st := Avail)) else Killed(w, Destroyed(p))))
    else if f.got != OkRes then Answered(f, p.cmd)
    else if p.cmd == Exit then Return(f.(w := Killed(w, Destroyed(p).(stopReq := false))))
    else f.(at := Clearing)
  }

  /** One access or system call of the parent; `sent` is the outcome of a write to the socket. */
  function Proceed(f: Fine, sent: bool): Fine {
    var w, p := f.w, f.w.p;
    match f.at
    case Out => f
    case Checking(c) => if w.st != H.IdleSt then Return(f) else f.(w := w.(p := p.(st := Busy)), at := Storing(c))
    case Storing(c) => f.(w := w.(p := p.(cmd := c)), at := Notifying(c))
    case Notifying(_) => Return(f.(w := if sent then w.(toChild := w.toChild + 1) else w.(p := p.(st := Dead))))
    case Taking => if w.toParent == 0 then f else f.(w := w.(toParent := w.toParent - 1), taken := true, at := Judging)
    case Judging => Judge(f.(got := w.res))
    case Clearing => Answered(f, NoCmd)
  }

  // ----- Interleavings -----

  datatype Action =
    | ChildMoves(ok: bool)
    | ChildCrashes
    | Polls(revents: Revents)
    | Calls(call: Call)
    | Proceeds(sent: bool)

  predicate Enabled(f: Fine, a: Action) {
    match a
    case Polls(revents) => f.at == Out && H.CanPoll(f.w, revents)
    case Calls(call) => f.at == Out && (call.ToSend? ==> IsFile(call.cmd))
    case _ => true
  }

  /** What an action does; one that cannot happen now changes nothing. */
  function Act(f: Fine, a: Action): Fine {
    if !Enabled(f, a) then f
    else match a
      case ChildMoves(ok) => f.(w := H.ChildStep(f.w, ok))
      case ChildCrashes => f.(w := f.w.(child := H.Gone))
      case Polls(revents) => f.(polled := revents)
      case Calls(call) => Begin(f, call)
      case Proceeds(sent) => Proceed(f, sent)
  }

  function Start(started: bool): Fine {
    var w := H.Spawn(started);
    Fine(w, Out, ToStop, w.p, false, NoRes, Quiet)
  }

  function Run(started: bool, actions: seq<Action>): Fine {
    if actions == [] then Start(started)
    else Act(Run(started, actions[..|actions| - 1]), actions[|actions| - 1])
  }

  // ----- Calls as single steps -----

  /** The worker as if the call that the parent is in had not begun. */
  function Before(f: Fine): H.Worker {
    if f.at == Out then f.w else f.w.(p := f.was, toParent := f.w.toParent + if f.taken then 1 else 0)
  }

  function Whole(call: Call, revents: Revents, sent: bool): H.Action {
    match call
    case ToSend(c) => H.Sends(c, sent)
    case ToStop => H.Stops(sent)
    case ToUpdate => H.Updates(revents, sent)
  }

  /** The step of `AfsHandshake` that an action stands for: a call is one step, made when it is over. */
  function StepOf(f: Fine, a: Action): Option<H.Action> {
    match a
    case ChildMoves(ok) => Some(H.ChildMoves(ok))
    case ChildCrashes => Some(H.ChildCrashes)
    case Polls(_) => None
    case Calls(call) => if Enabled(f, a) && Act(f, a).at == Out then Some(Whole(call, f.polled, true)) else None
    case Proceeds(sent) => if f.at != Out && Act(f, a).at == Out then Some(Whole(f.call, Readable, sent)) else None
  }

  function Trace(started: bool, actions: seq<Action>): seq<H.Action> {
    if actions == [] then []
    else
      var before := actions[..|actions| - 1];
      var step := StepOf(Run(started, before), actions[|actions| - 1]);
      Trace(started, before) + if step == None then [] else [step.value]
  }

  /** On the way to the child's byte. */
  predicate Sending(at: At) {
    at.Checking? || at.Storing? || at.Notifying?
  }

  /** The worker that a call sends a command to. */
  function Base(f: Fine): Proc {
    match f.call
    case ToSend(_) => f.was
    case ToStop => f.was.(stopReq := true)
    case ToUpdate => f.was.(st := Avail, cmd := if f.got == OkRes then NoCmd else f.was.cmd)
  }

  function Expected(f: Fine): Proc {
    match f.at
    case Checking(_) => Base(f)
    case Storing(_) => Base(f).(st := Busy)
    case Notifying(c) => Base(f).(st := Busy, cmd := c)
    case _ => f.was
  }

  predicate InUpdate(f: Fine) {
    && f.w.toParent + (if f.taken then 1 else 0) == 1 && (f.taken <==> f.at != Taking)
    && (f.was.st == Busy || (f.was.st == InitPend && !f.was.stopReq))
    && (f.at == Clearing || Sending(f.at) ==> f.was.st == Busy && f.was.cmd != Exit && f.got == f.w.res)
    && (f.at == Clearing ==> f.got == OkRes)
    && (Sending(f.at) ==> f.was.stopReq) && f.polled == Quiet
  }

  /** The parent is in a call. */
  predicate Paused(f: Fine) {
    && f.w.p == Expected(f)
    && (if f.call == ToUpdate then InUpdate(f) else Sending(f.at) && !f.taken && f.was.st == Avail)
    && (f.call == ToStop ==> !f.was.stopReq) && (f.call.ToSend? ==> IsFile(f.call.cmd))
    && (Sending(f.at) ==> f.at.cmd == if f.call.ToSend? then f.call.cmd else Exit)
  }

  predicate Inv(f: Fine) {
    && H.Inv(Before(f)) && H.CanPoll(Before(f), f.polled)
    && (f.at != Out ==> Paused(f))
  }

  /** While the parent is in a call the child has no signal and does no work. */
  lemma ChildRests(f: Fine)
    requires Inv(f) && f.at != Out
    ensures
      && f.w.toChild == 0 && !H.Working(f.w.child) && f.w.child != H.Starting
      && (f.w.child == H.Leaving ==> f.was.cmd == Exit && f.call == ToUpdate)
      && (f.call == ToUpdate ==> H.LastRan(Before(f)))
      && (Sending(f.at) ==> f.w.st == H.IdleSt)
  {
    if f.call == ToUpdate {
      H.ReplyTaken(Before(f));
      hide H.HistoryInv;
    }
  }

  // ----- Each action is those steps -----

  /** What has to be shown of each action. */
  predicate Explained(f: Fine, a: Action) {
    var f', step := Act(f, a), StepOf(f, a);
    Inv(f') && Before(f') == if step == None then Before(f) else H.Act(Before(f), step.value)
  }

  lemma ChildExplained(f: Fine, ok: bool)
    requires Inv(f)
    ensures Explained(f, ChildMoves(ok))
  {
    H.ChildKeeps(Before(f), ok);
    if f.at != Out {
      ChildRests(f);
    }
    hide H.Inv;
  }

  lemma CrashExplained(f: Fine)
    requires Inv(f)
    ensures Explained(f, ChildCrashes)
  {
    H.CrashKeeps(Before(f));
    hide H.Inv;
  }

  lemma PollExplained(f: Fine, revents: Revents)
    requires Inv(f)
    ensures Explained(f, Polls(revents))
  {
  }

  lemma SendBegins(f: Fine, c: Cmd)
    requires Inv(f) && f.at == Out && IsFile(c)
    ensures Explained(f, Calls(ToSend(c)))
  {
    H.SendKeeps(f.w, c, true);
    hide H.Inv;
  }

  lemma StopBegins(f: Fine)
    requires Inv(f) && f.at == Out
    ensures Explained(f, Calls(ToStop))
  {
    H.StopKeeps(f.w, true);
    hide H.Inv;
  }

  lemma ReadableOnce(f: Fine)
    requires Inv(f) && f.at == Out && f.polled == Readable && (f.w.p.st == Busy || f.w.p.st == InitPend)
    ensures f.w.toParent == 1
  {
  }

  lemma UpdateTakes(f: Fine)
    requires Inv(f) && f.at == Out && f.polled == Readable && (f.w.p.st == Busy || (f.w.p.st == InitPend && !f.w.p.stopReq))
    ensures Explained(f, Calls(ToUpdate))
  {
    ReadableOnce(f);
    hide H.Inv;
  }

  /** An update that takes no reply makes no access. */
  lemma UpdateAlone(p: Proc, revents: Revents, res: Res, idle: bool)
    requires !(revents == Readable && (p.st == Busy || (p.st == InitPend && !p.stopReq)))
    ensures
      var x := Update(p, Env(revents, res, idle, true));
      !x.read && !x.wrote && x == Update(p, Env(revents, res, true, true))
  {
  }

  lemma UpdateBegins(f: Fine)
    requires Inv(f) && f.at == Out
    ensures Explained(f, Calls(ToUpdate))
  {
    var p := f.w.p;
    if f.polled == Readable && (p.st == Busy || (p.st == InitPend && !p.stopReq)) {
      UpdateTakes(f);
    } else {
      H.UpdateKeeps(f.w, f.polled, true);
      UpdateAlone(p, f.polled, f.w.res, f.w.st == H.IdleSt);
      hide H.Inv, Update;
    }
  }

  lemma CheckProceeds(f: Fine, sent: bool)
    requires Inv(f) && f.at.Checking?
    ensures Explained(f, Proceeds(sent))
  {
    ChildRests(f);
    hide H.Inv;
  }

  lemma StoreProceeds(f: Fine, sent: bool)
    requires Inv(f) && f.at.Storing?
    ensures Explained(f, Proceeds(sent))
  {
    hide H.Inv;
  }

  lemma SendNotifies(f: Fine, sent: bool)
    requires Inv(f) && f.at.Notifying? && f.call.ToSend?
    ensures Explained(f, Proceeds(sent))
  {
    ChildRests(f);
    H.SendKeeps(Before(f), f.call.cmd, sent);
    hide H.Inv;
  }

  lemma StopNotifies(f: Fine, sent: bool)
    requires Inv(f) && f.at.Notifying? && f.call.ToStop?
    ensures Explained(f, Proceeds(sent))
  {
    ChildRests(f);
    H.StopKeeps(Before(f), sent);
    hide H.Inv;
  }

  /** What an update has made of a reply when its last step is done. */
  lemma UpdateNotifies(f: Fine, sent: bool)
    requires Inv(f) && f.at.Notifying? && f.call.ToUpdate?
    ensures Explained(f, Proceeds(sent))
  {
    ChildRests(f);
    H.UpdateKeeps(Before(f), Readable, sent);
    hide H.Inv;
  }

  lemma TakeProceeds(f: Fine, sent: bool)
    requires Inv(f) && f.at.Taking?
    ensures Explained(f, Proceeds(sent))
  {
    hide H.Inv;
  }

  lemma JudgeProceeds(f: Fine, sent: bool)
    requires Inv(f) && f.at.Judging?
    ensures Explained(f, Proceeds(sent))
  {
    ChildRests(f);
    H.UpdateKeeps(Before(f), Readable, sent);
    hide H.Inv;
  }

  lemma ClearProceeds(f: Fine, sent: bool)
    requires Inv(f) && f.at.Clearing?
    ensures Explained(f, Proceeds(sent))
  {
    ChildRests(f);
    H.UpdateKeeps(Before(f), Readable, sent);
    hide H.Inv;
  }

  lemma ProceedExplained(f: Fine, sent: bool)
    requires Inv(f)
    ensures Explained(f, Proceeds(sent))
  {
    hide Inv, Explained;
    match f.at
    case Out => NothingToDo(f, sent);
    case Checking(_) => CheckProceeds(f, sent);
    case Storing(_) => StoreProceeds(f, sent);
    case Notifying(_) =>
      match f.call {
        case ToSend(_) => SendNotifies(f, sent);
        case ToStop => StopNotifies(f, sent);
        case ToUpdate => UpdateNotifies(f, sent);
      }
    case Taking => TakeProceeds(f, sent);
    case Judging => JudgeProceeds(f, sent);
    case Clearing => ClearProceeds(f, sent);
  }

  lemma NothingToDo(f: Fine, sent: bool)
    requires Inv(f) && f.at == Out
    ensures Explained(f, Proceeds(sent))
  {
  }

  lemma Disabled(f: Fine, a: Action)
    requires Inv(f) && !Enabled(f, a)
    ensures Explained(f, a)
  {
  }

  lemma AnyExplained(f: Fine, a: Action)
    requires Inv(f)
    ensures Explained(f, a)
  {
    hide Inv, Explained;
    if !Enabled(f, a) {
      Disabled(f, a);
    } else {
      match a {
        case ChildMoves(ok) => ChildExplained(f, ok);
        case ChildCrashes => CrashExplained(f);
        case Polls(revents) => PollExplained(f, revents);
        case Calls(call) =>
          match call {
            case ToSend(c) => SendBegins(f, c);
            case ToStop => StopBegins(f);
            case ToUpdate => UpdateBegins(f);
          }
        case Proceeds(sent) => ProceedExplained(f, sent);
      }
    }
  }

  // ----- Every interleaving of single accesses -----

  lemma StartsWell(started: bool)
    ensures Inv(Start(started)) && Before(Start(started)) == H.Run(started, [])
  {
  }

  lemma SnocRun(started: bool, steps: seq<H.Action>, a: H.Action)
    ensures H.Run(started, steps + [a]) == H.Act(H.Run(started, steps), a)
  {
    hide H.Act;
    assert (steps + [a])[..|steps|] == steps;
  }

  /**
   Whatever both sides do, access by access: the worker, seen as if a call in
   progress had not begun, is the worker after a run of whole calls.
   */
  lemma {:induction false} CallsAreAtomic(started: bool, actions: seq<Action>)
    ensures
      var f := Run(started, actions);
      Inv(f) && Before(f) == H.Run(started, Trace(started, actions))
    decreases |actions|
  {
    if actions == [] {
      StartsWell(started);
    } else {
      var before, a := actions[..|actions| - 1], actions[|actions| - 1];
      CallsAreAtomic(started, before);
      var f := Run(started, before);
      AnyExplained(f, a);
      hide Inv, Act, Before, StepOf, H.Run;
      var step, steps := StepOf(f, a), Trace(started, before);
      if step == None {
        assert steps + [] == steps;
      } else {
        SnocRun(started, steps, step.value);
      }
    }
  }

  /** A field of the shared memory that both sides access. */
  datatype Cell = CmdCell | ResCell | StCell

  function ParentCells(at: At): set<Cell> {
    match at
    case Checking(_) => {StCell}
    case Storing(_) => {CmdCell}
    case Judging => {ResCell}
    case Clearing => {CmdCell}
    case _ => {}
  }

  function ChildCells(pc: H.Pc): set<Cell> {
    match pc
    case Starting => {StCell}
    case Woken => {StCell}
    case Clearing => {ResCell}
    case Deciding => {CmdCell}
    case Running(_) => {ResCell}
    case Marking(_) => {StCell}
    case Replying(_) => {StCell}
    case Leaving => {StCell}
    case Waiting => {}
    case Gone => {}
  }

  /**
   No races, no surprises: both sides are never about to access the same field; the
   parent never waits for its byte; the child's state that it checks is always
   idle; the result that it reads is that of the command the child carried out last;
   and a poll result is still true when it is used.
   */
  lemma AccessesSafe(started: bool, actions: seq<Action>)
    ensures
      var f := Run(started, actions);
      && ParentCells(f.at) !! ChildCells(f.w.child)
      && (f.at == Taking ==> f.w.toParent == 1)
      && (f.at.Checking? ==> f.w.st == H.IdleSt)
      && (f.at == Judging ==> f.w.ran == f.w.told + [H.Report(f.w.p.cmd, f.w.res == OkRes)])
      && H.CanPoll(Before(f), f.polled)
  {
    CallsAreAtomic(started, actions);
    hide Run, H.Inv;
    var f := Run(started, actions);
    if f.at != Out {
      ChildRests(f);
    }
  }
}
