/**
 The parent's side of one worker process of `src/afs.c`: how it sends commands
 and what it makes of a poll result. What lies outside the parent's control is
 the parameter `Env`.
 */
module AfsProc {

  datatype Cmd = NoCmd | Exit | Open | Close | Fsync | Write | ReadAll | Mkdir | WriteFsyncClose

  /** Commands that a client asks for. */
  predicate IsFile(c: Cmd) {
    c != NoCmd && c != Exit
  }

  datatype Res = NoRes | OkRes | FailRes

  datatype St = Uninit | InitPend | Avail | Busy | Dead

  datatype Revents = Quiet | Readable | HungUp

  datatype Event = InitDone | InitFailed | Stopped | StopFailed | Done(cmd: Cmd) | Failed(cmd: Cmd)

  /** `cmd` lies in the shared memory, but only the parent stores it. */
  datatype Proc = Proc(st: St, stopReq: bool, cmd: Cmd)

  /**
   What the parent meets: the poll result, the child's result and idleness in
   shared memory, and whether a byte written to the socket gets through.
   */
  datatype Env = Env(revents: Revents, res: Res, idle: bool, sent: bool)

  datatype Sent = Sent(p: Proc, ok: bool)

  /** An update: the events queued, success, and whether a byte was read from and written to the socket. */
  datatype Updated = Updated(p: Proc, evs: seq<Event>, ok: bool, read: bool, wrote: bool)

  const MAX_EVENTS := 3

  /** The event of a failed command. */
  function FailEvent(c: Cmd): Event {
    match c
    case NoCmd => InitFailed
    case Exit => StopFailed
    case _ => Failed(c)
  }

  function Started(): Proc {
    Proc(InitPend, false, NoCmd)
  }

  /** Wake the child up; the worker is given up if that fails. */
  function Notify(p: Proc, sent: bool): Sent {
    if sent then Sent(p, true) else Sent(p.(st := Dead), false)
  }

  function Send(p: Proc, c: Cmd, e: Env): Sent {
    if p.st != Avail || !e.idle then Sent(p, false) else Notify(p.(st := Busy, cmd := c), e.sent)
  }

  /** The child is killed and its memory unmapped. */
  function Destroyed(p: Proc): Proc {
    Proc(Uninit, p.stopReq, NoCmd)
  }

  function UpdateInitPend(p: Proc, e: Env): Updated {
    if p.stopReq then Updated(Destroyed(p).(stopReq := false), [InitFailed, Stopped], false, false, false)
    else match e.revents
      case HungUp => Updated(Destroyed(p), [InitFailed], false, false, false)
      case Readable =>
        if e.res == OkRes then Updated(p.(st := Avail), [InitDone], true, true, false)
        else Updated(Destroyed(p), [InitFailed], false, true, false)
      case Quiet => Updated(p, [], true, false, false)
  }

  function UpdateAvail(p: Proc, e: Env): Updated {
    if e.revents == HungUp then Updated(Destroyed(p), [], false, false, false)
    else Updated(p, [], true, false, false)
  }

  /** The reply to a command, and the exit command right after it if a stop was asked for. */
  function UpdateBusy(p: Proc, e: Env): Updated {
    match e.revents
    case HungUp => Updated(Destroyed(p), [FailEvent(p.cmd)], false, false, false)
    case Quiet => Updated(p, [], true, false, false)
    case Readable =>
      if e.res == OkRes && p.cmd == Exit then
        Updated(Destroyed(p).(stopReq := false), [InitDone], false, true, false)
      else
        var evs := if e.res != OkRes then [FailEvent(p.cmd)] else if p.cmd == NoCmd then [] else [Done(p.cmd)];
        var p1 := p.(st := Avail, cmd := if e.res == OkRes then NoCmd else p.cmd);
        if !p.stopReq then Updated(p1, evs, true, true, false)
        else
          var x := Send(p1, Exit, e);
          Updated(x.p, evs, x.ok, true, x.ok)
  }

  function UpdateDead(p: Proc): Updated {
    Updated(Destroyed(p).(stopReq := false), if p.stopReq then [StopFailed] else [], false, false, false)
  }

  function UpdateUninit(p: Proc): Updated {
    Updated(p.(stopReq := false), if p.stopReq then [Stopped] else [], false, false, false)
  }

  /** What one update does to a worker. */
  function Update(p: Proc, e: Env): Updated {
    match p.st
    case InitPend => UpdateInitPend(p, e)
    case Busy => UpdateBusy(p, e)
    case Avail => UpdateAvail(p, e)
    case Dead => UpdateDead(p)
    case Uninit => UpdateUninit(p)
  }

  /** A stop request: an idle worker is told to exit at once, a busy one after its command. */
  function StopPrep(p: Proc, e: Env): Sent {
    if p.stopReq then Sent(p, false)
    else
      var p1 := p.(stopReq := true);
      match p.st
      case Avail => Send(p1, Exit, e)
      case Busy => Sent(p1, true)
      case _ => Sent(p1, false)
  }
}
