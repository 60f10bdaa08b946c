/**
 A node of the list of workers of `src/afs.c` with the worker record inside it,
 updated in place and proved against `AfsProc`.
 */
module AfsProcObject {
  import opened AfsPool
  import opened AfsProc

  class Ps {
    var fd: int
    var deferred: Cmd
    var isAvail: bool
    var next: Ps?

    var st: St
    var stopReq: bool
    var cmd: Cmd
    var evs: seq<Event>

    ghost function Current(): Proc
      reads this
    {
      Proc(st, stopReq, cmd)
    }

    /** The node as a value of the specification. */
    ghost function Value(): Node
      reads this
    {
      Node(fd, Current(), deferred, isAvail)
    }

    constructor (fd: int)
      ensures Value() == Node(fd, Started(), NoCmd, false) && next == null
    {
      this.fd, deferred, isAvail, next := fd, NoCmd, false, null;
      st, stopReq, cmd, evs := InitPend, false, NoCmd, [];
    }

    /** A new process for a node whose last one is gone. */
    method Restart()
      modifies this`st, this`stopReq, this`cmd, this`evs
      ensures Current() == Started()
    {
      st, stopReq, cmd, evs := InitPend, false, NoCmd, [];
    }

    /** Queue an event; the queue holds three. */
    method AddEv(ev: Event) returns (ok: bool)
      modifies this`evs
      ensures ok <==> |old(evs)| < MAX_EVENTS
      ensures evs == if ok then old(evs) + [ev] else old(evs)
    {
      ok := |evs| < MAX_EVENTS;
      if ok {
        evs := evs + [ev];
      }
    }

    method Notify(sent: bool) returns (ok: bool)
      modifies this`st
      ensures Sent(Current(), ok) == AfsProc.Notify(old(Current()), sent)
    {
      ok := sent;
      if !ok {
        st := Dead;
      }
    }

    method Send(c: Cmd, e: Env) returns (ok: bool)
      modifies this`st, this`cmd
      ensures Sent(Current(), ok) == AfsProc.Send(old(Current()), c, e)
    {
      if st != Avail {
        return false;
      }
      if !e.idle {
        return false;
      }
      st := Busy;
      cmd := c;
      ok := Notify(e.sent);
    }

    method Destroy()
      modifies this`st, this`cmd
      ensures Current() == Destroyed(old(Current()))
    {
      cmd := NoCmd;
      st := Uninit;
    }

    method StopPrep(e: Env) returns (ok: bool)
      modifies this`st, this`cmd, this`stopReq
      ensures Sent(Current(), ok) == AfsProc.StopPrep(old(Current()), e)
    {
      if stopReq {
        return false;
      }
      stopReq := true;
      if st == Avail {
        ok := Send(Exit, e);
      } else {
        ok := st == Busy;
      }
    }

    method UpdateInitPend(e: Env) returns (ok: bool)
      requires st == InitPend && evs == []
      modifies this`st, this`stopReq, this`cmd, this`evs
      ensures var x := AfsProc.UpdateInitPend(old(Current()), e); Current() == x.p && evs == x.evs && ok == x.ok
    {
      var queued := true;
      ok := true;
      if stopReq {
        stopReq := false;
        Destroy();
        queued := AddEv(InitFailed);
        queued := AddEv(Stopped);
        ok := false;
      } else if e.revents == HungUp {
        Destroy();
        queued := AddEv(InitFailed);
        ok := false;
      } else if e.revents == Readable {
        if e.res == OkRes {
          st := Avail;
          queued := AddEv(InitDone);
        } else {
          Destroy();
          queued := AddEv(InitFailed);
          ok := false;
        }
      }
      assert queued;
    }

    /** Queue the event of a reply; an exit that succeeded ends the worker. */
    method TakeReply(e: Env) returns (ok: bool)
      requires st == Busy && evs == []
      modifies this`st, this`stopReq, this`cmd, this`evs
      ensures
        var p := old(Current());
        if e.res == OkRes && p.cmd == Exit then
          !ok && Current() == Destroyed(p).(stopReq := false) && evs == [InitDone]
        else
          && ok && Current() == p.(st := Avail, cmd := if e.res == OkRes then NoCmd else p.cmd)
          && evs == if e.res != OkRes then [FailEvent(p.cmd)] else if p.cmd == NoCmd then [] else [Done(p.cmd)]
    {
      var queued := true;
      if e.res == OkRes {
        if cmd == Exit {
          queued := AddEv(InitDone);
          stopReq := false;
          Destroy();
          return false;
        }
        if cmd != NoCmd {
          queued := AddEv(Done(cmd));
        }
        cmd := NoCmd;
      } else {
        queued := AddEv(FailEvent(cmd));
      }
      assert queued;
      st := Avail;
      ok := true;
    }

    method UpdateBusy(e: Env) returns (ok: bool)
      requires st == Busy && evs == []
      modifies this`st, this`stopReq, this`cmd, this`evs
      ensures var x := AfsProc.UpdateBusy(old(Current()), e); Current() == x.p && evs == x.evs && ok == x.ok
    {
      ok := true;
      if e.revents == HungUp {
        var queued := AddEv(FailEvent(cmd));
        assert queued;
        Destroy();
        ok := false;
      } else if e.revents == Readable {
        ok := TakeReply(e);
        if ok && stopReq {
          ok := Send(Exit, e);
        }
      }
    }

    /** One update of the worker. Its event queue starts empty and is never full, so queuing never fails. */
    method Update(e: Env) returns (ok: bool)
      modifies this`st, this`stopReq, this`cmd, this`evs
      ensures
        var x := AfsProc.Update(old(Current()), e);
        Current() == x.p && evs == x.evs && ok == x.ok
    {
      evs := [];
      ok := false;
      match st
      case InitPend => ok := UpdateInitPend(e);
      case Busy => ok := UpdateBusy(e);
      case Avail =>
        ok := e.revents != HungUp;
        if !ok {
          Destroy();
        }
      case Dead =>
        if stopReq {
          stopReq := false;
          var queued := AddEv(StopFailed);
          assert queued;
        }
        Destroy();
      case Uninit =>
        if stopReq {
          stopReq := false;
          var queued := AddEv(Stopped);
          assert queued;
        }
    }
  }
}
