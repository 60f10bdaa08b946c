/**
 The whole-file write of `src/afs.c` across both processes. The handshake of
 `AfsHandshake` is extended by the memory that a request and its worker share; the
 worker reads its length, its path and flags and each piece of its payload in
 steps of their own, and other calls of the client may store into that memory
 between any two of them.
 */
module AfsWholeFile {
  import opened AfsProc
  import opened CStrings
  import D = AfsDurable
  import H = AfsHandshake

  /** A request, or what the worker has read of one. */
  datatype Request = Request(path: string, flags: int, payload: string)

  /** How far the worker is with a whole-file write. */
  datatype Job =
    | Begin
    | Sized(len: nat)
    | Cleared(len: nat)
    | Writing(len: nat, at: nat)
    | Syncing(len: nat)
    | Closing(len: nat, ok: bool)

  /**
   The two processes; the command held back for a starting worker; the shared
   length, flags, buffer and count; the worker's progress and what it has done to
   its file; the request accepted last, what the worker has read for it, and
   whether all that was as asked.
   */
  datatype World = World(
    h: H.Worker,
    deferred: Cmd,
    len: nat,
    flags: int,
    buf: string,
    written: nat,
    job: Job,
    ops: seq<D.Op>,
    asked: Request,
    seen: Request,
    steady: bool)

  const NOTHING := Request("", 0, "")

  function Start(sent: bool, buf: string): World {
    World(H.Spawn(sent), NoCmd, 0, 0, buf, 0, Begin, [], NOTHING, NOTHING, true)
  }

  // ----- The worker -----

  function Min(a: int, b: int): int {
    if a < b then a else b
  }

  /** `n` characters from `at` on, as far as there are any. */
  function Piece(s: string, at: nat, n: nat): string {
    s[Min(at, |s|)..Min(at + n, |s|)]
  }

  /** The C string at `at`. */
  function PathAt(buf: string, at: nat): string {
    CString(buf[Min(at, |buf|)..])
  }

  function Finish(w: World, ok: bool): World {
    w.(h := H.ChildStep(w.h, ok), job := Begin)
  }

  /** One step of a whole-file write: `ok` and `r` say what the system does. */
  function JobStep(w: World, ok: bool, r: D.WriteResult): World {
    match w.job
    case Begin =>
      w.(job := Sized(w.len), ops := [], seen := NOTHING, steady := w.steady && w.len == |w.asked.payload|)
    case Sized(l) => w.(job := Cleared(l), written := 0)
    case Cleared(l) =>
      if !ok then Finish(w, false)
      else
        var path := PathAt(w.buf, l);
        w.(job := Writing(l, 0), ops := [D.Opened(path, w.flags)], seen := Request(path, w.flags, ""),
           steady := w.steady && path == w.asked.path && w.flags == w.asked.flags)
    case Writing(l, at) => WriteStep(w, l, at, r)
    case Syncing(l) => w.(job := Closing(l, ok), ops := w.ops + [if ok then D.Synced else D.SyncFailed])
    case Closing(l, good) => Finish(w.(ops := w.ops + [D.Closed]), good)
  }

  function WriteStep(w: World, l: nat, at: nat, r: D.WriteResult): World {
    match r
    case Error => w.(job := Closing(l, false))
    case Interrupted => w
    case Wrote(n) =>
      if at > l then w
      else
        var m := Min(n, l - at);
        var data := Piece(w.buf, at, m);
        w.(job := if m == l - at then Syncing(l) else Writing(l, at + m),
           ops := w.ops + [D.Put(data)],
           written := w.written + m,
           seen := w.seen.(payload := w.seen.payload + data),
           steady := w.steady && data == Piece(w.asked.payload, at, m))
  }

  /** One step of the worker's process; a plain write leaves some count behind. */
  function WorkerStep(w: World, ok: bool, r: D.WriteResult, n: nat): World {
    if w.h.child == H.Running(WriteFsyncClose) then JobStep(w, ok, r)
    else w.(h := H.ChildStep(w.h, ok), job := Begin, written := if w.h.child == H.Running(Write) then n else w.written)
  }

  // ----- The parent -----

  predicate Fits(w: World, path: string, len: nat) {
    w.h.p.st != Uninit && len + |path| + 1 <= |w.buf|
  }

  /** Length, flags and path go into the memory before the worker's state is looked at. */
  function Stored(w: World, path: string, flags: int, len: nat): World
    requires Fits(w, path, len)
  {
    w.(len := len, flags := flags, buf := w.buf[..len] + path + ['\0'] + w.buf[len + |path| + 1..])
  }

  function AskWhole(w: World, path: string, flags: int, len: nat, sent: bool): World {
    if !Fits(w, path, len) then w
    else
      var w1, req := Stored(w, path, flags, len), Request(path, flags, w.buf[..len]);
      match w.h.p.st
      case Avail =>
        var w2 := w1.(h := H.ParentSends(w.h, WriteFsyncClose, sent));
        if w2.h.p.st == Busy then w2.(asked := req, steady := true) else w2
      case InitPend => w1.(deferred := WriteFsyncClose, asked := req, steady := true)
      case _ => w1
  }

  /** Was a request accepted, to be sent now or once the worker has started? */
  predicate Accepts(w: World, path: string, flags: int, len: nat, sent: bool) {
    Fits(w, path, len) && (w.h.p.st == InitPend || (w.h.p.st == Avail && AskWhole(w, path, flags, len, sent).h.p.st == Busy))
  }

  /** An update; a worker that has started gets the command held back for it. */
  function UpdateStep(w: World, revents: Revents, sent: bool): World
    requires H.CanPoll(w.h, revents)
  {
    var h := H.ParentUpdates(w.h, revents, sent);
    if w.h.p.st == InitPend && h.p.st == Avail && w.deferred != NoCmd then
      w.(h := H.ParentSends(h, w.deferred, sent), deferred := NoCmd)
    else w.(h := h, deferred := if h.p.st == InitPend then w.deferred else NoCmd, job := if h.p.st == Uninit then Begin else w.job)
  }

  // ----- Interleavings -----

  datatype Action =
    | Works(ok: bool, r: D.WriteResult, n: nat)
    | Crashes
    | Sends(cmd: Cmd, sent: bool)
    | Defers(cmd: Cmd)
    | Stops(sent: bool)
    | Updates(revents: Revents, sent: bool)
    | Asks(path: string, flags: int, len: nat, sent: bool)
    | StoresLen(len: nat)
    | StoresFlags(flags: int)
    | StoresChar(at: nat, c: char)

  /** What can happen: poll tells the truth, paths are C strings, stores stay in the mapped memory. */
  predicate Enabled(w: World, a: Action) {
    match a
    case Updates(revents, _) => H.CanPoll(w.h, revents)
    case Sends(cmd, _) => IsFile(cmd) && cmd != WriteFsyncClose
    case Defers(cmd) => (cmd == Open || cmd == Mkdir) && w.h.p.st == InitPend
    case Asks(path, _, _, _) => NoNul(path)
    case StoresLen(len) => len <= |w.buf| && w.h.p.st != Uninit
    case StoresFlags(_) => w.h.p.st != Uninit
    case StoresChar(at, _) => at < |w.buf| && w.h.p.st != Uninit
    case _ => true
  }

  /** What an action does; one that cannot happen now changes nothing. */
  function Act(w: World, a: Action): World {
    if !Enabled(w, a) then w
    else match a
      case Works(ok, r, n) => WorkerStep(w, ok, r, n)
      case Crashes => w.(h := w.h.(child := H.Gone), job := Begin)
      case Sends(cmd, sent) => w.(h := H.ParentSends(w.h, cmd, sent))
      case Defers(cmd) => w.(deferred := cmd)
      case Stops(sent) => w.(h := H.ParentStops(w.h, sent))
      case Updates(revents, sent) => UpdateStep(w, revents, sent)
      case Asks(path, flags, len, sent) => AskWhole(w, path, flags, len, sent)
      case StoresLen(len) => w.(len := len)
      case StoresFlags(flags) => w.(flags := flags)
      case StoresChar(at, c) => w.(buf := w.buf[at := c])
  }

  function Run(w: World, actions: seq<Action>): World
    decreases |actions|
  {
    if actions == [] then w else Run(Act(w, actions[0]), actions[1..])
  }

  // ----- What every interleaving keeps -----

  /** What has been read agrees with what was asked so far. */
  predicate AsAsked(asked: Request, seen: Request, l: nat, at: nat) {
    l == |asked.payload| && seen == Request(asked.path, asked.flags, Piece(asked.payload, 0, at))
  }

  /** The file is open and has got what was read. */
  predicate Filled(w: World, l: nat, at: nat, ops: seq<D.Op>) {
    && at <= l <= |w.buf| && w.written == at == |w.seen.payload|
    && |ops| >= 1 && ops[0] == D.Opened(w.seen.path, w.seen.flags)
    && D.OnlyPuts(ops[1..]) && D.Content(ops[1..]) == w.seen.payload
    && (w.steady <==> AsAsked(w.asked, w.seen, l, at))
  }

  predicate JobInv(w: World) {
    match w.job
    case Begin => w.steady
    case Sized(l) => l <= |w.buf| && (w.steady <==> l == |w.asked.payload|)
    case Cleared(l) => l <= |w.buf| && w.written == 0 && (w.steady <==> l == |w.asked.payload|)
    case Writing(l, at) => Filled(w, l, at, w.ops)
    case Syncing(l) => Filled(w, l, l, w.ops)
    case Closing(l, ok) => ok ==> w.ops != [] && w.ops[|w.ops| - 1] == D.Synced && Filled(w, l, l, w.ops[..|w.ops| - 1])
  }

  /** A whole-file write that succeeded: what was read is durable, and the count is its length. */
  predicate DoneInv(w: World) {
    && D.Durable(w.ops, w.seen.path, w.seen.flags, w.seen.payload)
    && w.written == |w.seen.payload|
    && (w.steady <==> w.seen == w.asked)
  }

  /** The command has been sent and the worker has not come to it yet. */
  predicate OnTheWay(h: H.Worker) {
    h.p.st == Busy && h.p.cmd == WriteFsyncClose && !H.Carried(h) && !h.child.Running? && h.child != H.Gone
  }

  /** The worker has carried the command out with success. */
  predicate Succeeded(h: H.Worker) {
    h.p.st == Busy && h.p.cmd == WriteFsyncClose && H.Carried(h) && h.res == OkRes
  }

  predicate Inv(w: World) {
    && H.Inv(w.h) && w.len <= |w.buf|
    && (w.deferred != NoCmd ==> w.h.p.st == InitPend) && (w.deferred == WriteFsyncClose ==> w.steady)
    && (if w.h.child == H.Running(WriteFsyncClose) then JobInv(w) else w.job == Begin)
    && (OnTheWay(w.h) ==> w.steady)
    && (Succeeded(w.h) ==> DoneInv(w))
  }

  // ----- Steps of the worker -----

  /** Outside a whole-file write the worker reads nothing that matters here. */
  lemma WorkerKeeps(w: World, ok: bool, r: D.WriteResult, n: nat)
    requires Inv(w) && w.h.child != H.Running(WriteFsyncClose)
    ensures Inv(WorkerStep(w, ok, r, n))
  {
    H.ChildKeeps(w.h, ok);
    hide D.Durable;
  }

  lemma InJob(w: World)
    requires Inv(w) && w.h.child == H.Running(WriteFsyncClose)
    ensures w.deferred == NoCmd && !OnTheWay(w.h) && !Succeeded(w.h)
  {
  }

  /** A step inside the write only has to keep what the write itself needs. */
  lemma StaysInJob(w: World, w': World)
    requires Inv(w) && w.h.child == H.Running(WriteFsyncClose)
    requires w'.h == w.h && w'.deferred == w.deferred && w'.len == w.len && w'.buf == w.buf && JobInv(w')
    ensures Inv(w')
  {
    InJob(w);
    hide H.Inv, OnTheWay, Succeeded, JobInv;
  }

  lemma FinishKeeps(w: World, ok: bool)
    requires Inv(w) && w.h.child == H.Running(WriteFsyncClose) && (ok ==> DoneInv(w))
    ensures Inv(Finish(w, ok))
  {
    H.ChildKeeps(w.h, ok);
    hide D.Durable, JobInv;
  }

  lemma OpenKeeps(w: World, ok: bool, r: D.WriteResult)
    requires Inv(w) && w.h.child == H.Running(WriteFsyncClose) && w.job.Cleared?
    ensures Inv(JobStep(w, ok, r))
  {
    if ok {
      var w' := JobStep(w, ok, r);
      hide Inv, CString;
      assert w'.ops[1..] == [] && D.Content([]) == "" && Piece(w.asked.payload, 0, 0) == "";
      assert JobInv(w);
      StaysInJob(w, w');
    } else {
      FinishKeeps(w, false);
    }
  }

  lemma PieceGrows(s: string, at: nat, m: nat, data: string, sofar: string)
    requires |sofar| == at && |data| == m && at + m <= |s|
    ensures sofar + data == Piece(s, 0, at + m) <==> sofar == Piece(s, 0, at) && data == Piece(s, at, m)
  {
    assert Piece(s, 0, at + m) == Piece(s, 0, at) + Piece(s, at, m);
    if sofar + data == Piece(s, 0, at + m) {
      assert (sofar + data)[..at] == sofar && (sofar + data)[at..] == data;
    }
  }

  lemma PutGrows(ops: seq<D.Op>, data: string)
    requires |ops| >= 1
    ensures (ops + [D.Put(data)])[1..] == ops[1..] + [D.Put(data)]
    ensures D.OnlyPuts(ops[1..]) ==> D.OnlyPuts(ops[1..] + [D.Put(data)])
    ensures D.Content(ops[1..] + [D.Put(data)]) == D.Content(ops[1..]) + data
  {
    D.ContentConcat(ops[1..], [D.Put(data)]);
    assert [D.Put(data)][1..] == [];
    assert D.Content([D.Put(data)]) == data + D.Content([]);
  }

  lemma WrittenSteady(asked: Request, seen: Request, l: nat, at: nat, data: string)
    requires at + |data| <= l && |seen.payload| == at
    ensures AsAsked(asked, seen.(payload := seen.payload + data), l, at + |data|) <==>
            AsAsked(asked, seen, l, at) && data == Piece(asked.payload, at, |data|)
  {
    if l == |asked.payload| {
      PieceGrows(asked.payload, at, |data|, data, seen.payload);
    }
    hide Piece;
  }

  lemma WrittenKeeps(w: World, l: nat, at: nat, n: nat)
    requires Filled(w, l, at, w.ops)
    ensures
      var w' := WriteStep(w, l, at, D.Wrote(n));
      Filled(w', l, at + Min(n, l - at), w'.ops)
  {
    var m := Min(n, l - at);
    var data := Piece(w.buf, at, m);
    assert |data| == m;
    PutGrows(w.ops, data);
    WrittenSteady(w.asked, w.seen, l, at, data);
    hide D.Content, D.OnlyPuts, Piece, AsAsked;
  }

  lemma FilledBounds(w: World, l: nat, at: nat)
    requires Filled(w, l, at, w.ops)
    ensures at <= l
  {
  }

  lemma WriteStays(w: World, ok: bool, r: D.WriteResult)
    requires JobInv(w) && w.job.Writing?
    ensures
      var w' := JobStep(w, ok, r);
      w'.h == w.h && w'.deferred == w.deferred && w'.len == w.len && w'.buf == w.buf && JobInv(w')
  {
    hide Filled, Piece, Finish, PathAt;
    FilledBounds(w, w.job.len, w.job.at);
    if r.Wrote? {
      WrittenKeeps(w, w.job.len, w.job.at, r.n);
    }
  }

  lemma WriteKeeps(w: World, ok: bool, r: D.WriteResult)
    requires Inv(w) && w.h.child == H.Running(WriteFsyncClose) && w.job.Writing?
    ensures Inv(JobStep(w, ok, r))
  {
    assert JobInv(w);
    hide Inv, JobInv, JobStep;
    WriteStays(w, ok, r);
    StaysInJob(w, JobStep(w, ok, r));
  }

  /** A closed file that was filled and synced is durable. */
  lemma ClosedDurable(w: World, l: nat)
    requires w.ops != [] && w.ops[|w.ops| - 1] == D.Synced && Filled(w, l, l, w.ops[..|w.ops| - 1])
    requires |w.ops| >= 2
    ensures DoneInv(w.(ops := w.ops + [D.Closed]))
  {
    var ops := w.ops + [D.Closed];
    assert ops[1..|ops| - 2] == w.ops[..|w.ops| - 1][1..];
    hide D.Content, D.OnlyPuts;
    assert |w.ops| >= 2;
    assert l == |w.asked.payload| ==> Piece(w.asked.payload, 0, l) == w.asked.payload;
  }

  lemma CloseKeeps(w: World, ok: bool, r: D.WriteResult)
    requires Inv(w) && w.h.child == H.Running(WriteFsyncClose) && w.job.Closing?
    ensures Inv(JobStep(w, ok, r))
  {
    assert JobInv(w);
    var w1 := w.(ops := w.ops + [D.Closed]);
    hide Filled, D.Durable;
    if w.job.ok {
      assert |w.ops| >= 2 by { FilledOpened(w, w.job.len, w.ops[..|w.ops| - 1]); }
      ClosedDurable(w, w.job.len);
    }
    FinishClosed(w);
  }

  lemma FilledOpened(w: World, l: nat, ops: seq<D.Op>)
    requires Filled(w, l, l, ops)
    ensures |ops| >= 1
  {
  }

  lemma FinishClosed(w: World)
    requires Inv(w) && w.h.child == H.Running(WriteFsyncClose) && w.job.Closing?
    requires w.job.ok ==> DoneInv(w.(ops := w.ops + [D.Closed]))
    ensures Inv(Finish(w.(ops := w.ops + [D.Closed]), w.job.ok))
  {
    H.ChildKeeps(w.h, w.job.ok);
    hide D.Durable, JobInv;
  }

  lemma JobKeeps(w: World, ok: bool, r: D.WriteResult)
    requires Inv(w) && w.h.child == H.Running(WriteFsyncClose)
    ensures Inv(JobStep(w, ok, r))
  {
    match w.job {
      case Cleared(_) => OpenKeeps(w, ok, r);
      case Writing(_, _) => WriteKeeps(w, ok, r);
      case Closing(_, _) => CloseKeeps(w, ok, r);
      case Syncing(l) =>
        assert JobInv(w) && w.len <= |w.buf|;
        var w' := JobStep(w, ok, r);
        assert w'.ops[..|w'.ops| - 1] == w.ops;
        hide Inv;
        StaysInJob(w, w');
      case _ =>
        assert JobInv(w) && w.len <= |w.buf|;
        hide Inv;
        StaysInJob(w, JobStep(w, ok, r));
    }
  }

  // ----- Steps of the parent -----

  lemma CrashKeeps(w: World)
    requires Inv(w)
    ensures Inv(w.(h := w.h.(child := H.Gone), job := Begin))
  {
    H.CrashKeeps(w.h);
    hide D.Durable, JobInv;
  }

  lemma SendKeeps(w: World, cmd: Cmd, sent: bool)
    requires Inv(w) && cmd != NoCmd && (cmd == WriteFsyncClose ==> w.steady)
    ensures Inv(w.(h := H.ParentSends(w.h, cmd, sent)))
  {
    H.SendKeeps(w.h, cmd, sent);
    hide D.Durable, JobInv;
  }

  lemma StopKeeps(w: World, sent: bool)
    requires Inv(w)
    ensures Inv(w.(h := H.ParentStops(w.h, sent)))
  {
    H.StopKeeps(w.h, sent);
    hide D.Durable, JobInv;
  }

  /** The part of an update before a command held back is sent. */
  function Refreshed(w: World, revents: Revents, sent: bool): World
    requires H.CanPoll(w.h, revents)
  {
    var h := H.ParentUpdates(w.h, revents, sent);
    w.(h := h, deferred := if h.p.st == InitPend then w.deferred else NoCmd, job := if h.p.st == Uninit then Begin else w.job)
  }

  lemma RefreshKeeps(w: World, revents: Revents, sent: bool)
    requires Inv(w) && H.CanPoll(w.h, revents)
    ensures Inv(Refreshed(w, revents, sent))
  {
    H.UpdateKeeps(w.h, revents, sent);
    hide D.Durable, JobInv, H.LastRan, H.InOrder;
  }

  lemma UpdateKeeps(w: World, revents: Revents, sent: bool)
    requires Inv(w) && H.CanPoll(w.h, revents)
    ensures Inv(UpdateStep(w, revents, sent))
  {
    RefreshKeeps(w, revents, sent);
    var w1 := Refreshed(w, revents, sent);
    if w.h.p.st == InitPend && w1.h.p.st == Avail && w.deferred != NoCmd {
      assert w.deferred == WriteFsyncClose ==> w.steady;
      hide Inv, H.ParentUpdates, H.ParentSends;
      SendKeeps(w1, w.deferred, sent);
    }
  }

  /** A store changes nothing that has been read already. */
  lemma StoreKeeps(w: World, len: nat, flags: int, buf: string)
    requires Inv(w) && |buf| == |w.buf| && len <= |buf|
    ensures Inv(w.(len := len, flags := flags, buf := buf))
  {
    hide D.Durable, D.Content, D.OnlyPuts, H.Inv;
  }

  /** A new request is taken only when none is on its way. */
  lemma AskedKeeps(w: World, req: Request)
    requires Inv(w) && (w.h.p.st == Avail || w.h.p.st == InitPend)
    ensures Inv(w.(asked := req, steady := true))
  {
    hide D.Durable, JobInv;
  }

  lemma AskKeeps(w: World, path: string, flags: int, len: nat, sent: bool)
    requires Inv(w)
    ensures Inv(AskWhole(w, path, flags, len, sent))
  {
    if Fits(w, path, len) {
      var w1, req := Stored(w, path, flags, len), Request(path, flags, w.buf[..len]);
      StoreKeeps(w, len, flags, w1.buf);
      assert w1 == w.(len := len, flags := flags, buf := w1.buf);
      if w.h.p.st == Avail {
        AskedKeeps(w1, req);
        SendKeeps(w1.(asked := req, steady := true), WriteFsyncClose, sent);
        if H.ParentSends(w.h, WriteFsyncClose, sent).p.st != Busy {
          RefusedKeeps(w1, sent);
        }
      } else if w.h.p.st == InitPend {
        AskedKeeps(w1, req);
        hide JobInv;
      }
    }
    hide Inv;
  }

  /** A signal that cannot be written gives the worker up, whatever was asked before. */
  lemma RefusedKeeps(w: World, sent: bool)
    requires Inv(w) && w.h.p.st == Avail && H.ParentSends(w.h, WriteFsyncClose, sent).p.st != Busy
    ensures Inv(w.(h := H.ParentSends(w.h, WriteFsyncClose, sent)))
  {
    H.SendKeeps(w.h, WriteFsyncClose, sent);
    hide D.Durable, JobInv;
  }

  // ----- Every run -----

  lemma ActKeeps(w: World, a: Action)
    requires Inv(w)
    ensures Inv(Act(w, a))
  {
    hide WorkerStep, UpdateStep, AskWhole, H.ParentSends, H.ParentStops;
    if Enabled(w, a) {
      match a {
        case Works(ok, r, n) =>
          if w.h.child == H.Running(WriteFsyncClose) {
            JobKeeps(w, ok, r);
          } else {
            WorkerKeeps(w, ok, r, n);
          }
          WorkerStepIs(w, ok, r, n);
        case Crashes => CrashKeeps(w);
        case Sends(cmd, sent) => SendKeeps(w, cmd, sent);
        case Defers(cmd) => hide JobInv;
        case Stops(sent) => StopKeeps(w, sent);
        case Updates(revents, sent) => UpdateKeeps(w, revents, sent);
        case Asks(path, flags, len, sent) => AskKeeps(w, path, flags, len, sent);
        case StoresLen(len) => StoreKeeps(w, len, w.flags, w.buf);
        case StoresFlags(flags) => StoreKeeps(w, w.len, flags, w.buf);
        case StoresChar(at, c) => StoreKeeps(w, w.len, w.flags, w.buf[at := c]);
      }
    }
  }

  lemma WorkerStepIs(w: World, ok: bool, r: D.WriteResult, n: nat)
    ensures w.h.child == H.Running(WriteFsyncClose) ==> WorkerStep(w, ok, r, n) == JobStep(w, ok, r)
  {
    hide JobStep;
  }

  lemma {:induction false} RunKeeps(w: World, actions: seq<Action>)
    requires Inv(w)
    ensures Inv(Run(w, actions))
    decreases |actions|
  {
    hide Inv, Act;
    if actions != [] {
      ActKeeps(w, actions[0]);
      RunKeeps(Act(w, actions[0]), actions[1..]);
    }
  }

  lemma StartInv(sent: bool, buf: string)
    ensures Inv(Start(sent, buf))
  {
  }

  lemma {:induction false} RunConcat(w: World, a: seq<Action>, b: seq<Action>)
    ensures Run(w, a + b) == Run(Run(w, a), b)
    decreases |a|
  {
    hide Act;
    if a == [] {
      assert a + b == b;
    } else {
      assert (a + b)[1..] == a[1..] + b;
      RunConcat(Act(w, a[0]), a[1..], b);
    }
  }

  /** The next update can take a reply that tells the client of a whole-file write done. */
  predicate TellsDone(w: World, sent: bool) {
    w.h.toParent > 0 && Done(WriteFsyncClose) in Update(w.h.p, H.Meets(w.h, Readable, sent)).evs
  }

  /** The accepted request is durable, and the length the event reports is its length. */
  predicate Fulfilled(w: World) {
    && D.Durable(w.ops, w.asked.path, w.asked.flags, w.asked.payload)
    && w.written == |w.asked.payload|
  }

  lemma OneDurable(ops: seq<D.Op>, a: Request, b: Request)
    requires D.Durable(ops, a.path, a.flags, a.payload)
    ensures D.Durable(ops, b.path, b.flags, b.payload) <==> a == b
  {
    hide D.Content, D.OnlyPuts;
  }

  /**
   Over every interleaving of client, parent and worker, with crashes and with
   stores into the shared memory at any point: when the parent is about to tell
   that a whole-file write is done, what the worker has read is durable. The
   request that was accepted, at once or deferred, is durable and the length told
   is its length, if and only if the worker found each length, path, flag and piece
   of payload as asked at the moment it read it.
   */
  lemma DoneMeansDurable(started: bool, buf: string, actions: seq<Action>, sent: bool)
    ensures
      var w := Run(Start(started, buf), actions);
      TellsDone(w, sent) ==>
        && D.Durable(w.ops, w.seen.path, w.seen.flags, w.seen.payload) && w.written == |w.seen.payload|
        && (Fulfilled(w) <==> w.steady)
  {
    StartInv(started, buf);
    RunKeeps(Start(started, buf), actions);
    hide Run, D.Durable;
    var w := Run(Start(started, buf), actions);
    if TellsDone(w, sent) {
      TellsSucceeded(w, sent);
      OneDurable(w.ops, w.seen, w.asked);
    }
  }

  lemma TellsSucceeded(w: World, sent: bool)
    requires Inv(w) && TellsDone(w, sent)
    ensures DoneInv(w)
  {
    hide D.Durable, JobInv;
    assert w.h.p.st == Busy && w.h.p.cmd == WriteFsyncClose && w.h.res == OkRes;
    assert H.Carried(w.h);
  }

  // ----- A client that leaves the memory alone -----

  /** Flags, path and payload are in the memory as asked. */
  predicate BodyKept(flags: int, buf: string, asked: Request) {
    && flags == asked.flags && |asked.payload| <= |buf|
    && PathAt(buf, |asked.payload|) == asked.path && buf[..|asked.payload|] == asked.payload
  }

  /** All that the worker has still to read for the request is in the memory as asked. */
  predicate Intact(w: World) {
    if w.deferred == WriteFsyncClose || OnTheWay(w.h) then w.len == |w.asked.payload| && BodyKept(w.flags, w.buf, w.asked)
    else if w.h.child != H.Running(WriteFsyncClose) then true
    else match w.job
      case Begin => w.len == |w.asked.payload| && BodyKept(w.flags, w.buf, w.asked)
      case Sized(_) => BodyKept(w.flags, w.buf, w.asked)
      case Cleared(_) => BodyKept(w.flags, w.buf, w.asked)
      case Writing(l, at) => at <= |w.asked.payload| <= |w.buf| && w.buf[at..|w.asked.payload|] == w.asked.payload[at..]
      case _ => true
  }

  /** Actions of the client that store into the memory. */
  predicate Touches(a: Action) {
    a.Asks? || a.StoresLen? || a.StoresFlags? || a.StoresChar?
  }

  /** Each store leaves what the worker has still to read, and the request, as it was asked. */
  predicate AllLeave(w: World, actions: seq<Action>)
    decreases |actions|
  {
    actions == [] ||
    (&& (Touches(actions[0]) ==> Intact(Act(w, actions[0])) && Act(w, actions[0]).asked == w.asked)
     && AllLeave(Act(w, actions[0]), actions[1..]))
  }

  /** With the memory as asked, what is read is as asked. */
  predicate Calm(w: World) {
    w.steady && Intact(w)
  }

  lemma PieceKept(buf: string, s: string, at: nat, m: nat)
    requires at + m <= |s| <= |buf| && buf[at..|s|] == s[at..]
    ensures Piece(buf, at, m) == Piece(s, at, m) && buf[at + m..|s|] == s[at + m..]
  {
    assert buf[at..|s|][..m] == buf[at..at + m] && s[at..][..m] == s[at..at + m];
    assert buf[at..|s|][m..] == buf[at + m..|s|] && s[at..][m..] == s[at + m..];
  }

  lemma WriteCalm(w: World, ok: bool, r: D.WriteResult)
    requires Calm(w) && w.h.child == H.Running(WriteFsyncClose) && !OnTheWay(w.h) && w.deferred == NoCmd
    requires w.job.Writing? && w.job.at <= w.job.len == |w.asked.payload|
    ensures Calm(JobStep(w, ok, r)) && JobStep(w, ok, r).asked == w.asked
  {
    hide OnTheWay;
    if r.Wrote? {
      PieceKept(w.buf, w.asked.payload, w.job.at, Min(r.n, w.job.len - w.job.at));
    }
  }

  lemma JobCalm(w: World, ok: bool, r: D.WriteResult)
    requires Inv(w) && Calm(w) && w.h.child == H.Running(WriteFsyncClose)
    ensures Calm(JobStep(w, ok, r)) && JobStep(w, ok, r).asked == w.asked
  {
    InJob(w);
    assert JobInv(w);
    hide Inv, CString, D.Content, D.OnlyPuts;
    if w.job.Writing? {
      WriteCalm(w, ok, r);
    } else {
      hide OnTheWay;
      if w.job.Cleared? {
        assert w.buf[0..|w.asked.payload|] == w.buf[..|w.asked.payload|];
      }
      FinishedCalm(w, ok);
      hide WriteStep;
    }
  }

  lemma FinishedCalm(w: World, ok: bool)
    requires w.h.child == H.Running(WriteFsyncClose)
    ensures !OnTheWay(H.ChildStep(w.h, ok)) && H.ChildStep(w.h, ok).child != H.Running(WriteFsyncClose)
  {
  }

  lemma WorkerCalm(w: World, ok: bool, r: D.WriteResult, n: nat)
    requires Inv(w) && Calm(w) && w.h.child != H.Running(WriteFsyncClose)
    ensures Calm(WorkerStep(w, ok, r, n)) && WorkerStep(w, ok, r, n).asked == w.asked
  {
    hide D.Durable, CString, BodyKept, H.HistoryInv;
  }

  lemma UpdateCalm(w: World, revents: Revents, sent: bool)
    requires Inv(w) && Calm(w) && H.CanPoll(w.h, revents)
    ensures Calm(UpdateStep(w, revents, sent)) && UpdateStep(w, revents, sent).asked == w.asked
  {
    hide D.Durable, BodyKept, H.HistoryInv;
  }

  lemma OtherCalm(w: World, a: Action)
    requires Inv(w) && Calm(w) && !Touches(a) && !a.Works? && !a.Updates?
    ensures Calm(Act(w, a)) && Act(w, a).asked == w.asked
  {
    hide D.Durable, BodyKept, H.HistoryInv;
  }

  lemma ActCalm(w: World, a: Action)
    requires Inv(w) && Calm(w)
    requires Touches(a) ==> Intact(Act(w, a)) && Act(w, a).asked == w.asked
    ensures Calm(Act(w, a)) && Act(w, a).asked == w.asked
  {
    if Touches(a) {
      TouchSteady(w, a);
    } else if a.Works? {
      hide Inv, Calm, JobStep, WorkerStep;
      WorkerStepIs(w, a.ok, a.r, a.n);
      if w.h.child == H.Running(WriteFsyncClose) {
        JobCalm(w, a.ok, a.r);
      } else {
        WorkerCalm(w, a.ok, a.r, a.n);
      }
    } else if a.Updates? {
      hide Inv, Calm, UpdateStep;
      if H.CanPoll(w.h, a.revents) {
        UpdateCalm(w, a.revents, a.sent);
      }
    } else {
      OtherCalm(w, a);
    }
    hide Inv, Calm, Act;
  }

  lemma TouchSteady(w: World, a: Action)
    requires w.steady && Touches(a)
    ensures Act(w, a).steady
  {
    hide H.ParentSends;
  }

  lemma {:induction false} RunCalm(w: World, actions: seq<Action>)
    requires Inv(w) && Calm(w) && AllLeave(w, actions)
    ensures Calm(Run(w, actions)) && Run(w, actions).asked == w.asked
    decreases |actions|
  {
    hide Inv, Calm, Act, Intact;
    if actions != [] {
      ActCalm(w, actions[0]);
      ActKeeps(w, actions[0]);
      RunCalm(Act(w, actions[0]), actions[1..]);
    }
  }

  lemma AcceptedCalm(w: World, path: string, flags: int, len: nat, sent: bool)
    requires Inv(w) && NoNul(path) && Accepts(w, path, flags, len, sent)
    ensures
      var w1 := AskWhole(w, path, flags, len, sent);
      Calm(w1) && w1.asked == Request(path, flags, w.buf[..len])
  {
    var w1, rest := AskWhole(w, path, flags, len, sent), w.buf[len + |path| + 1..];
    assert w1.buf == w.buf[..len] + path + ['\0'] + rest;
    assert w1.buf[len..] == path + ['\0'] + rest && w1.buf[..len] == w.buf[..len];
    CStringOf(path, rest);
    hide CString, JobInv, D.Durable, H.HistoryInv;
  }

  /**
   The durable write from end to end. A request that is accepted in any state that
   any run reaches, sent at once or held back for a starting worker, and then any
   interleaving with crashes in which every store of the client leaves what the
   worker has still to read: if the client is told that the write is done, the file
   at the path asked for, opened with the flags asked for, has got exactly the
   payload, was synced and then closed, and the length told is the length asked for.
   */
  lemma RequestIsDurable(started: bool, buf: string, before: seq<Action>, path: string, flags: int, len: nat,
                         now: bool, after: seq<Action>, sent: bool)
    requires NoNul(path)
    ensures
      var w0 := Run(Start(started, buf), before);
      var w1 := Act(w0, Asks(path, flags, len, now));
      var w := Run(w1, after);
      Accepts(w0, path, flags, len, now) && AllLeave(w1, after) && TellsDone(w, sent) ==>
        D.Durable(w.ops, path, flags, w0.buf[..len]) && w.written == len
  {
    hide Run, AskWhole, D.Durable, AllLeave, TellsDone, Accepts, Calm;
    StartInv(started, buf);
    RunKeeps(Start(started, buf), before);
    var w0 := Run(Start(started, buf), before);
    var w1 := Act(w0, Asks(path, flags, len, now));
    var w := Run(w1, after);
    ActKeeps(w0, Asks(path, flags, len, now));
    RunKeeps(w1, after);
    hide Inv;
    if Accepts(w0, path, flags, len, now) && AllLeave(w1, after) && TellsDone(w, sent) {
      AcceptedCalm(w0, path, flags, len, now);
      RunCalm(w1, after);
      TellsSucceeded(w, sent);
      CalmSteady(w);
      AcceptsFits(w0, path, flags, len, now);
      assert w.seen == w.asked == Request(path, flags, w0.buf[..len]);
    }
  }

  lemma CalmSteady(w: World)
    requires Calm(w)
    ensures w.steady
  {
  }

  lemma AcceptsFits(w: World, path: string, flags: int, len: nat, sent: bool)
    requires Accepts(w, path, flags, len, sent)
    ensures len <= |w.buf|
  {
  }

  // ----- Stores by refused calls -----

  /** The command has been sent and the worker is still waiting for the signal. */
  predicate Signalled(w: World) {
    && w.h.p.st == Busy && w.h.p.cmd == WriteFsyncClose && w.h.child == H.Waiting && w.h.st == H.IdleSt
    && w.h.toChild == 1 && w.h.toParent == 0 && w.job == Begin && w.len <= |w.buf|
  }

  /** A step of the worker in which every call of the system does all it is asked. */
  function Goes(l: nat): Action {
    Works(true, D.Wrote(l), 0)
  }

  function Times(l: nat, n: nat): seq<Action> {
    if n == 0 then [] else [Goes(l)] + Times(l, n - 1)
  }

  function Four(w: World, l: nat): World {
    Act(Act(Act(Act(w, Goes(l)), Goes(l)), Goes(l)), Goes(l))
  }

  lemma TimesStep(w: World, l: nat, n: nat)
    requires n > 0
    ensures Run(w, Times(l, n)) == Run(Act(w, Goes(l)), Times(l, n - 1))
  {
    hide Act;
    assert Times(l, n)[1..] == Times(l, n - 1);
  }

  lemma RunsFour(w: World, l: nat, n: nat)
    ensures Run(w, Times(l, n + 4)) == Run(Four(w, l), Times(l, n))
  {
    hide Act, Run;
    TimesStep(w, l, n + 4);
    TimesStep(Act(w, Goes(l)), l, n + 3);
    TimesStep(Act(Act(w, Goes(l)), Goes(l)), l, n + 2);
    TimesStep(Act(Act(Act(w, Goes(l)), Goes(l)), Goes(l)), l, n + 1);
  }

  lemma Wakes(w: World, l: nat)
    requires Signalled(w)
    ensures
      Four(w, l) ==
      w.(h := w.h.(toChild := 0, st := H.BusySt, res := NoRes, child := H.Running(WriteFsyncClose)))
  {
  }

  lemma JobGoes(w: World, l: nat)
    requires w.h.child == H.Running(WriteFsyncClose)
    ensures Act(w, Goes(l)) == JobStep(w, true, D.Wrote(l))
  {
    hide JobStep;
  }

  lemma OpensFile(w: World, r: D.WriteResult)
    requires w.job == Begin
    ensures
      var w1 := JobStep(w, true, r);
      var w2 := JobStep(w1, true, r);
      var w3 := JobStep(w2, true, r);
      && w1.h == w2.h == w3.h == w.h && w3.asked == w.asked && w3.buf == w.buf && w3.written == 0
      && w3.job == Writing(w.len, 0) && w3.ops == [D.Opened(PathAt(w.buf, w.len), w.flags)]
  {
    hide PathAt;
  }

  lemma WritesAll(w: World, l: nat)
    requires w.job == Writing(l, 0) && l <= |w.buf| && w.written == 0 && |w.ops| == 1
    ensures
      var w' := JobStep(w, true, D.Wrote(l));
      && w'.h == w.h && w'.asked == w.asked && w'.job == Syncing(l) && w'.written == l
      && w'.ops == [w.ops[0], D.Put(w.buf[..l])]
  {
    assert Piece(w.buf, 0, l) == w.buf[..l];
  }

  lemma Opens(w: World, l: nat)
    requires w.h.child == H.Running(WriteFsyncClose) && w.job == Begin && w.len == l <= |w.buf|
    ensures
      var w' := Four(w, l);
      && w'.h == w.h && w'.asked == w.asked && w'.job == Syncing(w.len) && w'.written == w.len
      && w'.ops == [D.Opened(PathAt(w.buf, w.len), w.flags), D.Put(w.buf[..w.len])]
  {
    hide Act, JobStep, PathAt;
    var w1 := Act(w, Goes(l));
    var w2 := Act(w1, Goes(l));
    OpensFile(w, D.Wrote(l));
    JobGoes(w, l);
    JobGoes(w1, l);
    JobGoes(w2, l);
    JobGoes(Act(w2, Goes(l)), l);
    WritesAll(Act(w2, Goes(l)), l);
  }

  lemma Replies(w: World, l: nat)
    requires w.h.child == H.Running(WriteFsyncClose) && w.job.Syncing?
    ensures
      var w' := Four(w, l);
      && w'.h.p == w.h.p && w'.h.res == OkRes && w'.h.toParent == w.h.toParent + 1
      && w'.asked == w.asked && w'.written == w.written && w'.ops == w.ops + [D.Synced, D.Closed]
  {
    var w2 := Act(Act(w, Goes(l)), Goes(l));
    assert w2.ops == w.ops + [D.Synced] + [D.Closed] && w2.h == H.ChildStep(w.h, true);
  }

  lemma RunsTwelve(w: World, l: nat)
    ensures Run(w, Times(l, 12)) == Four(Four(Four(w, l), l), l)
  {
    hide Four, Run, Times;
    RunsFour(w, l, 8);
    RunsFour(Four(w, l), l, 4);
    RunsFour(Four(Four(w, l), l), l, 0);
    RunNone(Four(Four(Four(w, l), l), l), l);
  }

  lemma TellsWhenReplied(w: World)
    requires w.h.p.st == Busy && w.h.p.cmd == WriteFsyncClose && w.h.res == OkRes && w.h.toParent == 1
    ensures TellsDone(w, true)
  {
    var evs := Update(w.h.p, H.Meets(w.h, Readable, true)).evs;
    assert evs == [Done(WriteFsyncClose)];
  }

  /** Left to itself, a worker does what its memory says then. */
  lemma Completes(w: World)
    requires Signalled(w)
    ensures
      var w' := Run(w, Times(w.len, 12));
      && TellsDone(w', true) && w'.asked == w.asked && w'.written == w.len
      && D.Durable(w'.ops, PathAt(w.buf, w.len), w.flags, w.buf[..w.len])
  {
    hide Four, Run, CString, TellsDone, D.Content;
    var l := w.len;
    RunsTwelve(w, l);
    Wakes(w, l);
    Opens(Four(w, l), l);
    Replies(Four(Four(w, l), l), l);
    var w' := Run(w, Times(l, 12));
    TellsWhenReplied(w');
    var data := w.buf[..l];
    assert w'.ops == [D.Opened(PathAt(w.buf, l), w.flags), D.Put(data), D.Synced, D.Closed];
    assert w'.ops[1..|w'.ops| - 2] == [D.Put(data)];
    PutOnly(data);
  }

  lemma RunNone(w: World, l: nat)
    ensures Run(w, []) == w && Times(l, 0) == []
  {
  }

  lemma PutOnly(data: string)
    ensures D.OnlyPuts([D.Put(data)]) && D.Content([D.Put(data)]) == data
  {
    assert [D.Put(data)][1..] == [];
  }

  lemma LeftAlone(w: World)
    requires Signalled(w) && Intact(w)
    ensures
      var w' := Run(w, Times(w.len, 12));
      TellsDone(w', true) && w'.asked == w.asked && Fulfilled(w')
  {
    hide Run, D.Durable, CString, TellsDone;
    Completes(w);
  }

  /** The request has been accepted, and the worker has not read any of it. */
  predicate Unread(w: World) {
    w.deferred == WriteFsyncClose || OnTheWay(w.h)
  }

  /** The request that the memory holds now. */
  function InMemory(w: World): Request {
    Request(PathAt(w.buf, w.len), w.flags, Piece(w.buf, 0, w.len))
  }

  lemma PieceTakes(s: string, n: nat)
    requires n <= |s|
    ensures Piece(s, 0, n) == s[..n]
  {
  }

  predicate NoStores(actions: seq<Action>) {
    forall a <- actions :: !Touches(a)
  }

  /** The same but for what was asked. */
  predicate Alike(w: World, v: World) {
    v == w.(asked := v.asked, steady := v.steady)
  }

  lemma JobAlike(w: World, v: World, ok: bool, r: D.WriteResult)
    requires Alike(w, v)
    ensures Alike(JobStep(w, ok, r), JobStep(v, ok, r)) && JobStep(w, ok, r).asked == w.asked
  {
    hide H.ChildStep, PathAt, Piece;
  }

  lemma ActAlike(w: World, v: World, a: Action)
    requires Alike(w, v) && !Touches(a)
    ensures Alike(Act(w, a), Act(v, a)) && Act(w, a).asked == w.asked
  {
    hide JobStep, H.ChildStep, H.ParentUpdates, H.ParentSends, H.ParentStops;
    if a.Works? {
      JobAlike(w, v, a.ok, a.r);
    }
  }

  lemma {:induction false} RunAlike(w: World, v: World, actions: seq<Action>)
    requires Alike(w, v) && NoStores(actions)
    ensures Alike(Run(w, actions), Run(v, actions)) && Run(w, actions).asked == w.asked
    decreases |actions|
  {
    hide Act, Alike;
    if actions != [] {
      ActAlike(w, v, actions[0]);
      RunAlike(Act(w, actions[0]), Act(v, actions[0]), actions[1..]);
    }
  }

  lemma {:induction false} NoStoresLeave(w: World, actions: seq<Action>)
    requires NoStores(actions)
    ensures AllLeave(w, actions)
    decreases |actions|
  {
    hide Act, Intact;
    if actions != [] {
      NoStoresLeave(Act(w, actions[0]), actions[1..]);
    }
  }

  /** Had the client asked for what the memory holds, all would be as asked. */
  lemma AsIfAsked(w: World)
    requires Inv(w) && Unread(w)
    ensures
      var v := w.(asked := InMemory(w), steady := true);
      Inv(v) && Calm(v) && Alike(w, v)
  {
    PieceTakes(w.buf, w.len);
    hide H.HistoryInv, CString, D.Durable, Piece;
    assert !Succeeded(w.h) && w.h.child != H.Running(WriteFsyncClose);
  }

  lemma MemoryWritten(w: World, after: seq<Action>, sent: bool)
    requires Inv(w) && Unread(w) && NoStores(after)
    ensures
      var w', q := Run(w, after), InMemory(w);
      TellsDone(w', sent) ==>
        && D.Durable(w'.ops, q.path, q.flags, q.payload) && w'.written == |q.payload|
        && w'.asked == w.asked && (Fulfilled(w') <==> q == w.asked)
  {
    var v := w.(asked := InMemory(w), steady := true);
    AsIfAsked(w);
    hide Inv, Run, Unread, D.Durable, CString, Calm, AllLeave;
    var w', v' := Run(w, after), Run(v, after);
    RunAlike(w, v, after);
    RunKeeps(v, after);
    NoStoresLeave(v, after);
    RunCalm(v, after);
    CalmSteady(v');
    if TellsDone(w', sent) {
      TellsSucceeded(v', sent);
      OneDurable(w'.ops, InMemory(w), w.asked);
    }
  }

  /**
   What is in the memory when the worker wakes up decides, whoever stored it. After any
   run that ends before the worker reads the request, and then any interleaving with
   short and interrupted writes, failures and crashes but without another store: when
   the write is told as done, the file is the one that the memory asked for; it is the
   one the client asked for if and only if the two are the same.
   */
  lemma MemoryDecides(started: bool, buf: string, before: seq<Action>, after: seq<Action>, sent: bool)
    ensures
      var w := Run(Start(started, buf), before);
      var w' := Run(w, after);
      Unread(w) && NoStores(after) && TellsDone(w', sent) ==>
        var q := InMemory(w);
        && D.Durable(w'.ops, q.path, q.flags, q.payload) && w'.written == |q.payload|
        && w'.asked == w.asked && (Fulfilled(w') <==> q == w.asked)
  {
    StartInv(started, buf);
    RunKeeps(Start(started, buf), before);
    hide Run, Inv, D.Durable, CString, Fulfilled, TellsDone;
    var w := Run(Start(started, buf), before);
    if Unread(w) && NoStores(after) {
      MemoryWritten(w, after, sent);
    }
  }

  /**
   A refused `afs_write` before the worker reads the request, and then any interleaving
   without another store: when the write is told as done, the request is durable with
   its length told if and only if the length of the refused write happens to be the same.
   */
  lemma RefusedWrite(started: bool, buf: string, before: seq<Action>, other: nat, after: seq<Action>, sent: bool)
    ensures
      var w := Run(Start(started, buf), before);
      var w' := Run(Act(w, StoresLen(other)), after);
      Unread(w) && Intact(w) && other <= |w.buf| && NoStores(after) && TellsDone(w', sent) ==>
        w'.asked == w.asked && (Fulfilled(w') <==> other == |w.asked.payload|)
  {
    StartInv(started, buf);
    RunKeeps(Start(started, buf), before);
    var w := Run(Start(started, buf), before);
    hide Run;
    if Unread(w) && Intact(w) && other <= |w.buf| && NoStores(after) {
      var w1 := w.(len := other);
      assert Act(w, StoresLen(other)) == w1 && Unread(w1);
      ActKeeps(w, StoresLen(other));
      MemoryWritten(w1, after, sent);
      PieceTakes(w.buf, other);
      hide D.Durable, CString, Fulfilled, TellsDone, Inv, Piece;
    }
  }

  /**
   A second whole-file write, refused because the worker is busy, before the worker reads
   the first, and then any interleaving without another store: when the first is told as
   done, it is durable if and only if the second asked for the same path and flags and its
   length takes in the same payload.
   */
  lemma RefusedWhole(started: bool, buf: string, before: seq<Action>, path: string, flags: int, len: nat,
                     now: bool, after: seq<Action>, sent: bool)
    requires NoNul(path)
    ensures
      var w := Run(Start(started, buf), before);
      var w' := Run(Act(w, Asks(path, flags, len, now)), after);
      OnTheWay(w.h) && Fits(w, path, len) && NoStores(after) && TellsDone(w', sent) ==>
        && !Accepts(w, path, flags, len, now) && w'.asked == w.asked
        && (Fulfilled(w') <==> Request(path, flags, w.buf[..len]) == w.asked)
  {
    StartInv(started, buf);
    RunKeeps(Start(started, buf), before);
    var w := Run(Start(started, buf), before);
    hide Run, Inv, D.Durable, CString, Fulfilled, TellsDone, Act;
    if OnTheWay(w.h) && Fits(w, path, len) && NoStores(after) {
      StoredIs(w, path, flags, len, now);
      ActKeeps(w, Asks(path, flags, len, now));
      var w1 := Act(w, Asks(path, flags, len, now));
      MemoryWritten(w1, after, sent);
      PieceTakes(w1.buf, len);
    }
  }

  lemma StoredIs(w: World, path: string, flags: int, len: nat, sent: bool)
    requires w.h.p.st == Busy && Fits(w, path, len) && NoNul(path)
    ensures
      var w1 := Act(w, Asks(path, flags, len, sent));
      && w1 == w.(buf := w1.buf, len := len, flags := flags) && len <= |w1.buf|
      && PathAt(w1.buf, len) == path && w1.buf[..len] == w.buf[..len]
  {
    var w1, rest := Stored(w, path, flags, len), w.buf[len + |path| + 1..];
    assert Act(w, Asks(path, flags, len, sent)) == w1;
    assert w1.buf[len..] == path + ['\0'] + rest && w1.buf[..len] == w.buf[..len];
    CStringOf(path, rest);
  }

  lemma {:induction false} TimesStoreNothing(l: nat, n: nat)
    ensures NoStores(Times(l, n))
  {
    if n > 0 {
      TimesStoreNothing(l, n - 1);
    }
  }

  lemma SignalledAgain(w: World, path: string, flags: int, len: nat, sent: bool)
    requires Signalled(w) && Fits(w, path, len) && NoNul(path)
    ensures
      var w1 := Act(w, Asks(path, flags, len, sent));
      Signalled(w1) && w1.len == len
  {
    StoredIs(w, path, flags, len, sent);
    hide Act, CString;
  }

  // ----- A worker from its start -----

  /** A worker that has started and answered, and is available. */
  predicate Idle(w: World, buf: string) {
    && w.h.p == Proc(Avail, false, NoCmd) && w.h.child == H.Waiting && w.h.st == H.IdleSt
    && w.h.toChild == 0 && w.h.toParent == 0 && w.job == Begin && w.deferred == NoCmd && w.buf == buf
  }

  lemma StartsOne(w: World)
    requires w.h.child == H.Starting && w.h.st == H.NotStarted && w.h.toChild == 1
    ensures Four(w, 0) == w.(h := w.h.(toChild := 0, st := H.BusySt, res := NoRes, child := H.Deciding), job := Begin)
  {
  }

  lemma StartsTwo(w: World)
    requires w.h.child == H.Deciding && w.h.p.cmd == NoCmd
    ensures
      var h := Four(w, 0).h;
      && Four(w, 0) == w.(h := h, job := Begin) && h.p == w.h.p && h.res == OkRes && h.st == H.IdleSt
      && h.child == H.Waiting && h.toChild == w.h.toChild && h.toParent == w.h.toParent + 1
  {
  }

  lemma StartsThree(w: World)
    requires w.h.p == Started() && w.h.res == OkRes && w.h.st == H.IdleSt && w.h.child == H.Waiting
    requires w.h.toChild == 0 && w.h.toParent == 1 && w.job == Begin && w.deferred == NoCmd
    ensures Idle(Act(w, Updates(Readable, true)), w.buf)
  {
  }

  lemma StartsUp(buf: string)
    ensures Idle(Run(Start(true, buf), Times(0, 8) + [Updates(Readable, true)]), buf)
  {
    var w := Start(true, buf);
    hide Four, Act, Idle, Times;
    RunConcat(w, Times(0, 8), [Updates(Readable, true)]);
    hide Run;
    var w1 := Four(w, 0);
    var w2 := Four(w1, 0);
    StartsOne(w);
    StartsTwo(w1);
    StartsThree(w2);
    RunsFour(w, 0, 4);
    RunsFour(w1, 0, 0);
    RunNone(w2, 0);
    RunSingle(w2, Updates(Readable, true));
  }

  lemma RunSingle(w: World, a: Action)
    ensures Run(w, [a]) == Act(w, a)
  {
    hide Act;
    assert [a][1..] == [];
  }

  /** The request that the examples below ask for. */
  const ASK := Asks("p", 7, 1, true)

  lemma AsksOnce(w: World)
    requires Idle(w, "abcdef")
    ensures
      var w1 := Act(w, ASK);
      Signalled(w1) && w1.deferred == NoCmd && w1.buf == "ap\0def" && w1.len == 1 && w1.flags == 7 && w1.asked == Request("p", 7, "a")
  {
    assert "abcdef"[..1] == "a" && "abcdef"[3..] == "def";
    assert "a" + "p" + ['\0'] + "def" == "ap\0def";
  }

  function ToSignal(): seq<Action> {
    Times(0, 8) + [Updates(Readable, true)] + [ASK]
  }

  lemma ToSignalled()
    ensures
      var w := Run(Start(true, "abcdef"), ToSignal());
      Signalled(w) && w.buf == "ap\0def" && w.len == 1 && w.asked == Request("p", 7, "a") && Intact(w)
  {
    hide Run, Act, Times;
    StartsUp("abcdef");
    RunConcat(Start(true, "abcdef"), Times(0, 8) + [Updates(Readable, true)], [ASK]);
    var w0 := Run(Start(true, "abcdef"), Times(0, 8) + [Updates(Readable, true)]);
    RunSingle(w0, ASK);
    AsksOnce(w0);
    assert "ap\0def"[1..] == "p" + ['\0'] + "def" && "ap\0def"[..1] == "a";
    CStringOf("p", "def");
  }

  /** From the start of a worker: a refused write of length 0 empties the file, and the client is told it is done. */
  lemma WriteEmptied()
    ensures
      var w := Run(Start(true, "abcdef"), ToSignal() + [StoresLen(0)] + Times(0, 12));
      TellsDone(w, true) && w.asked == Request("p", 7, "a") && !Fulfilled(w) && w.written == 0
  {
    ToSignalled();
    var w := Run(Start(true, "abcdef"), ToSignal());
    hide Run, Times, ToSignal, Fulfilled, TellsDone;
    RunConcat(Start(true, "abcdef"), ToSignal(), [StoresLen(0)]);
    RunSingle(w, StoresLen(0));
    var w1 := Act(w, StoresLen(0));
    RunConcat(Start(true, "abcdef"), ToSignal() + [StoresLen(0)], Times(0, 12));
    RefusedWrite(true, "abcdef", ToSignal(), 0, Times(0, 12), true);
    TimesStoreNothing(0, 12);
    Completes(w1);
  }

  /** A second request, refused, is written instead of the first, and the client is told the first is done. */
  lemma WriteReplaced()
    ensures
      var w := Run(Start(true, "abcdef"), ToSignal() + [Asks("q", 7, 1, true)] + Times(1, 12));
      TellsDone(w, true) && w.asked == Request("p", 7, "a") && !Fulfilled(w)
  {
    ToSignalled();
    var w := Run(Start(true, "abcdef"), ToSignal());
    hide Run, Times, ToSignal, Fulfilled, TellsDone, Act;
    RunConcat(Start(true, "abcdef"), ToSignal(), [Asks("q", 7, 1, true)]);
    RunSingle(w, Asks("q", 7, 1, true));
    RunConcat(Start(true, "abcdef"), ToSignal() + [Asks("q", 7, 1, true)], Times(1, 12));
    RefusedWhole(true, "abcdef", ToSignal(), "q", 7, 1, true, Times(1, 12), true);
    TimesStoreNothing(1, 12);
    SignalledAgain(w, "q", 7, 1, true);
    Completes(Act(w, Asks("q", 7, 1, true)));
  }

  /** Left alone, the same request is fulfilled. */
  lemma WriteFulfilled()
    ensures
      var w := Run(Start(true, "abcdef"), ToSignal() + Times(1, 12));
      TellsDone(w, true) && w.asked == Request("p", 7, "a") && Fulfilled(w)
  {
    ToSignalled();
    var w := Run(Start(true, "abcdef"), ToSignal());
    RunConcat(Start(true, "abcdef"), ToSignal(), Times(1, 12));
    hide Run, Times, ToSignal, TellsDone, Fulfilled, Signalled, Intact;
    LeftAlone(w);
  }
}
