/**
 The whole-file write of `src/afs.c`: the parent puts the payload and the path
 into one shared buffer, and the worker process opens the file, writes the
 payload through any number of short or interrupted writes, syncs and closes.
 */
module AfsDurable {
  import opened CStrings

  /** What one `write` of the system may do. */
  datatype WriteResult = Wrote(n: nat) | Interrupted | Error

  /** What happens to the file. */
  datatype Op = Opened(path: string, flags: int) | Put(data: string) | Synced | SyncFailed | Closed

  /** How a command of the worker process ends, if it has ended. */
  datatype End = Success | Failure | Unfinished

  /** The C type `size_t`. */
  type Size = n: int | 0 <= n < SIZE_LIMIT witness 0
  const SIZE_LIMIT := 0x1_0000_0000_0000_0000

  datatype Outcome = Outcome(ops: seq<Op>, end: End)

  // ----- What the worker process does -----

  /** Write `data`, given what each call to the system does; it never takes more than it is given. */
  function PutAll(data: string, os: seq<WriteResult>): Outcome
    decreases |os|
  {
    if os == [] then Outcome([], Unfinished)
    else match os[0]
      case Error => Outcome([], Failure)
      case Interrupted => PutAll(data, os[1..])
      case Wrote(n) =>
        if n >= |data| then Outcome([Put(data)], Success)
        else
          var x := PutAll(data[n..], os[1..]);
          Outcome([Put(data[..n])] + x.ops, x.end)
  }

  function Session(path: string, flags: int, data: string, openOk: bool, os: seq<WriteResult>, syncOk: bool): Outcome {
    if !openOk then Outcome([], Failure)
    else
      var x := PutAll(data, os);
      var ops := [Opened(path, flags)] + x.ops;
      match x.end
      case Unfinished => Outcome(ops, Unfinished)
      case Failure => Outcome(ops + [Closed], Failure)
      case Success => Outcome(ops + [if syncOk then Synced else SyncFailed, Closed], if syncOk then Success else Failure)
  }

  // ----- What success means -----

  /** All the data put into the file. */
  function Content(ops: seq<Op>): string {
    if ops == [] then ""
    else (if ops[0].Put? then ops[0].data else "") + Content(ops[1..])
  }

  predicate OnlyPuts(ops: seq<Op>) {
    forall i | 0 <= i < |ops| :: ops[i].Put?
  }

  /** The file was opened, got exactly `data`, was synced and only then closed. */
  predicate Durable(ops: seq<Op>, path: string, flags: int, data: string) {
    && |ops| >= 3
    && ops[0] == Opened(path, flags)
    && OnlyPuts(ops[1..|ops| - 2]) && Content(ops[1..|ops| - 2]) == data
    && ops[|ops| - 2] == Synced && ops[|ops| - 1] == Closed
  }

  /** Short and interrupted writes put the data in order, all of it on success and a beginning of it otherwise. */
  lemma {:induction false} PutsInOrder(data: string, os: seq<WriteResult>)
    ensures
      var x := PutAll(data, os);
      && OnlyPuts(x.ops) && Content(x.ops) <= data
      && (x.end == Success ==> Content(x.ops) == data)
    decreases |os|
  {
    if os != [] {
      match os[0] {
        case Error =>
        case Interrupted => PutsInOrder(data, os[1..]);
        case Wrote(n) =>
          if n >= |data| {
            assert [Put(data)][1..] == [];
          } else {
            PutsInOrder(data[n..], os[1..]);
            var x := PutAll(data[n..], os[1..]);
            assert ([Put(data[..n])] + x.ops)[1..] == x.ops;
            assert data == data[..n] + data[n..];
          }
      }
    }
  }

  /** Opening, syncing and closing put nothing into the file. */
  lemma SessionContent(path: string, flags: int, data: string, openOk: bool, os: seq<WriteResult>, syncOk: bool)
    ensures
      var p, x := PutAll(data, os), Session(path, flags, data, openOk, os, syncOk);
      Content(x.ops) == if openOk then Content(p.ops) else ""
  {
    hide PutAll;
    var p, x := PutAll(data, os), Session(path, flags, data, openOk, os, syncOk);
    if openOk {
      var tail := if p.end == Unfinished then [] else if p.end == Failure then [Closed]
        else [if syncOk then Synced else SyncFailed, Closed];
      assert x.ops == [Opened(path, flags)] + p.ops + tail;
      hide Content;
      ContentConcat([Opened(path, flags)] + p.ops, tail);
      ContentConcat([Opened(path, flags)], p.ops);
      NoContent(tail);
      NoContent([Opened(path, flags)]);
    }
  }

  lemma NothingPut()
    ensures Content([]) == ""
  {
  }

  /**
   Success is reported exactly if the write is durable: the file at the path was
   opened, received exactly the payload in order, was synced and then closed,
   however the payload was split up. And a file that was opened is always closed.
   */
  lemma SuccessMeansDurable(path: string, flags: int, data: string, openOk: bool, os: seq<WriteResult>, syncOk: bool)
    ensures
      var x := Session(path, flags, data, openOk, os, syncOk);
      && (x.end == Success <==> Durable(x.ops, path, flags, data))
      && (x.ops != [] && x.end != Unfinished ==> x.ops[|x.ops| - 1] == Closed)
  {
    var p, x := PutAll(data, os), Session(path, flags, data, openOk, os, syncOk);
    PutsInOrder(data, os);
    hide PutAll, Content;
    if openOk {
      var last := if p.ops == [] then Opened(path, flags) else p.ops[|p.ops| - 1];
      assert !last.Synced? && !last.Closed?;
      match p.end {
        case Success => assert x.ops[1..|x.ops| - 2] == p.ops;
        case Failure => assert x.ops[|x.ops| - 2] == last;
        case Unfinished => assert x.ops[|x.ops| - 1] == last;
      }
    }
  }

  lemma {:induction false} ContentConcat(a: seq<Op>, b: seq<Op>)
    ensures Content(a + b) == Content(a) + Content(b)
  {
    if a == [] {
      assert a + b == b;
    } else {
      assert (a + b)[1..] == a[1..] + b;
      ContentConcat(a[1..], b);
    }
  }

  lemma {:induction false} NoContent(ops: seq<Op>)
    requires forall op <- ops :: !op.Put?
    ensures Content(ops) == ""
  {
    if ops != [] {
      NoContent(ops[1..]);
    }
  }

  // ----- The shared memory -----

  datatype Prepared = Ready | TooLong | OutOfBounds

  /** The memory that the parent and the worker process share, and what has happened to the worker's file. */
  class Shared {
    const buf: array<char>
    var writeLen: Size
    var openFlags: int
    var written: nat
    var log: seq<Op>

    ghost predicate Valid()
      reads this
    {
      writeLen <= buf.Length < SIZE_LIMIT
    }

    /** The path the worker process will open: the C string behind the payload. */
    ghost function Path(): string
      requires Valid()
      reads this, buf
    {
      CString(buf[writeLen..])
    }

    ghost function Payload(): string
      requires Valid()
      reads this, buf
    {
      buf[..writeLen]
    }

    /** Copy a path with its NUL to offset `at`. */
    method CopyPath(path: string, at: nat)
      requires at + |path| + 1 <= buf.Length
      modifies buf
      ensures buf[..at] == old(buf[..at])
      ensures buf[at..] == path + ['\0'] + old(buf[at + |path| + 1..])
    {
      var i := 0;
      while i <= |path|
        invariant 0 <= i <= |path| + 1
        invariant forall j | 0 <= j < at || at + i <= j < buf.Length :: buf[j] == old(buf[j])
        invariant forall j | 0 <= j < i :: buf[at + j] == (path + ['\0'])[j]
      {
        buf[at + i] := if i < |path| then path[i] else '\0';
        i := i + 1;
      }
    }

    /**
     The parent's half of a whole-file write. The test of the lengths is done in
     `size_t` arithmetic: it lets a length through that does not fit only if the
     sum wraps around.
     */
    method Prepare(path: string, flags: int, len: Size) returns (r: Prepared)
      requires Valid() && NoNul(path) && |path| + 1 < SIZE_LIMIT
      modifies this`writeLen, this`openFlags, buf
      ensures Valid()
      ensures r == Ready <==> len + |path| + 1 <= buf.Length
      ensures r == OutOfBounds <==> len + |path| + 1 >= SIZE_LIMIT && len + |path| + 1 - SIZE_LIMIT <= buf.Length
      ensures r == Ready ==>
                && writeLen == len && openFlags == flags
                && Payload() == old(buf[..])[..len] && Path() == path
      ensures r != Ready ==> buf[..] == old(buf[..]) && writeLen == old(writeLen) && openFlags == old(openFlags)
    {
      var pathLen := |path| + 1;
      if (len + pathLen) % SIZE_LIMIT > buf.Length {
        return TooLong;
      }
      if len + pathLen > buf.Length {
        return OutOfBounds;
      }
      openFlags := flags;
      writeLen := len;
      CopyPath(path, len);
      CStringOf(path, old(buf[len + pathLen..]));
      assert old(buf[..len]) == old(buf[..])[..len];
      r := Ready;
    }

    /** The system takes the next `n` characters of the payload. */
    method Transfer(n: nat)
      requires Valid() && written + n <= writeLen
      modifies this`written, this`log
      ensures written == old(written) + n
      ensures log == old(log) + [Put(Payload()[old(written)..][..n])]
    {
      assert Payload()[written..][..n] == buf[written..written + n];
      log := log + [Put(buf[written..written + n])];
      written := written + n;
    }

    /** The worker's write loop: `written` counts what has gone out, which is a beginning of the payload. */
    method WriteOut(os: seq<WriteResult>) returns (end: End)
      requires Valid()
      modifies this`written, this`log
      ensures
        var x := PutAll(Payload(), os);
        && end == x.end && log == old(log) + x.ops
        && written <= writeLen && Content(x.ops) == Payload()[..written]
        && (end == Success ==> written == writeLen)
    {
      hide PutAll, Content, CString;
      var left: nat, k := writeLen, 0;
      written := 0;
      ghost var data, ops := Payload(), [];
      SofarStart(data, os);
      assert log + ops == log;
      while k < |os|
        invariant 0 <= k <= |os| && written <= writeLen && left == writeLen - written
        invariant log == old(log) + ops && Content(ops) == data[..written]
        invariant Sofar(data, os, ops, data[written..], os[k..])
      {
        hide Sofar;
        SofarStep(data, os, ops, data[written..], os[k..]);
        assert os[k..][1..] == os[k + 1..];
        match os[k]
        case Error =>
          return Failure;
        case Interrupted =>
          k := k + 1;
        case Wrote(n) =>
          var m := if n >= left then left else n;
          PutMore(data, written, m, ops);
          ops := ops + [Put(data[written..][..m])];
          Transfer(m);
          if n >= left {
            assert data[..written] == data;
            return Success;
          }
          left := left - n;
          k := k + 1;
      }
      SofarEnd(data, os, ops, data[written..]);
      end := Unfinished;
    }

    /** The worker's half of a whole-file write. */
    method WriteFsyncClose(openOk: bool, os: seq<WriteResult>, syncOk: bool) returns (end: End)
      requires Valid()
      modifies this`written, this`log
      ensures
        var x := Session(Path(), openFlags, Payload(), openOk, os, syncOk);
        && end == x.end && log == old(log) + x.ops
        && written == |Content(x.ops)| && (end == Success ==> written == writeLen)
    {
      hide PutAll, Content, CString;
      ghost var p := PutAll(Payload(), os);
      SessionContent(Path(), openFlags, Payload(), openOk, os, syncOk);
      NothingPut();
      written := 0;
      if !openOk {
        return Failure;
      }
      log := log + [Opened(CString(buf[writeLen..]), openFlags)];
      end := WriteOut(os);
      assert log == old(log) + ([Opened(Path(), openFlags)] + p.ops);
      if end == Failure {
        log := log + [Closed];
      } else if end == Success {
        log := log + [if syncOk then Synced else SyncFailed];
        log := log + [Closed];
        end := if syncOk then Success else Failure;
      }
    }
  }

  /** After `ops`, what is left to do is to write `rest` with `os'`. */
  ghost predicate Sofar(data: string, os: seq<WriteResult>, ops: seq<Op>, rest: string, os': seq<WriteResult>) {
    PutAll(data, os) == Outcome(ops + PutAll(rest, os').ops, PutAll(rest, os').end)
  }

  lemma SofarStart(data: string, os: seq<WriteResult>)
    ensures Sofar(data, os, [], data[0..], os[0..]) && Content([]) == data[..0]
  {
    assert data[0..] == data && os[0..] == os;
    assert [] + PutAll(data, os).ops == PutAll(data, os).ops;
  }

  lemma SofarEnd(data: string, os: seq<WriteResult>, ops: seq<Op>, rest: string)
    requires Sofar(data, os, ops, rest, os[|os|..])
    ensures PutAll(data, os) == Outcome(ops, Unfinished)
  {
    assert ops + [] == ops;
  }

  lemma SofarStep(data: string, os: seq<WriteResult>, ops: seq<Op>, rest: string, os': seq<WriteResult>)
    requires Sofar(data, os, ops, rest, os') && os' != []
    ensures
      match os'[0]
      case Error => PutAll(data, os) == Outcome(ops, Failure)
      case Interrupted => Sofar(data, os, ops, rest, os'[1..])
      case Wrote(n) =>
        if n >= |rest| then PutAll(data, os) == Outcome(ops + [Put(rest)], Success)
        else Sofar(data, os, ops + [Put(rest[..n])], rest[n..], os'[1..])
  {
    assert ops + [] == ops;
    if os'[0].Wrote? && os'[0].n < |rest| {
      var x := PutAll(rest[os'[0].n..], os'[1..]);
      assert ops + ([Put(rest[..os'[0].n])] + x.ops) == ops + [Put(rest[..os'[0].n])] + x.ops;
    }
  }

  lemma PutMore(data: string, at: nat, m: nat, ops: seq<Op>)
    requires at + m <= |data| && Content(ops) == data[..at]
    ensures data[at..][m..] == data[at + m..]
    ensures m == |data| - at ==> data[at..][..m] == data[at..]
    ensures Content(ops + [Put(data[at..][..m])]) == data[..at + m]
  {
    var op := Put(data[at..][..m]);
    assert [op][1..] == [] && Content([op]) == op.data + Content([]);
    ContentConcat(ops, [op]);
    assert data[..at] + data[at..][..m] == data[..at + m];
  }
}
