/**
 The pool of `src/afs.c`: a singly linked list of nodes that are linked, unlinked
 and updated in place, and two arrays that grow with it, proved against `AfsPool`.
 */
module AfsPoolObject {
  import opened AfsPool
  import opened AfsPoolRuns
  import opened AfsProc
  import opened AfsProcObject
  import opened Options

  /** The node at position `i`, or the end of the list. */
  ghost function At(list: seq<Ps>, i: nat): Ps? {
    if i < |list| then list[i] else null
  }

  /** An accepted command is owed from now on under its descriptor; a refused one adds nothing. */
  ghost predicate Owes(was: seq<Node>, now: seq<Node>, ok: bool, fd: int, cmd: Cmd) {
    OwedAll(now) == OwedAll(was) + if ok then multiset{(fd, cmd)} else multiset{}
  }

  class Workers {
    var head: Ps?
    var stopReq: bool
    var pfds: array<Ps?>
    var pfdsLen: nat
    var evs: array<Note>
    var evsLen: nat

    /** The nodes from the head on. */
    ghost var list: seq<Ps>

    ghost function Repr(): set<Ps>
      reads this
    {
      set p | p in list
    }

    /** The `next` fields link the list, which goes in no circle. */
    ghost predicate Chain()
      reads this`head, this`list, list`next
      ensures Chain() ==> head == At(list, 0)
    {
      && head == At(list, 0)
      && (forall i | 0 <= i < |list| :: list[i].next == At(list, i + 1))
      && (forall i, j | 0 <= i < j < |list| :: list[i] != list[j])
    }

    ghost predicate Valid()
      reads this, list`next
    {
      Chain() && pfdsLen <= pfds.Length && evsLen <= evs.Length
    }

    ghost function Nodes(): (nodes: seq<Node>)
      reads this`list, list
      ensures |nodes| == |list|
    {
      var l := list;
      seq(|l|, i requires 0 <= i < |l| reads l => l[i].Value())
    }

    ghost function Current(): Pool
      reads this, list
    {
      Pool(Nodes(), stopReq, pfds.Length, evs.Length)
    }

    ghost function Notes(): seq<Note>
      requires evsLen <= evs.Length
      reads this, evs
    {
      evs[..evsLen]
    }

    constructor ()
      ensures Valid() && Current() == INIT && Notes() == []
    {
      head, stopReq, list := null, false, [];
      pfds, pfdsLen := new Ps?[0], 0;
      evs, evsLen := new Note[0], 0;
    }

    /** The first node with this descriptor, if there is one. */
    method Get(fd: int) returns (ps: Ps?, ghost k: nat)
      requires Valid()
      ensures k == Find(Nodes(), fd) && ps == At(list, k)
    {
      hide Chain, Nodes, Find;
      ps, k := head, 0;
      while ps != null
        invariant k <= |list| && ps == At(list, k)
        invariant forall j | 0 <= j < k :: Nodes()[j].fd != fd
        decreases |list| - k
      {
        NodeAt(k);
        NextOf(k);
        if ps.fd == fd {
          break;
        }
        ps, k := ps.next, k + 1;
      }
      FindIs(Nodes(), fd, k);
    }

    method NewFd() returns (fd: nat)
      requires Valid()
      ensures fd == NextFd(Nodes())
    {
      fd := 0;
      var ps := head;
      ghost var k := 0;
      while ps != null
        invariant 0 <= k <= |list| && ps == At(list, k)
        invariant fd == NextFd(Nodes()[..k])
        decreases |list| - k
      {
        assert Nodes()[..k + 1][..k] == Nodes()[..k];
        if ps.fd >= fd {
          fd := ps.fd + 1;
        }
        ps, k := ps.next, k + 1;
      }
      assert Nodes()[..k] == Nodes();
    }

    /** The first node with this descriptor and the node before it. */
    method GetWithParent(fd: int) returns (parent: Ps?, ps: Ps?, ghost k: nat)
      requires Valid()
      ensures k == Find(Nodes(), fd) && ps == At(list, k)
      ensures ps != null ==> parent == if k > 0 then list[k - 1] else null
    {
      hide Chain, Nodes, Find;
      parent, ps, k := null, head, 0;
      while ps != null
        invariant k <= |list| && ps == At(list, k) && parent == if k > 0 then list[k - 1] else null
        invariant forall j | 0 <= j < k :: Nodes()[j].fd != fd
        decreases |list| - k
      {
        NodeAt(k);
        NextOf(k);
        if ps.fd == fd {
          break;
        }
        parent := ps;
        ps, k := ps.next, k + 1;
      }
      FindIs(Nodes(), fd, k);
    }

    /** Take the node at position `k` out of the chain. */
    method Unlink(parent: Ps?, ps: Ps, ghost k: nat)
      requires Valid() && k < |list| && ps == list[k] && parent == if k > 0 then list[k - 1] else null
      modifies this`head, this`list, Repr()`next
      ensures Valid() && list == old(list)[..k] + old(list)[k + 1..]
      ensures forall p <- old(list) :: p.Value() == old(p.Value())
    {
      if parent != null {
        parent.next := ps.next;
      } else {
        head := ps.next;
      }
      list := list[..k] + list[k + 1..];
      Cut(k);
    }

    twostate lemma Cut(k: nat)
      requires k < |old(list)| && list == old(list)[..k] + old(list)[k + 1..] && old(Chain())
      requires k > 0 ==> old(list)[k - 1].next == At(old(list), k + 1) && head == old(head)
      requires k == 0 ==> head == At(old(list), 1)
      requires forall i | 0 <= i < |old(list)| && i != k - 1 :: old(list)[i].next == old(list[i].next)
      ensures Chain()
    {
      var was := old(list);
      StillDistinct(was, k);
      forall i | 0 <= i < |list|
        ensures list[i].next == At(list, i + 1)
      {
        NextAfterCut(was, k, i);
      }
    }

    twostate lemma Unlinked(k: nat)
      requires k < |old(list)| && list == old(list)[..k] + old(list)[k + 1..]
      requires forall p <- old(list) :: p.Value() == old(p.Value())
      ensures Nodes() == Without(old(Nodes()), k)
    {
      var was, now := old(Nodes()), Nodes();
      assert |now| == |Without(was, k)|;
      forall i | 0 <= i < |now|
        ensures now[i] == Without(was, k)[i]
      {
        assert list[i] == old(list)[if i < k then i else i + 1];
      }
    }

    /** Unlink the first node with this descriptor; every other node stays as it is and where it is. */
    method Del(fd: int) returns (ok: bool)
      requires Valid()
      modifies this`head, this`list, Repr()`next
      ensures Valid() && Nodes() == Delete(old(Nodes()), fd)
      ensures
        var k := Find(old(Nodes()), fd);
        list == if k < |old(list)| then old(list)[..k] + old(list)[k + 1..] else old(list)
      ensures ok <==> Find(old(Nodes()), fd) < |old(list)|
    {
      hide Find, Without;
      var parent, ps, k := GetWithParent(fd);
      ok := ps != null;
      if ps != null {
        Unlink(parent, ps, k);
        Unlinked(k);
      }
    }

    method Len() returns (n: nat)
      requires Valid()
      ensures n == |Nodes()|
    {
      n := 0;
      var ps := head;
      while ps != null
        invariant n <= |list| && ps == At(list, n)
        decreases |list| - n
      {
        ps, n := ps.next, n + 1;
      }
    }

    /** Larger arrays for `n` workers, where they are needed and memory can be had. */
    method Grow(n: nat, o: Luck) returns (ok: bool)
      requires Valid()
      modifies this`pfds, this`evs
      ensures Valid()
      ensures
        var c := old(Current());
        var x := GrowPfds(c, n, o.pfds);
        if x.None? then !ok && Current() == c
        else if GrowEvs(x.value, n, o.evs).None? then !ok && Current() == x.value
        else ok && Current() == GrowEvs(x.value, n, o.evs).value
    {
      if pfds.Length < n {
        if !o.pfds {
          return false;
        }
        pfds := new Ps?[n + PREALLOC](_ => null);
      }
      if evs.Length < n * MAX_EVENTS {
        if !o.evs {
          return false;
        }
        evs := new Note[(n + PREALLOC) * MAX_EVENTS](_ => Note(0, InitDone));
      }
      ok := true;
    }

    /** The last node of a list that is not empty. */
    method Last() returns (ps: Ps)
      requires Valid() && list != []
      ensures ps == list[|list| - 1]
    {
      ps := head;
      ghost var k := 0;
      while ps.next != null
        invariant 0 <= k < |list| && ps == list[k]
        decreases |list| - k
      {
        ps, k := ps.next, k + 1;
      }
    }

    method Link(ps: Ps)
      requires Valid() && ps !in list && ps.next == null
      modifies this`head, this`list, Repr()`next
      ensures Valid() && list == old(list) + [ps] && Nodes() == old(Nodes()) + [old(ps.Value())]
    {
      hide Chain, Nodes;
      if head != null {
        var last := Last();
        LastApart();
        last.next := ps;
      } else {
        head := ps;
      }
      list := list + [ps];
      Joined(ps);
      assert forall p <- old(list) :: p.Value() == old(p.Value());
      Linked(ps);
    }

    lemma LastApart()
      requires Chain() && list != []
      ensures forall i | 0 <= i < |list| - 1 :: list[i] != list[|list| - 1]
    {
    }

    twostate lemma Joined(ps: Ps)
      requires old(Chain()) && ps !in old(list) && list == old(list) + [ps] && ps.next == null
      requires if old(list) == [] then head == ps else head == old(head) && old(list)[|old(list)| - 1].next == ps
      requires forall i | 0 <= i < |old(list)| - 1 :: old(list)[i].next == old(list[i].next)
      ensures Chain()
    {
      forall i | 0 <= i < |list|
        ensures list[i].next == At(list, i + 1)
      {
        if i < |list| - 2 {
          assert list[i].next == At(old(list), i + 1);
        }
      }
    }

    twostate lemma Linked(ps: Ps)
      requires list == old(list) + [ps]
      requires forall p <- old(list) :: p.Value() == old(p.Value())
      ensures Nodes() == old(Nodes()) + [ps.Value()]
    {
      var was, now := old(Nodes()), Nodes();
      forall i | 0 <= i < |now|
        ensures now[i] == (was + [ps.Value()])[i]
      {
        assert i < |was| ==> list[i] == old(list)[i];
      }
    }

    /** A new node at the end of the list, if memory can be had. */
    method Append(o: Luck) returns (ps: Ps?)
      requires Valid()
      modifies this, Repr()`next
      ensures Valid() && (Current(), ps != null) == Add(old(Current()), o)
      ensures if ps == null then list == old(list) else fresh(ps) && list == old(list) + [ps]
    {
      hide Nodes, NextFd, Chain;
      if !o.node {
        return null;
      }
      var n := Len();
      var ok := Grow(n + 1, o);
      if !ok {
        return null;
      }
      var fd := NewFd();
      if n == 0 {
        fd := 0;
      }
      ps := new Ps(fd);
      Link(ps);
    }

    lemma NextOf(k: nat)
      requires Chain() && k < |list|
      ensures list[k].next == At(list, k + 1)
    {
    }

    lemma NodeAt(k: nat)
      requires k < |list|
      ensures |Nodes()| == |list| && Nodes()[k] == list[k].Value()
    {
    }

    /** Only the node at `k` has changed. */
    twostate lemma Changed(k: nat)
      requires list == old(list) && k < |list|
      requires forall i | 0 <= i < |list| && i != k :: list[i].Value() == old(list[i].Value())
      ensures Nodes() == old(Nodes())[k := list[k].Value()]
    {
    }

    /** Start the process of the worker at `k` anew if it is gone. */
    method StartAgain(ps: Ps, ghost k: nat) returns (wasInit: bool)
      requires Valid() && k < |list| && ps == list[k]
      modifies ps`st, ps`stopReq, ps`cmd, ps`evs
      ensures Valid() && wasInit == (old(ps.st) != Uninit)
      ensures
        var n := old(ps.Value());
        Nodes() == old(Nodes())[k := n.(p := if n.p.st == Uninit then Started() else n.p)]
    {
      wasInit := ps.st != Uninit;
      if !wasInit {
        ps.Restart();
      }
      Changed(k);
    }

    /** Give the worker at `k` a descriptor that no other has. */
    method SetFd(ps: Ps, ghost k: nat)
      requires Valid() && k < |list| && ps == list[k]
      modifies ps`fd
      ensures Valid() && Nodes() == old(Nodes())[k := old(ps.Value()).(fd := NextFd(old(Nodes())))]
    {
      hide Chain, Nodes, NextFd;
      var fd := NewFd();
      StoreFd(ps, k, fd);
    }

    method StoreFd(ps: Ps, ghost k: nat, fd: int)
      requires Valid() && k < |list| && ps == list[k]
      modifies ps`fd
      ensures Valid() && Nodes() == old(Nodes())[k := old(ps.Value()).(fd := fd)]
    {
      ps.fd := fd;
      Changed(k);
    }

    /** Reuse the first free worker, starting it anew if its process is gone. */
    method Reuse(ps: Ps, ghost k: nat, o: Luck) returns (wasInit: bool)
      requires Valid() && k < |list| && ps == list[k] && (ps.st == Uninit ==> o.start)
      modifies ps`fd, ps`st, ps`stopReq, ps`cmd, ps`evs
      ensures Valid() && wasInit == (old(ps.st) != Uninit)
      ensures
        var n := old(ps.Value());
        Nodes() == old(Nodes())[k := n.(fd := NextFd(old(Nodes())), p := if n.p.st == Uninit then Started() else n.p)]
    {
      hide Chain, Nodes, NextFd;
      NodeAt(k);
      wasInit := StartAgain(ps, k);
      NodeAt(k);
      SameNextFdAt(old(Nodes()), k, Nodes()[k]);
      SetFd(ps, k);
    }

    /** A free worker for a client, or none and its node gone if its process cannot be started. */
    method AllocOld(free: Ps, ghost at: nat, o: Luck) returns (ps: Ps?, wasInit: bool)
      requires Valid() && at == Find(Nodes(), -1) < |list| && free == list[at]
      modifies this`head, this`list, Repr()
      ensures Valid() && Alloc(Current(), if ps == null then None else Some(at), wasInit) == Allocate(old(Current()), o)
      ensures (ps != null ==> ps == free && list == old(list)) && forall p <- list :: p in old(list)
    {
      hide Find, NextFd, Chain, Nodes, Delete;
      NodeAt(at);
      if free.st == Uninit && !o.start {
        var ok := Del(-1);
        return null, false;
      }
      wasInit := Reuse(free, at, o);
      ps := free;
    }

    /** A new worker for a client. */
    method AllocNew(o: Luck) returns (ps: Ps?)
      requires Valid() && Find(Nodes(), -1) == |list|
      modifies this, Repr()`next
      ensures Valid()
      ensures Alloc(Current(), if ps == null then None else Some(|old(list)|), false) == Allocate(old(Current()), o)
      ensures ps != null ==> fresh(ps) && list == old(list) + [ps]
      ensures forall p <- list :: p in old(list) || fresh(p)
    {
      hide Find, NextFd, Chain, Nodes, Delete, GrowPfds, GrowEvs;
      ps := Append(o);
      if ps != null && !o.start {
        NodeAt(|old(list)|);
        var deleted := Del(ps.fd);
        ps := null;
      }
    }

    /** A worker for a client: a free one or a new one. */
    method MaybeAlloc(o: Luck) returns (ps: Ps?, ghost k: nat, wasInit: bool)
      requires Valid()
      modifies this, Repr()
      ensures Valid() && Alloc(Current(), if ps == null then None else Some(k), wasInit) == Allocate(old(Current()), o)
      ensures ps != null ==> k < |list| && ps == list[k] && (ps in old(list) || fresh(ps))
      ensures forall p <- list :: p in old(list) || fresh(p)
    {
      hide Find, Allocate, Chain, Nodes;
      wasInit := false;
      ps, k := Get(-1);
      if ps != null {
        ps, wasInit := AllocOld(ps, k, o);
      } else {
        ps := AllocNew(o);
      }
    }

    // ----- Requests -----

    method SendTo(ps: Ps, ghost k: nat, cmd: Cmd, e: Env) returns (ok: bool)
      requires Valid() && k < |list| && ps == list[k]
      modifies ps`st, ps`cmd
      ensures Valid() && Answer(Current(), ok, ps.fd) == SendAt(old(Current()), k, cmd, e)
    {
      ok := ps.Send(cmd, e);
      Changed(k);
    }

    method DeferTo(ps: Ps, ghost k: nat, cmd: Cmd)
      requires Valid() && k < |list| && ps == list[k]
      modifies ps`deferred, ps`isAvail
      ensures Valid() && Answer(Current(), true, ps.fd) == DeferAt(old(Current()), k, cmd)
    {
      ps.isAvail := false;
      ps.deferred := cmd;
      Changed(k);
    }

    /** `afs_open` and `afs_mkdir`: a worker of its own, which gets the command now or once it has started. */
    method StartNew(cmd: Cmd, fits: bool, o: Luck) returns (ok: bool, fd: int)
      requires Valid()
      modifies this, Repr()
      ensures Valid() && Answer(Current(), ok, fd) == AskNew(old(Current()), cmd, fits, o)
      ensures old(Inv(Current())) && IsFile(cmd) ==> Inv(Current()) && Owes(old(Nodes()), Nodes(), ok, fd, cmd)
    {
      hide Allocate, AfsProc.Send, Chain, Nodes, Inv, OwedAll;
      if Inv(Current()) && IsFile(cmd) {
        AskNewKeeps(Current(), cmd, fits, o);
      }
      var ps, k, wasInit := MaybeAlloc(o);
      if ps == null || !fits {
        return false, -1;
      }
      fd := ps.fd;
      if wasInit {
        ok := SendTo(ps, k, cmd, o.env);
      } else {
        DeferTo(ps, k, cmd);
        ok := true;
      }
    }

    /** `afs_reserve`. */
    method ReserveOne(o: Luck) returns (ok: bool, fd: int)
      requires Valid()
      modifies this, Repr()
      ensures Valid() && Answer(Current(), ok, fd) == Reserve(old(Current()), o)
      ensures old(Inv(Current())) ==> Inv(Current()) && OwedAll(Nodes()) == old(OwedAll(Nodes()))
    {
      hide Allocate, Chain, Nodes, Inv, OwedAll;
      if Inv(Current()) {
        AllocateKeeps(Current(), o);
      }
      var ps, k, wasInit := MaybeAlloc(o);
      if ps == null {
        return false, -1;
      }
      NodeAt(k);
      ok, fd := true, ps.fd;
    }

    /** `afs_close`, `afs_fsync`, `afs_write` and `afs_readall`. */
    method SendOn(fd: int, cmd: Cmd, fits: bool, o: Luck) returns (ok: bool)
      requires Valid()
      modifies Repr()`st, Repr()`cmd
      ensures Valid() && Answer(Current(), ok, fd) == AskOn(old(Current()), fd, cmd, fits, o)
      ensures old(Inv(Current())) && IsFile(cmd) ==> Inv(Current()) && Owes(old(Nodes()), Nodes(), ok, fd, cmd)
    {
      hide Find, AfsProc.Send, Chain, Nodes, Inv, OwedAll;
      if Inv(Current()) && IsFile(cmd) {
        AskOnKeeps(Current(), fd, cmd, fits, o);
      }
      if fd == -1 {
        return false;
      }
      var ps, k := Get(fd);
      if ps == null {
        return false;
      }
      NodeAt(k);
      if !ps.isAvail || !fits {
        return false;
      }
      ok := SendTo(ps, k, cmd, o.env);
    }

    /** `afs_write_fsync_close`. */
    method WriteFile(fd: int, fits: bool, o: Luck) returns (ok: bool)
      requires Valid()
      modifies Repr()`st, Repr()`cmd, Repr()`deferred, Repr()`isAvail
      ensures Valid() && Answer(Current(), ok, fd) == WriteWhole(old(Current()), fd, fits, o)
      ensures
        old(Inv(Current())) ==>
          && Inv(Current())
          && OwedAll(Nodes()) + Overwritten(old(Current()), AskWriteFsyncClose(fd, fits)) ==
             old(OwedAll(Nodes())) + if ok then multiset{(fd, WriteFsyncClose)} else multiset{}
    {
      hide Find, AfsProc.Send, Chain, Nodes, Inv, OwedAll;
      if Inv(Current()) {
        WriteWholeKeeps(Current(), fd, fits, o);
      }
      if fd == -1 {
        return false;
      }
      var ps, k := Get(fd);
      if ps == null {
        return false;
      }
      NodeAt(k);
      if ps.st == Uninit || !fits {
        return false;
      }
      if ps.st == Avail {
        ok := SendTo(ps, k, WriteFsyncClose, o.env);
      } else if ps.st == InitPend {
        DeferTo(ps, k, WriteFsyncClose);
        ok := true;
      } else {
        ok := false;
      }
    }

    // ----- Stopping and polling -----

    /** Ask the worker at `k` to stop. */
    method StopAt(ps: Ps, ghost k: nat, e: Env) returns (ok: bool)
      requires Valid() && k < |list| && ps == list[k]
      modifies ps`st, ps`cmd, ps`stopReq
      ensures Valid()
      ensures
        var n := old(ps.Value());
        var x := AfsProc.StopPrep(n.p, e);
        ok == x.ok && Nodes() == old(Nodes())[k := n.(p := x.p)]
    {
      ok := ps.StopPrep(e);
      Changed(k);
    }

    /** `afs_stop_prep`: ask every worker to stop; it fails if one of them cannot. */
    method StopPrep(envs: seq<Env>) returns (ok: bool)
      requires Valid() && |envs| == |Nodes()|
      modifies this`stopReq, Repr()`st, Repr()`cmd, Repr()`stopReq
      ensures Valid()
      ensures
        if old(stopReq) then !ok && Current() == old(Current())
        else
          && stopReq && Nodes() == StopAll(old(Nodes()), envs)
          && (ok <==> forall i | 0 <= i < |envs| :: AfsProc.StopPrep(old(Nodes())[i].p, envs[i]).ok)
    {
      hide AfsProc.StopPrep, Nodes, StopAll, Chain, StoppedTo;
      if stopReq {
        return false;
      }
      stopReq := true;
      ok := true;
      var ps, k := head, 0;
      ghost var was := Nodes();
      StopNone(was, envs);
      while ps != null
        invariant Valid() && stopReq && k <= |list| && ps == At(list, k)
        invariant StoppedTo(was, envs, Nodes(), k)
        invariant ok <==> forall i | 0 <= i < k :: AfsProc.StopPrep(was[i].p, envs[i]).ok
        decreases |list| - k
      {
        NodeAt(k);
        StopOne(was, envs, Nodes(), k);
        var r := StopAt(ps, k, envs[k]);
        if !r {
          ok := false;
        }
        NextOf(k);
        ps, k := ps.next, k + 1;
      }
      StopEnd(was, envs, Nodes());
    }

    method AddPoll(ps: Ps)
      requires Valid() && pfdsLen < pfds.Length
      modifies this`pfdsLen, pfds
      ensures Valid() && pfdsLen == old(pfdsLen) + 1 && pfds[..pfdsLen] == old(pfds[..pfdsLen]) + [ps]
    {
      hide Chain;
      pfds[pfdsLen] := ps;
      pfdsLen := pfdsLen + 1;
    }

    /** The poll entries: one per worker with a socket, in the order of the list. The array never runs out. */
    method PollFds() returns (ghost pos: seq<nat>)
      requires Valid() && Inv(Current())
      modifies this`pfdsLen, pfds
      ensures Valid() && Polls(pfds[..pfdsLen], pos, |list|)
    {
      hide Inv, Chain, Polls, Nodes;
      var ps := head;
      ghost var k := 0;
      pos := [];
      pfdsLen := 0;
      RoomToPoll();
      PollsNone();
      while ps != null
        invariant Valid() && 0 <= k <= |list| <= pfds.Length && ps == At(list, k) && pfdsLen <= k
        invariant Polls(pfds[..pfdsLen], pos, k)
        decreases |list| - k
      {
        PollsOne(pfds[..pfdsLen], pos, k);
        NextOf(k);
        if ps.st != Uninit {
          AddPoll(ps);
          pos := pos + [k];
        }
        ps, k := ps.next, k + 1;
      }
    }

    lemma RoomToPoll()
      requires Inv(Current())
      ensures |list| <= pfds.Length
    {
    }

    /** The entries are, in order, exactly those of the first `k` nodes that have a socket; `pos` says where they are. */
    ghost predicate Polls(entries: seq<Ps?>, pos: seq<nat>, k: nat)
      requires k <= |list|
      reads this`list, list`st
    {
      && |entries| == |pos|
      && (forall j | 0 <= j < |pos| :: pos[j] < k && entries[j] == list[pos[j]] && list[pos[j]].st != Uninit)
      && (forall i, j | 0 <= i < j < |pos| :: pos[i] < pos[j])
      && (forall i | 0 <= i < k && list[i].st != Uninit :: i in pos)
    }

    lemma PollsNone()
      ensures Polls([], [], 0)
    {
    }

    lemma PollsOne(entries: seq<Ps?>, pos: seq<nat>, k: nat)
      requires k < |list| && Polls(entries, pos, k)
      ensures
        if list[k].st != Uninit then Polls(entries + [list[k]], pos + [k], k + 1)
        else Polls(entries, pos, k + 1)
    {
      if list[k].st != Uninit {
        forall i | 0 <= i < k + 1 && list[i].st != Uninit
          ensures i in pos + [k]
        {
          if i == k {
            assert (pos + [k])[|pos|] == k;
          }
        }
      }
    }

    // ----- Updates -----

    /** Tell the client; the array has room. */
    method Emit(n: Note)
      requires evsLen < evs.Length
      modifies this`evsLen, evs
      ensures evsLen == old(evsLen) + 1 && Notes() == old(Notes()) + [n]
    {
      evs[evsLen] := n;
      evsLen := evsLen + 1;
    }

    /** The command held back for a worker goes out, or is told to have failed. */
    method SendDeferred(ps: Ps, e: Env)
      requires evsLen + |Handle(Turn(ps.Value(), [], false), InitDone, e).notes| <= evs.Length
      modifies ps`st, ps`cmd, ps`deferred, ps`isAvail, this`evsLen, evs
      ensures evsLen <= evs.Length
      ensures
        var t := Handle(Turn(old(ps.Value()), [], false), InitDone, e);
        ps.Value() == t.n && Notes() == old(Notes()) + t.notes && !t.del
    {
      assert Notes() + ([] + []) == Notes();
      ps.isAvail := true;
      if ps.deferred == Open || ps.deferred == Mkdir || ps.deferred == WriteFsyncClose {
        var ok := ps.Send(ps.deferred, e);
        if !ok {
          Emit(Note(ps.fd, Failed(ps.deferred)));
        }
      } else if ps.deferred != NoCmd {
        Emit(Note(ps.fd, FailEvent(ps.deferred)));
      }
      ps.deferred := NoCmd;
    }

    /** One event of a worker. */
    method HandleEvent(ps: Ps, ev: Event, e: Env) returns (del: bool)
      requires evsLen + |Handle(Turn(ps.Value(), [], false), ev, e).notes| <= evs.Length
      modifies ps`fd, ps`st, ps`cmd, ps`deferred, ps`isAvail, this`evsLen, evs
      ensures evsLen <= evs.Length
      ensures
        var t := Handle(Turn(old(ps.Value()), [], false), ev, e);
        ps.Value() == t.n && Notes() == old(Notes()) + t.notes && del == t.del
    {
      del := false;
      var fd := ps.fd;
      match ev
      case InitDone => SendDeferred(ps, e);
      case InitFailed =>
        del := true;
        assert Notes() + ([] + []) == Notes();
        if ps.deferred != NoCmd {
          Emit(Note(fd, FailEvent(ps.deferred)));
        }
        ps.deferred := NoCmd;
      case Stopped =>
        ps.fd := -1;
        ps.isAvail := false;
      case StopFailed =>
        ps.fd := -1;
        ps.isAvail := false;
      case Done(cmd) =>
        if Frees(cmd) {
          ps.fd := -1;
        }
        Emit(Note(fd, ev));
      case Failed(cmd) =>
        if Frees(cmd) {
          ps.fd := -1;
        }
        Emit(Note(fd, ev));
    }

    /** The queued events of a worker, one after the other. */
    method HandleEvents(ps: Ps, e: Env) returns (del: bool)
      requires evsLen + |HandleAll(Turn(ps.Value(), [], false), ps.evs, e).notes| <= evs.Length
      modifies ps`fd, ps`st, ps`cmd, ps`deferred, ps`isAvail, this`evsLen, evs
      ensures evsLen <= evs.Length
      ensures
        var t := HandleAll(Turn(old(ps.Value()), [], false), ps.evs, e);
        ps.Value() == t.n && Notes() == old(Notes()) + t.notes && del == t.del
    {
      hide Handle;
      del := false;
      var j := 0;
      ghost var t := Turn(ps.Value(), [], false);
      HandleAllGrows(t, ps.evs, e);
      assert ps.evs[0..] == ps.evs;
      while j < |ps.evs|
        invariant 0 <= j <= |ps.evs| && evsLen <= evs.Length
        invariant ps.Value() == t.n && Notes() == old(Notes()) + t.notes && del == t.del
        invariant HandleAll(Turn(old(ps.Value()), [], false), ps.evs, e) == HandleAll(t, ps.evs[j..], e)
      {
        ghost var t' := Handle(t, ps.evs[j], e);
        HandleFrom(t, ps.evs[j], e);
        HandleAllGrows(t', ps.evs[j..][1..], e);
        assert ps.evs[j..][1..] == ps.evs[j + 1..];
        var d := HandleEvent(ps, ps.evs[j], e);
        del := del || d;
        t := t';
        j := j + 1;
      }
    }

    /** The turn of a worker: its update and its events. */
    method TakeTurn(ps: Ps, e: Env) returns (del: bool)
      requires evsLen + |TurnOf(ps.Value(), e).notes| <= evs.Length
      modifies ps`fd, ps`st, ps`stopReq, ps`cmd, ps`evs, ps`deferred, ps`isAvail, this`evsLen, evs
      ensures evsLen <= evs.Length
      ensures
        var t := TurnOf(old(ps.Value()), e);
        ps.Value() == t.n && Notes() == old(Notes()) + t.notes && del == t.del
    {
      hide HandleAll, AfsProc.Update;
      var ok := ps.Update(e);
      del := HandleEvents(ps, e);
      del := del || !ok;
    }

    method TurnAt(ps: Ps, ghost k: nat, e: Env) returns (del: bool)
      requires Valid() && k < |list| && ps == list[k] && evsLen + |TurnOf(Nodes()[k], e).notes| <= evs.Length
      modifies ps`fd, ps`st, ps`stopReq, ps`cmd, ps`evs, ps`deferred, ps`isAvail, this`evsLen, evs
      ensures Valid()
      ensures
        var t := TurnOf(old(Nodes())[k], e);
        Nodes() == old(Nodes())[k := t.n] && Notes() == old(Notes()) + t.notes && del == t.del
    {
      hide TurnOf;
      NodeAt(k);
      del := TakeTurn(ps, e);
      Changed(k);
    }

    /**
     The worker at `i` takes its turn, and a node is unlinked if it must go. The next node was
     saved before that and is still in the list: `i'` is where it is now.
     */
    method NextTurn(ghost all: Sweep, ps: Ps, ghost i: nat, e: Env, ghost envs: seq<Env>) returns (next: Ps?, ghost i': nat)
      requires Valid() && envs != [] && e == envs[0] && i + |envs| == |list| && ps == list[i]
      requires Ahead(all, Nodes(), Notes(), i, envs) && |all.notes| <= evs.Length
      modifies this`head, this`list, this`evsLen, evs, Repr()
      ensures Valid() && i' + |envs| - 1 == |list| && next == At(list, i')
      ensures Ahead(all, Nodes(), Notes(), i', envs[1..])
      ensures forall p <- list :: p in old(list)
    {
      AheadStep(all, Nodes(), Notes(), i, envs);
      hide TurnOf, Delete, Ahead, Nodes, Chain;
      NextOf(i);
      next := ps.next;
      var del := TurnAt(ps, i, e);
      i' := i + 1;
      if del {
        Drop(ps, i);
        i' := i;
      }
    }

    /** The node unlinked is the one at `i` or one before it, so the one after `i` moves to `i`. */
    method Drop(ps: Ps, ghost i: nat)
      requires Valid() && i < |list| && ps == list[i]
      modifies this`head, this`list, Repr()`next
      ensures Valid() && Nodes() == Delete(old(Nodes()), old(Nodes())[i].fd)
      ensures At(list, i) == At(old(list), i + 1) && forall p <- list :: p in old(list)
    {
      hide Delete, Nodes, Chain, Find;
      NodeAt(i);
      SavedNext(list, Find(Nodes(), ps.fd), i);
      var ok := Del(ps.fd);
    }

    /** The turns of all workers, one after the other. */
    method SweepAll(envs: seq<Env>)
      requires Valid() && Inv(Current()) && |envs| == |Nodes()|
      modifies this`head, this`list, this`evsLen, evs, Repr()
      ensures Valid() && Sweep(Nodes(), Notes()) == SweepFrom(old(Nodes()), 0, envs)
    {
      hide SweepFrom, NodesInv, OwedAll, Told, Nodes, Chain, Ahead;
      ghost var all := SweepFrom(Nodes(), 0, envs);
      SweepKeeps(Nodes(), 0, envs);
      evsLen := 0;
      ghost var i: nat := 0;
      var ps, left := head, envs;
      AheadStart(all, Nodes(), envs);
      while ps != null
        invariant Valid() && i + |left| == |list| && ps == At(list, i) && |all.notes| <= evs.Length
        invariant Ahead(all, Nodes(), Notes(), i, left)
        invariant forall p <- list :: p in old(list)
        decreases |left|
      {
        ps, i := NextTurn(all, ps, i, left[0], left);
        left := left[1..];
      }
      AheadEnd(all, Nodes(), Notes(), i, left);
    }

    /**
     `afs_update`: every worker takes its turn, and the end of a stop is told. It crashes exactly when a
     stop is told by a pool that has never had a worker, as there is no array of events then.
     */
    method Update(envs: seq<Env>) returns (crashed: bool)
      requires Valid() && Inv(Current()) && |envs| == |Nodes()|
      modifies this`head, this`list, this`evsLen, evs, Repr()
      ensures Valid() && (crashed <==> stopReq && evs.Length == 0)
      ensures !crashed ==> (Current(), Notes()) == Refresh(old(Current()), envs)
      ensures Inv(Current()) && (!crashed ==> old(OwedAll(Nodes())) == OwedAll(Nodes()) + Told(Notes()))
    {
      hide SweepFrom, NodesInv, OwedAll, Told, Nodes, Chain;
      SweepKeeps(Nodes(), 0, envs);
      RefreshTells(Current(), envs);
      SweepAll(envs);
      assert Notes() + [] == Notes();
      crashed := false;
      if stopReq {
        var stopped := AllUninit();
        if stopped {
          if evs.Length == 0 {
            return true;
          }
          Emit(Note(-1, Stopped));
        }
      }
    }

    method AllUninit() returns (r: bool)
      requires Valid()
      ensures r == AllStopped(Nodes())
    {
      r := true;
      var ps := head;
      ghost var k := 0;
      while ps != null
        invariant 0 <= k <= |list| && ps == At(list, k)
        invariant r <==> forall j | 0 <= j < k :: Nodes()[j].p.st == Uninit
        decreases |list| - k
      {
        assert Nodes()[k].p.st == ps.st;
        if ps.st != Uninit {
          r := false;
        }
        ps, k := ps.next, k + 1;
      }
      assert AllStopped(Nodes()) <==> forall j | 0 <= j < |list| :: Nodes()[j].p.st == Uninit;
    }
  }

  lemma StillDistinct(list: seq<Ps>, k: nat)
    requires k < |list| && forall i, j | 0 <= i < j < |list| :: list[i] != list[j]
    ensures var s := list[..k] + list[k + 1..]; forall i, j | 0 <= i < j < |s| :: s[i] != s[j]
  {
  }

  /** What follows the node at `i` once the one at `k` is taken out. */
  lemma NextAfterCut(list: seq<Ps>, k: nat, i: nat)
    requires k < |list| && i < |list| - 1
    ensures
      var s, j := list[..k] + list[k + 1..], if i < k then i else i + 1;
      s[i] == list[j] && At(s, i + 1) == At(list, if j == k - 1 then k + 1 else j + 1)
  {
  }

  /** Unlinking a node at or before `i` moves the one after `i` to `i`. */
  lemma SavedNext(list: seq<Ps>, k: nat, i: nat)
    requires k <= i < |list|
    ensures At(list[..k] + list[k + 1..], i) == At(list, i + 1)
  {
  }

  lemma FindIs(nodes: seq<Node>, fd: int, k: nat)
    requires k <= |nodes| && (k < |nodes| ==> nodes[k].fd == fd) && forall j | 0 <= j < k :: nodes[j].fd != fd
    ensures Find(nodes, fd) == k
  {
    var f := Find(nodes, fd);
    assert f < |nodes| ==> nodes[f].fd == fd;
  }

  lemma SameNextFdAt(nodes: seq<Node>, k: nat, n: Node)
    requires k < |nodes| && n.fd == nodes[k].fd
    ensures NextFd(nodes[k := n]) == NextFd(nodes)
  {
    SameNextFd(nodes[k := n], nodes);
  }

  lemma {:induction false} SameNextFd(a: seq<Node>, b: seq<Node>)
    requires |a| == |b| && forall i | 0 <= i < |a| :: a[i].fd == b[i].fd
    ensures NextFd(a) == NextFd(b)
    decreases |a|
  {
    if a != [] {
      SameNextFd(a[..|a| - 1], b[..|b| - 1]);
    }
  }

  lemma TakeDrop<T>(s: seq<T>, k: nat)
    requires 0 < k <= |s|
    ensures s[..k][1..] == s[1..][..k - 1]
  {
  }

  lemma {:induction false} StopAllSnoc(nodes: seq<Node>, envs: seq<Env>, k: nat)
    requires |nodes| == |envs| && k < |nodes|
    ensures StopAll(nodes[..k + 1], envs[..k + 1]) ==
            StopAll(nodes[..k], envs[..k]) + [nodes[k].(p := AfsProc.StopPrep(nodes[k].p, envs[k]).p)]
    decreases k
  {
    hide AfsProc.StopPrep;
    if k > 0 {
      StopAllSnoc(nodes[1..], envs[1..], k - 1);
      TakeDrop(nodes, k + 1);
      TakeDrop(envs, k + 1);
      TakeDrop(nodes, k);
      TakeDrop(envs, k);
      var a, b := StopAll(nodes[1..][..k - 1], envs[1..][..k - 1]), [nodes[0].(p := AfsProc.StopPrep(nodes[0].p, envs[0]).p)];
      var c := [nodes[k].(p := AfsProc.StopPrep(nodes[k].p, envs[k]).p)];
      assert b + (a + c) == b + a + c;
    }
  }

  lemma HandleFrom(t: Turn, ev: Event, e: Env)
    ensures
      var t' := Handle(Turn(t.n, [], false), ev, e);
      Handle(t, ev, e) == Turn(t'.n, t.notes + t'.notes, t.del || t'.del)
  {
    assert t.notes + ([] + []) == t.notes;
  }

  lemma {:induction false} HandleAllGrows(t: Turn, evs: seq<Event>, e: Env)
    ensures |t.notes| <= |HandleAll(t, evs, e).notes|
    decreases |evs|
  {
    hide Handle;
    if evs != [] {
      HandleFrom(t, evs[0], e);
      HandleAllGrows(Handle(t, evs[0], e), evs[1..], e);
    }
  }

  /** The worker at `i` takes its turn, and the rest of the update goes on behind it. */
  lemma SweepStep(nodes: seq<Node>, i: nat, envs: seq<Env>)
    requires envs != [] && i + |envs| == |nodes|
    ensures
      var t := TurnOf(nodes[i], envs[0]);
      var nodes1 := nodes[i := t.n];
      && (t.del ==>
            && |Delete(nodes1, t.n.fd)| == |nodes| - 1
            && SweepFrom(nodes, i, envs) ==
               var x := SweepFrom(Delete(nodes1, t.n.fd), i, envs[1..]); Sweep(x.nodes, t.notes + x.notes))
      && (!t.del ==>
            SweepFrom(nodes, i, envs) ==
            var x := SweepFrom(nodes1, i + 1, envs[1..]); Sweep(x.nodes, t.notes + x.notes))
  {
    hide TurnOf;
    var t := TurnOf(nodes[i], envs[0]);
    assert nodes[i := t.n][i].fd == t.n.fd;
  }

  /** After `notes`, what is left of the whole update `all` is the update from `i` on. */
  ghost predicate Ahead(all: Sweep, nodes: seq<Node>, notes: seq<Note>, i: nat, envs: seq<Env>)
    requires i + |envs| == |nodes|
  {
    var x := SweepFrom(nodes, i, envs);
    all == Sweep(x.nodes, notes + x.notes)
  }

  lemma AheadStep(all: Sweep, nodes: seq<Node>, notes: seq<Note>, i: nat, envs: seq<Env>)
    requires envs != [] && i + |envs| == |nodes| && Ahead(all, nodes, notes, i, envs)
    ensures
      var t := TurnOf(nodes[i], envs[0]);
      var nodes1 := nodes[i := t.n];
      && |notes| + |t.notes| <= |all.notes|
      && (if t.del then
            && |Delete(nodes1, t.n.fd)| == |nodes| - 1
            && Ahead(all, Delete(nodes1, t.n.fd), notes + t.notes, i, envs[1..])
          else Ahead(all, nodes1, notes + t.notes, i + 1, envs[1..]))
  {
    SweepStep(nodes, i, envs);
    hide SweepFrom, TurnOf, Delete;
    var t := TurnOf(nodes[i], envs[0]);
    var nodes1 := nodes[i := t.n];
    if t.del {
      Regroup(notes, t.notes, SweepFrom(Delete(nodes1, t.n.fd), i, envs[1..]).notes);
    } else {
      Regroup(notes, t.notes, SweepFrom(nodes1, i + 1, envs[1..]).notes);
    }
  }

  lemma AheadStart(all: Sweep, nodes: seq<Node>, envs: seq<Env>)
    requires |envs| == |nodes| && all == SweepFrom(nodes, 0, envs)
    ensures Ahead(all, nodes, [], 0, envs)
  {
    hide SweepFrom;
    assert [] + all.notes == all.notes;
  }

  lemma AheadEnd(all: Sweep, nodes: seq<Node>, notes: seq<Note>, i: nat, envs: seq<Env>)
    requires envs == [] && i == |nodes| && Ahead(all, nodes, notes, i, envs)
    ensures all == Sweep(nodes, notes)
  {
    assert notes + [] == notes;
  }

  /** The first `k` nodes have been asked to stop, the others are as they were. */
  ghost predicate StoppedTo(was: seq<Node>, envs: seq<Env>, nodes: seq<Node>, k: nat)
    requires |envs| == |was|
  {
    && k <= |was| == |nodes| && nodes[k..] == was[k..]
    && nodes[..k] == StopAll(was[..k], envs[..k])
  }

  lemma StopNone(was: seq<Node>, envs: seq<Env>)
    requires |envs| == |was|
    ensures StoppedTo(was, envs, was, 0)
  {
  }

  lemma StopOne(was: seq<Node>, envs: seq<Env>, nodes: seq<Node>, k: nat)
    requires |envs| == |was| && StoppedTo(was, envs, nodes, k) && k < |was|
    ensures
      && nodes[k] == was[k]
      && StoppedTo(was, envs, nodes[k := was[k].(p := AfsProc.StopPrep(was[k].p, envs[k]).p)], k + 1)
  {
    hide AfsProc.StopPrep, StopAll;
    StopAllSnoc(was, envs, k);
    assert nodes[k] == nodes[k..][0] == was[k..][0];
  }

  lemma StopEnd(was: seq<Node>, envs: seq<Env>, nodes: seq<Node>)
    requires |envs| == |was| && StoppedTo(was, envs, nodes, |was|)
    ensures nodes == StopAll(was, envs)
  {
    assert nodes[..|was|] == nodes && was[..|was|] == was && envs[..|was|] == envs;
  }
}
