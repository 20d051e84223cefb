/** What each request and each death does to the daemon's table, contexts and requests, and what it leaves alone. */
module ProcSteps {
  import opened Wrappers
  import opened Sequences
  import opened ProcTable

  // ---------------------------------------------------------------- recording a descriptor

  /** The client may record one more descriptor: it has no record yet, or one of the same identity with a free slot. */
  ghost predicate HasRoom(procs: seq<Proc>, id: Identity) {
    forall p :: p in procs && p.id.pid == id.pid ==> p.id == id && NO_FD in p.fds
  }

  /** The slots in use. */
  function Used(p: Proc): set<nat> {
    set k | 0 <= k < |p.fds| && p.fds[k] != NO_FD
  }

  /** The new table: descriptor `fd` stands in the first free slot `k` of record `i`, and all else is as it was. */
  ghost predicate FilledAt(procs: seq<Proc>, procs': seq<Proc>, id: Identity, fd: int, i: nat, k: nat) {
    && i < |procs| == |procs'| && k < |procs[i].fds| == |procs'[i].fds|
    && procs[i].id == procs'[i].id == id && procs[i].fds[k] == NO_FD && procs'[i].fds[k] == fd
    && (forall j :: 0 <= j < k ==> procs[i].fds[j] != NO_FD)
    && (forall j :: 0 <= j < |procs[i].fds| && j != k ==> procs'[i].fds[j] == procs[i].fds[j])
    && (forall j :: 0 <= j < |procs| && j != i ==> procs'[j] == procs[j])
  }

  /** A new record of sixteen slots at the end of the table, with `fd` in the first. */
  ghost predicate Added(procs: seq<Proc>, procs': seq<Proc>, id: Identity, fd: int) {
    && |procs'| == |procs| + 1 && procs'[..|procs|] == procs
    && var p := procs'[|procs|];
    p.id == id && |p.fds| == 16 && p.fds[0] == fd && forall j :: 1 <= j < 16 ==> p.fds[j] == NO_FD
  }

  lemma FindUnique(procs: seq<Proc>, i: nat)
    requires UniquePids(procs) && i < |procs|
    ensures FindPid(procs, procs[i].id.pid) == Some(i)
  {
  }

  lemma FindNobody(procs: seq<Proc>, pid: int)
    ensures FindPid(procs, pid).None? <==> forall p :: p in procs ==> p.id.pid != pid
  {
    if FindPid(procs, pid).Some? {
      assert procs[FindPid(procs, pid).value] in procs;
    }
  }

  /** Recording succeeds exactly for a client that has room, and then fills one free slot, the first, and nothing else. */
  lemma RecordExactly(procs: seq<Proc>, id: Identity, fd: int)
    requires UniquePids(procs)
    ensures Record(procs, id, fd).Some? <==> HasRoom(procs, id)
    ensures HasRoom(procs, id) ==>
      if exists p :: p in procs && p.id.pid == id.pid
      then exists i, k :: FilledAt(procs, Record(procs, id, fd).value, id, fd, i, k)
      else Added(procs, Record(procs, id, fd).value, id, fd)
  {
    FindNobody(procs, id.pid);
    match FindPid(procs, id.pid)
    case None => AddedRecord(procs, id, fd);
    case Some(i) =>
      assert procs[i] in procs;
      OwnRecord(procs, id, i);
      if procs[i].id == id && FindFd(procs[i].fds, NO_FD).Some? {
        assert FilledAt(procs, Record(procs, id, fd).value, id, fd, i, FindFd(procs[i].fds, NO_FD).value);
      }
  }

  lemma AddedRecord(procs: seq<Proc>, id: Identity, fd: int)
    requires FindPid(procs, id.pid).None?
    ensures Record(procs, id, fd).Some? && Added(procs, Record(procs, id, fd).value, id, fd)
  {
    var procs' := Record(procs, id, fd).value;
    assert procs'[..|procs|] == procs;
  }

  /** The client's room is that of its one record. */
  lemma OwnRecord(procs: seq<Proc>, id: Identity, i: nat)
    requires UniquePids(procs) && FindPid(procs, id.pid) == Some(i)
    ensures i < |procs| && procs[i].id.pid == id.pid
    ensures HasRoom(procs, id) <==> procs[i].id == id && FindFd(procs[i].fds, NO_FD).Some?
  {
    var p := procs[i];
    assert p in procs;
    forall q | q in procs && q.id.pid == id.pid
      ensures q == p
    {
      SameProc(procs, q, p);
    }
    if FindFd(p.fds, NO_FD).Some? {
      assert p.fds[FindFd(p.fds, NO_FD).value] in p.fds;
    }
  }

  /** Room in a record of sixteen slots is fewer than sixteen descriptors. */
  lemma RoomIsCount(p: Proc)
    requires |p.fds| == 16
    ensures NO_FD in p.fds <==> |Used(p)| < 16
  {
    if NO_FD in p.fds {
      var k :| 0 <= k < 16 && p.fds[k] == NO_FD;
      FreeSlotCounts(p, k);
    } else {
      FullCounts(p);
    }
  }

  lemma FreeSlotCounts(p: Proc, k: nat)
    requires |p.fds| == 16 && k < 16 && p.fds[k] == NO_FD
    ensures |Used(p)| < 16
  {
    MissesOne(Used(p), 16, k);
  }

  lemma MissesOne(s: set<nat>, n: nat, k: nat)
    requires (forall j :: j in s ==> j < n) && k < n && k !in s
    ensures |s| < n
  {
    SmallerSet(s + {k}, UpTo(n));
  }

  lemma HasAll(s: set<nat>, n: nat)
    requires forall j: nat :: j in s <==> j < n
    ensures |s| == n
  {
    assert s == UpTo(n);
  }

  lemma FullCounts(p: Proc)
    requires |p.fds| == 16 && NO_FD !in p.fds
    ensures |Used(p)| == 16
  {
    HasAll(Used(p), 16);
  }

  function UpTo(n: nat): (s: set<nat>)
    ensures |s| == n && forall k: nat :: k in s <==> k < n
  {
    if n == 0 then {} else UpTo(n - 1) + {n - 1}
  }

  lemma SmallerSet(a: set<nat>, b: set<nat>)
    requires a <= b
    ensures |a| <= |b|
  {
    assert b == a + (b - a);
  }

  // ---------------------------------------------------------------- opening a context

  lemma NewIsNowhere(s: State, fd: int)
    requires Inv(s) && fd >= 0 && fd !in s.contexts
    ensures forall p :: p in s.procs ==> fd !in p.fds && !IsEmpty(p)
  {
    forall p | p in s.procs
      ensures fd !in p.fds && !IsEmpty(p)
    {
      assert SlotsOk(p, s.contexts);
    }
  }

  /** Forgetting what was never recorded. */
  lemma ForgetNothing(procs: seq<Proc>, pid: int, fd: int)
    requires forall p :: p in procs ==> fd !in p.fds && !IsEmpty(p)
    ensures Forget(procs, pid, fd) == procs
  {
    if FindPid(procs, pid).Some? {
      var i := FindPid(procs, pid).value;
      assert procs[i] in procs;
      assert FindFd(procs[i].fds, fd).None?;
      assert procs[i := procs[i]] == procs;
    }
  }

  /** Forgetting what was just recorded. */
  lemma ForgetRecorded(procs: seq<Proc>, id: Identity, fd: int)
    requires UniquePids(procs) && fd != NO_FD && Record(procs, id, fd).Some?
    requires forall p :: p in procs ==> fd !in p.fds && !IsEmpty(p)
    ensures Forget(Record(procs, id, fd).value, id.pid, fd) == procs
  {
    match FindPid(procs, id.pid)
    case None => ForgetAdded(procs, id, fd);
    case Some(i) => ForgetFilled(procs, id, fd, i);
  }

  lemma ForgetAdded(procs: seq<Proc>, id: Identity, fd: int)
    requires UniquePids(procs) && fd != NO_FD && FindPid(procs, id.pid).None?
    ensures Record(procs, id, fd).Some? && Forget(Record(procs, id, fd).value, id.pid, fd) == procs
  {
    var p := Proc(id, FREE_SLOTS[0 := fd]);
    var procs' := procs + [p];
    assert procs'[|procs|] == p && procs'[..|procs|] == procs;
    assert FindPid(procs', id.pid) == Some(|procs|);
    assert p.fds[0] == fd;
    assert FindFd(p.fds, fd) == Some(0);
    assert RemoveFd(p, fd).fds == FREE_SLOTS;
    assert RemoveAt(procs', |procs|) == procs;
  }

  lemma ForgetFilled(procs: seq<Proc>, id: Identity, fd: int, i: nat)
    requires UniquePids(procs) && fd != NO_FD && Record(procs, id, fd).Some? && FindPid(procs, id.pid) == Some(i)
    requires forall p :: p in procs ==> fd !in p.fds && !IsEmpty(p)
    ensures Forget(Record(procs, id, fd).value, id.pid, fd) == procs
  {
    var p := procs[i];
    assert p in procs;
    var k := FindFd(p.fds, NO_FD).value;
    var q := p.(fds := p.fds[k := fd]);
    assert q.fds[k] == fd && forall j :: 0 <= j < |q.fds| && j != k ==> q.fds[j] == p.fds[j] && p.fds[j] in p.fds;
    assert FindFd(q.fds, fd) == Some(k);
    assert q.fds[k := NO_FD] == p.fds;
    var procs' := procs[i := q];
    assert procs'[i] == q;
    FindUnique(procs', i);
    assert procs'[i := p] == procs;
  }

  /** Initializing a context with an answer that can be written opens it, listed, counted once and owned by the client,
      exactly if the client has room; in every other case the call leaves everything as it was. */
  lemma InitExactly(s: State, id: Identity, fd: int, replyOk: bool)
    requires Inv(s) && Enabled(s, InitContext(id, fd, replyOk))
    ensures var s' := Next(s, InitContext(id, fd, replyOk));
      if replyOk && HasRoom(s.procs, id)
      then s' == State(Record(s.procs, id, fd).value, s.contexts[fd := Context(1, true, id.pid)], s.requests)
      else s' == s
    ensures HasRoom(s.procs, id) ==> Record(s.procs, id, fd).Some?
  {
    RecordExactly(s.procs, id, fd);
    var e := Entered(s, id, fd);
    if replyOk && HasRoom(s.procs, id) {
      assert e.contexts[fd := Context(1, true, id.pid)] == s.contexts[fd := Context(1, true, id.pid)];
    } else {
      EnteredInVain(s, id, fd);
    }
  }

  /** A context that is released again at once leaves no trace. */
  lemma EnteredInVain(s: State, id: Identity, fd: int)
    requires Inv(s) && fd >= 0 && fd !in s.contexts
    ensures Release(Entered(s, id, fd), id.pid, fd) == s
  {
    var e := Entered(s, id, fd);
    NewIsNowhere(s, fd);
    ReleasedState(e, id.pid, fd);
    assert e.contexts - {fd} == s.contexts;
    if Record(s.procs, id, fd).Some? {
      ForgetRecorded(s.procs, id, fd);
    } else {
      ForgetNothing(s.procs, id.pid, fd);
    }
  }

  lemma ReleasedState(s: State, pid: int, fd: int)
    requires IsListed(s, fd) && s.contexts[fd].ops == 2
    ensures Release(s, pid, fd) == State(Forget(s.procs, pid, fd), s.contexts - {fd}, s.requests)
  {
    var c := s.contexts[fd];
    var s1 := s.(contexts := s.contexts[fd := c.(ops := 1)]);
    assert Put(s, pid, fd) == s1;
    assert Unlist(s1, fd).contexts - {fd} == s.contexts - {fd};
  }

  /** In every run: the context a client asks for is open afterwards if and only if the answer could be written, the
      client's record, if it has one, is of the same identity, and fewer than sixteen descriptors stand in it. */
  lemma OpensExactly(es: seq<Event>, id: Identity, fd: int, replyOk: bool)
    requires Exec(es).Some? && Enabled(Exec(es).value, InitContext(id, fd, replyOk))
    ensures var s := Exec(es).value;
      fd in Next(s, InitContext(id, fd, replyOk)).contexts <==>
        replyOk && forall p :: p in s.procs && p.id.pid == id.pid ==> p.id == id && |Used(p)| < 16
  {
    var s := Exec(es).value;
    InitExactly(s, id, fd, replyOk);
    forall p | p in s.procs
      ensures NO_FD in p.fds <==> |Used(p)| < 16
    {
      assert SlotsOk(p, s.contexts);
      RoomIsCount(p);
    }
  }

  // ---------------------------------------------------------------- the other steps

  /** The caller's own record names the descriptor, and the context is on the list. */
  ghost predicate IsOwn(s: State, id: Identity, fd: int) {
    fd >= 0 && IsListed(s, fd) && exists p :: p in s.procs && p.id == id && fd in p.fds
  }

  lemma ValidExactly(s: State, id: Identity, fd: int)
    requires UniquePids(s.procs)
    ensures IsValidContext(s, id, fd) && IsListed(s, fd) <==> IsOwn(s, id, fd)
  {
    if p :| p in s.procs && p.id == id && fd in p.fds {
      var i :| 0 <= i < |s.procs| && s.procs[i] == p;
      FindUnique(s.procs, i);
    }
    if IsValidContext(s, id, fd) {
      assert s.procs[FindPid(s.procs, id.pid).value] in s.procs;
    }
  }

  /** Nothing happens to any context but `fd`. */
  ghost predicate OnlyContext(s: State, s': State, fd: int) {
    forall f :: f != fd ==> (f in s'.contexts <==> f in s.contexts) && (f in s.contexts ==> s'.contexts[f] == s.contexts[f])
  }

  /** Records lose `fd` at most, and only with its context. */
  ghost predicate OnlyForgets(s: State, s': State, fd: int) {
    && (fd in s'.contexts ==> s'.procs == s.procs)
    && (fd in s.contexts && fd !in s'.contexts ==> s'.procs == Forget(s.procs, s.contexts[fd].owner, fd))
  }

  /** Finalizing one's own listed context takes it off the list, and closes it exactly if no request is running on it;
      anything else that is asked for changes nothing. */
  lemma FinalizeExactly(s: State, id: Identity, fd: int)
    requires Inv(s)
    ensures var s' := Next(s, FinalizeContext(id, fd));
      if IsOwn(s, id, fd) then
        && !IsListed(s', fd) && (fd in s'.contexts <==> On(s.requests, fd) != {})
        && (fd in s'.contexts ==> s'.contexts[fd] == Context(s.contexts[fd].ops - 1, false, id.pid))
        && OnlyContext(s, s', fd) && OnlyForgets(s, s', fd) && s'.requests == s.requests
      else s' == s
  {
    ValidExactly(s, id, fd);
    if IsOwn(s, id, fd) {
      ValidIsOwn(s, id, fd);
      assert ContextOk(s, fd, NO_LOAN);
      assert On(s.requests, fd) == {} <==> |On(s.requests, fd)| == 0;
    }
  }

  /** A request begins exactly on the caller's own listed context, and counts it. */
  lemma BeginExactly(s: State, id: Identity, fd: int, r: nat)
    requires Inv(s) && r !in s.requests
    ensures var s' := Next(s, Begin(id, fd, r));
      if IsOwn(s, id, fd) then
        && s'.requests == s.requests[r := Request(id.pid, fd)] && s'.procs == s.procs && OnlyContext(s, s', fd)
        && fd in s'.contexts && s'.contexts[fd] == s.contexts[fd].(ops := s.contexts[fd].ops + 1)
      else s' == s
  {
    ValidExactly(s, id, fd);
  }

  /** A request that ends gives its reference back; its context is closed exactly if it is off the list and no other
      request is running on it. */
  lemma EndExactly(s: State, r: nat)
    requires Inv(s) && r in s.requests
    ensures var s', fd := Next(s, End(r)), s.requests[r].fd;
      && s'.requests == s.requests - {r} && fd in s.contexts
      && (fd !in s'.contexts <==> !IsListed(s, fd) && On(s.requests, fd) == {r})
      && (fd in s'.contexts ==> s'.contexts[fd] == s.contexts[fd].(ops := s.contexts[fd].ops - 1))
      && OnlyContext(s, s', fd) && OnlyForgets(s, s', fd)
  {
    var fd := s.requests[r].fd;
    RequestCounted(s, r);
    assert ContextOk(s, fd, NO_LOAN);
    assert r in On(s.requests, fd);
    assert |On(s.requests, fd)| == 1 <==> On(s.requests, fd) == {r} by {
      assert |On(s.requests, fd) - {r}| == |On(s.requests, fd)| - 1;
    }
  }

  /** A client's death touches no record, context or request of another client. */
  lemma DiedExactly(s: State, pid: int)
    requires Inv(s)
    ensures var s' := Next(s, Died(pid));
      && (forall p :: p in s'.procs <==> p in s.procs && p.id.pid != pid)
      && s'.requests == s.requests
      && (forall f :: f in s.contexts && s.contexts[f].owner != pid ==> f in s'.contexts && s'.contexts[f] == s.contexts[f])
      && s'.contexts.Keys <= s.contexts.Keys
  {
    FindNobody(s.procs, pid);
    if FindPid(s.procs, pid).Some? {
      var i := FindPid(s.procs, pid).value;
      var s1 := s.(procs := RemoveAt(s.procs, i));
      RemovedKeeps(s, i);
      RemovedMembers(s.procs, i);
      CleanKeeps(s1, s.procs[i].fds, 0, pid);
      CleanLeaves(s1, s.procs[i].fds, 0, Rest(s.procs[i].fds, 0));
      forall f | f in s.contexts && s.contexts[f].owner != pid
        ensures f !in Rest(s.procs[i].fds, 0)
      {
      }
    }
  }

  /** The cleaning loop leaves other contexts alone. */
  lemma {:induction false} CleanLeaves(s: State, fds: seq<int>, k: nat, own: set<int>)
    requires k <= |fds| && forall j :: k <= j < |fds| && fds[j] != NO_FD ==> fds[j] in own
    ensures forall f :: f in s.contexts && f !in own ==>
      f in Clean(s, fds, k).contexts && Clean(s, fds, k).contexts[f] == s.contexts[f]
    decreases |fds| - k
  {
    if k < |fds| {
      if fds[k] == NO_FD || !IsListed(s, fds[k]) {
        CleanLeaves(s, fds, k + 1, own);
      } else {
        var c := s.contexts[fds[k]];
        var s' := if c.ops > 1 then s.(contexts := s.contexts[fds[k] := Context(c.ops - 1, false, c.owner)])
                  else s.(contexts := s.contexts - {fds[k]});
        CleanLeaves(s', fds, k + 1, own);
      }
    }
  }
}
