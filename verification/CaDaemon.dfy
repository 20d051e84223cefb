/** The daemon object: the process table and context list that requests update in place. */
module CaDaemon {
  import opened Wrappers
  import opened Sequences
  import opened ProcTable

  class CaDaemonService {
    var procs: seq<Proc>
    var contexts: map<int, Context>
    var requests: map<nat, Request>

    ghost function View(): State
      reads this
    {
      State(procs, contexts, requests)
    }

    ghost predicate Valid()
      reads this
    {
      Inv(View())
    }

    constructor ()
      ensures Valid() && View() == EMPTY
    {
      procs, contexts, requests := [], map[], map[];
    }

    method GetProcdataByPid(pid: int) returns (r: Option<nat>)
      ensures r == FindPid(procs, pid)
    {
      var i := 0;
      while i < |procs|
        invariant 0 <= i <= |procs|
        invariant forall j :: 0 <= j < i ==> procs[j].id.pid != pid
      {
        if procs[i].id.pid == pid {
          return Some(i);
        }
        i := i + 1;
      }
      return None;
    }

    method CheckProcDataFdEmpty(p: Proc) returns (empty: bool)
      ensures empty == IsEmpty(p)
    {
      for i := 0 to |p.fds|
        invariant forall k :: 0 <= k < i ==> p.fds[k] == NO_FD
      {
        if p.fds[i] != NO_FD {
          return false;
        }
      }
      return true;
    }

    method RemoveContextFromProcData(p: Proc, fd: int) returns (q: Proc)
      ensures q == RemoveFd(p, fd)
    {
      for i := 0 to |p.fds|
        invariant forall k :: 0 <= k < i ==> p.fds[k] != fd
      {
        if p.fds[i] == fd {
          return p.(fds := p.fds[i := NO_FD]);
        }
      }
      return p;
    }

    method IsValidContextWithoutLock(id: Identity, fd: int) returns (ok: bool)
      ensures ok == IsValidContext(View(), id, fd)
    {
      if fd < 0 {
        return false;
      }
      var i := GetProcdataByPid(id.pid);
      if i.None? || procs[i.value].id != id {
        return false;
      }
      var fds := procs[i.value].fds;
      for k := 0 to |fds|
        invariant forall j :: 0 <= j < k ==> fds[j] != fd
      {
        if fds[k] == fd {
          return true;
        }
      }
      return false;
    }

    method SetContextToProcData(id: Identity, fd: int) returns (ok: bool)
      modifies this`procs
      ensures ok == Record(old(procs), id, fd).Some?
      ensures procs == if ok then Record(old(procs), id, fd).value else old(procs)
    {
      var i := GetProcdataByPid(id.pid);
      if i.None? {
        procs := procs + [Proc(id, FREE_SLOTS[0 := fd])];
        return true;
      }
      var p := procs[i.value];
      if p.id != id {
        return false;
      }
      for k := 0 to |p.fds|
        invariant procs == old(procs)
        invariant forall j :: 0 <= j < k ==> p.fds[j] != NO_FD
      {
        if p.fds[k] == NO_FD {
          procs := procs[i.value := p.(fds := p.fds[k := fd])];
          return true;
        }
      }
      return false;
    }

    /** PutBnContext: drops one reference, and finalizes the context with the last. */
    method PutBnContext(fd: int) returns (last: bool)
      requires fd in contexts && contexts[fd].ops > 0
      modifies this`contexts
      ensures last == (old(contexts)[fd].ops == 1)
      ensures contexts == if last then old(contexts) - {fd}
                          else old(contexts)[fd := old(contexts)[fd].(ops := old(contexts)[fd].ops - 1)]
    {
      var c := contexts[fd];
      last := c.ops == 1;
      if last {
        contexts := contexts - {fd};
      } else {
        contexts := contexts[fd := c.(ops := c.ops - 1)];
      }
    }

    method FindAndRemoveBnContext(fd: int) returns (found: bool)
      modifies this`contexts
      ensures found == IsListed(old(View()), fd)
      ensures View() == if found then Unlist(old(View()), fd) else old(View())
    {
      found := fd in contexts && contexts[fd].listed;
      if found {
        contexts := contexts[fd := contexts[fd].(listed := false)];
      }
    }

    method PutBnContextAndReleaseFd(pid: int, fd: int)
      requires fd in contexts && contexts[fd].ops > 0
      modifies this`contexts, this`procs
      ensures View() == Put(old(View()), pid, fd)
    {
      var last := PutBnContext(fd);
      if !last {
        return;
      }
      var i := GetProcdataByPid(pid);
      if i.None? {
        return;
      }
      var p := RemoveContextFromProcData(procs[i.value], fd);
      procs := procs[i.value := p];
      var empty := CheckProcDataFdEmpty(p);
      if empty {
        procs := procs[..i.value] + procs[i.value + 1..];
      }
    }

    method CallFinalizeContext(pid: int, fd: int) returns (ok: bool)
      requires IsListed(View(), fd) ==> contexts[fd].ops > 0
      modifies this`contexts, this`procs
      ensures ok == IsListed(old(View()), fd)
      ensures View() == if ok then Put(Unlist(old(View()), fd), pid, fd) else old(View())
    {
      ok := FindAndRemoveBnContext(fd);
      if ok {
        PutBnContextAndReleaseFd(pid, fd);
      }
    }

    method ReleaseContext(pid: int, fd: int)
      requires IsListed(View(), fd) && contexts[fd].ops > 1
      modifies this`contexts, this`procs
      ensures View() == Release(old(View()), pid, fd)
    {
      PutBnContextAndReleaseFd(pid, fd);
      var _ := CallFinalizeContext(pid, fd);
    }

    /** A context opened on the fresh descriptor `fd`; `replyOk` says whether the answer could be written. */
    method InitializeContext(id: Identity, fd: int, replyOk: bool) returns (ok: bool)
      requires Valid() && Enabled(View(), InitContext(id, fd, replyOk))
      modifies this`contexts, this`procs
      ensures Valid() && View() == Next(old(View()), InitContext(id, fd, replyOk))
      ensures ok == (replyOk && Record(old(procs), id, fd).Some?)
    {
      ghost var was := View();
      StepKeepsInv(was, InitContext(id, fd, replyOk));
      contexts := contexts[fd := Context(2, true, id.pid)];
      ok := SetContextToProcData(id, fd);
      assert View() == Entered(was, id, fd);
      if ok && replyOk {
        PutBnContextAndReleaseFd(id.pid, fd);
      } else {
        ReleaseContext(id.pid, fd);
        ok := false;
      }
    }

    method FinalizeContext(id: Identity, fd: int) returns (ok: bool)
      requires Valid()
      modifies this`contexts, this`procs
      ensures Valid() && View() == Next(old(View()), ProcTable.FinalizeContext(id, fd))
      ensures ok == (IsValidContext(old(View()), id, fd) && IsListed(old(View()), fd))
    {
      StepKeepsInv(View(), ProcTable.FinalizeContext(id, fd));
      ok := IsValidContextWithoutLock(id, fd);
      if ok {
        if fd in contexts {
          Counted(View(), fd);
        }
        ok := CallFinalizeContext(id.pid, fd);
      }
    }

    /** A request that names a context: validated against the caller's record, then GetBnContext takes a reference. */
    method BeginRequest(id: Identity, fd: int, r: nat) returns (ok: bool)
      requires Valid() && r !in requests
      modifies this`contexts, this`requests
      ensures Valid() && View() == Next(old(View()), Begin(id, fd, r))
      ensures ok <==> r in requests
    {
      StepKeepsInv(View(), Begin(id, fd, r));
      ok := IsValidContextWithoutLock(id, fd);
      if ok && fd in contexts && contexts[fd].listed {
        contexts := contexts[fd := contexts[fd].(ops := contexts[fd].ops + 1)];
        requests := requests[r := Request(id.pid, fd)];
      } else {
        ok := false;
      }
    }

    /** The request is over and puts its context. */
    method EndRequest(r: nat)
      requires Valid() && r in requests
      modifies this
      ensures Valid() && View() == Next(old(View()), End(r))
    {
      StepKeepsInv(View(), End(r));
      RequestCounted(View(), r);
      var request := requests[r];
      requests := requests - {r};
      PutBnContextAndReleaseFd(request.pid, request.fd);
    }

    /** The loop takes the contexts of a removed record off the list and puts each. */
    method CleanProcDataForOneCa(p: Proc, pid: int)
      requires Holds(View(), Loan(NO_FD, 0, Rest(p.fds, 0)))
      requires forall q :: q in procs ==> q.id.pid != pid
      requires forall f :: f in Rest(p.fds, 0) && f in contexts ==> contexts[f].owner == pid
      modifies this`contexts
      ensures View() == Clean(old(View()), p.fds, 0)
    {
      for i := 0 to |p.fds|
        invariant procs == old(procs) && requests == old(requests)
        invariant Clean(View(), p.fds, i) == Clean(old(View()), p.fds, 0)
        invariant Holds(View(), Loan(NO_FD, 0, Rest(p.fds, i)))
        invariant forall f :: f in Rest(p.fds, i) && f in contexts ==> contexts[f].owner == pid
      {
        if p.fds[i] == NO_FD {
          assert Rest(p.fds, i) == Rest(p.fds, i + 1);
          continue;
        }
        CleanOne(View(), p.fds, i, pid);
        PutUnlisted(View(), p.fds[i], pid);
        assert Rest(p.fds, i + 1) <= Rest(p.fds, i);
        var found := FindAndRemoveBnContext(p.fds[i]);
        if found {
          var _ := PutBnContext(p.fds[i]);
        }
      }
    }

    method ProcessCaDied(pid: int)
      requires Valid()
      modifies this`contexts, this`procs
      ensures Valid() && View() == Next(old(View()), Died(pid))
    {
      StepKeepsInv(View(), Died(pid));
      var i := GetProcdataByPid(pid);
      if i.None? {
        return;
      }
      RemovedKeeps(View(), i.value);
      var p := procs[i.value];
      procs := procs[..i.value] + procs[i.value + 1..];
      CleanProcDataForOneCa(p, pid);
    }
  }

  /** With no record of its client left, unlisting and putting a context changes the context list alone. */
  lemma PutUnlisted(s: State, fd: int, pid: int)
    requires forall q :: q in s.procs ==> q.id.pid != pid
    requires IsListed(s, fd) ==> s.contexts[fd].ops > 0
    ensures IsListed(s, fd) ==> Put(Unlist(s, fd), pid, fd).procs == s.procs
  {
    if IsListed(s, fd) {
      PlainPut(Unlist(s, fd), pid, fd);
    }
  }
}
