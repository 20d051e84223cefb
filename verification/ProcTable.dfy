/** cadaemon's table of client processes and the contexts each of them opened, up to the death of a client. */
module ProcTable {
  import opened Wrappers
  import opened Sequences

  const MAX_CXTCNT := 16
  const NO_FD := -1

  datatype Identity = Identity(pid: int, uid: int, token: int)

  // DaemonProcdata: a client and the descriptors of its contexts, NO_FD where a slot is free.
  datatype Proc = Proc(id: Identity, fds: seq<int>)

  // An open context: its reference count, whether it is on the context list, and the pid that opened it.
  datatype Context = Context(ops: nat, listed: bool, owner: int)

  // A request being served: it holds one reference on a context.
  datatype Request = Request(pid: int, fd: int)

  datatype State = State(procs: seq<Proc>, contexts: map<int, Context>, requests: map<nat, Request>)

  const EMPTY := State([], map[], map[])
  const FREE_SLOTS := [-1, -1, -1, -1, -1, -1, -1, -1, -1, -1, -1, -1, -1, -1, -1, -1]

  // ---------------------------------------------------------------- the table's operations

  /** GetProcdataByPid: the first record of this pid. */
  function FindPid(procs: seq<Proc>, pid: int): Option<nat> {
    First(procs, (p: Proc) => p.id.pid == pid)
  }

  /** First slot holding `fd`. */
  function FindFd(fds: seq<int>, fd: int): Option<nat> {
    First(fds, (x: int) => x == fd)
  }

  predicate IsEmpty(p: Proc) {
    forall k :: 0 <= k < |p.fds| ==> p.fds[k] == NO_FD
  }

  /** RemoveContextFromProcData */
  function RemoveFd(p: Proc, fd: int): Proc {
    match FindFd(p.fds, fd)
    case None => p
    case Some(k) => p.(fds := p.fds[k := NO_FD])
  }

  /** The record of a finalized context's client loses the descriptor, and goes when it was the last. */
  function Forget(procs: seq<Proc>, pid: int, fd: int): seq<Proc> {
    match FindPid(procs, pid)
    case None => procs
    case Some(i) =>
      if IsEmpty(RemoveFd(procs[i], fd)) then RemoveAt(procs, i) else procs[i := RemoveFd(procs[i], fd)]
  }

  /** PutBnContextAndReleaseFd: the last put finalizes the context, closing its descriptor. */
  function Put(s: State, pid: int, fd: int): State
    requires fd in s.contexts && s.contexts[fd].ops > 0
  {
    var c := s.contexts[fd];
    if c.ops > 1 then s.(contexts := s.contexts[fd := c.(ops := c.ops - 1)])
    else s.(contexts := s.contexts - {fd}, procs := Forget(s.procs, pid, fd))
  }

  /** FindAndRemoveBnContext on a listed context: the list's reference passes to the caller. */
  function Unlist(s: State, fd: int): State
    requires fd in s.contexts
  {
    s.(contexts := s.contexts[fd := s.contexts[fd].(listed := false)])
  }

  /** SetContextToProcData: the table with the descriptor recorded, or None when the record is another identity's or full. */
  function Record(procs: seq<Proc>, id: Identity, fd: int): Option<seq<Proc>> {
    match FindPid(procs, id.pid)
    case None => Some(procs + [Proc(id, FREE_SLOTS[0 := fd])])
    case Some(i) =>
      if procs[i].id != id then None
      else
        match FindFd(procs[i].fds, NO_FD)
        case None => None
        case Some(k) => Some(procs[i := procs[i].(fds := procs[i].fds[k := fd])])
  }

  /** IsValidContext: the caller's own record names the descriptor. */
  predicate IsValidContext(s: State, id: Identity, fd: int) {
    && fd >= 0
    && FindPid(s.procs, id.pid).Some?
    && s.procs[FindPid(s.procs, id.pid).value].id == id
    && fd in s.procs[FindPid(s.procs, id.pid).value].fds
  }

  predicate IsListed(s: State, fd: int) {
    fd in s.contexts && s.contexts[fd].listed
  }

  /** CleanProcDataForOneCa from slot `k` on: every context still listed is taken off the list and put. */
  function Clean(s: State, fds: seq<int>, k: nat): State
    requires k <= |fds|
    decreases |fds| - k
  {
    if k == |fds| then s
    else if fds[k] == NO_FD || !IsListed(s, fds[k]) then Clean(s, fds, k + 1)
    else
      var c := s.contexts[fds[k]];
      // no record is left to forget the descriptor: a plain PutBnContext
      var s' := if c.ops > 1 then s.(contexts := s.contexts[fds[k] := Context(c.ops - 1, false, c.owner)])
                else s.(contexts := s.contexts - {fds[k]});
      Clean(s', fds, k + 1)
  }

  datatype Event =
    | InitContext(id: Identity, fd: int, replyOk: bool)
    | FinalizeContext(id: Identity, fd: int)
    | Begin(id: Identity, fd: int, r: nat)     // IsValidContext, then GetBnContext
    | End(r: nat)                              // PutBnContextAndReleaseFd of a request
    | Died(pid: int)                           // ProcessCaDied

  /** The kernel gives a descriptor that is not open; request numbers are new; only running requests end. */
  predicate Enabled(s: State, e: Event) {
    match e
    case InitContext(_, fd, _) => fd >= 0 && fd !in s.contexts
    case FinalizeContext(_, _) => true
    case Begin(_, _, r) => r !in s.requests
    case End(r) => r in s.requests
    case Died(_) => true
  }

  // ---------------------------------------------------------------- the invariant

  ghost function On(requests: map<nat, Request>, fd: int): set<nat> {
    set r | r in requests && requests[r].fd == fd
  }

  // `extra` references on one context are in the hands of the step that runs; `loose` contexts need no record.
  datatype Loan = Loan(fd: int, extra: nat, loose: set<int>)

  const NO_LOAN := Loan(NO_FD, 0, {})

  /** A listed record: some descriptor, all different, each a live context that this client opened. */
  ghost predicate SlotsOk(p: Proc, contexts: map<int, Context>) {
    && |p.fds| == MAX_CXTCNT && !IsEmpty(p)
    && (forall k, l :: 0 <= k < l < MAX_CXTCNT && p.fds[k] != NO_FD ==> p.fds[k] != p.fds[l])
    && (forall k :: 0 <= k < MAX_CXTCNT && p.fds[k] != NO_FD ==>
          p.fds[k] in contexts && contexts[p.fds[k]].owner == p.id.pid)
  }

  ghost predicate Names(p: Proc, fd: int, pid: int) {
    p.id.pid == pid && fd in p.fds
  }

  ghost predicate Recorded(s: State, fd: int) {
    fd in s.contexts && exists p :: p in s.procs && Names(p, fd, s.contexts[fd].owner)
  }

  /** A live context: counted by its requests and its listing; while listed, its client has a record of it. */
  ghost predicate ContextOk(s: State, fd: int, loan: Loan)
    requires fd in s.contexts
  {
    var c := s.contexts[fd];
    && fd >= 0 && c.ops > 0
    && c.ops == |On(s.requests, fd)| + (if c.listed then 1 else 0) + (if fd == loan.fd then loan.extra else 0)
    && (c.listed && fd !in loan.loose ==> Recorded(s, fd))
  }

  ghost predicate RequestOk(s: State, r: nat)
    requires r in s.requests
  {
    s.requests[r].fd in s.contexts && s.contexts[s.requests[r].fd].owner == s.requests[r].pid
  }

  ghost predicate UniquePids(procs: seq<Proc>) {
    forall i, j :: 0 <= i < j < |procs| ==> procs[i].id.pid != procs[j].id.pid
  }

  ghost predicate Holds(s: State, loan: Loan) {
    && UniquePids(s.procs)
    && (forall p {:trigger SlotsOk(p, s.contexts)} :: p in s.procs ==> SlotsOk(p, s.contexts))
    && (forall f {:trigger ContextOk(s, f, loan)} :: f in s.contexts ==> ContextOk(s, f, loan))
    && (forall r {:trigger RequestOk(s, r)} :: r in s.requests ==> RequestOk(s, r))
  }

  ghost predicate Inv(s: State) {
    Holds(s, NO_LOAN)
  }

  // ---------------------------------------------------------------- steps keep it

  /** Records with the same pid are the same record. */
  lemma SameProc(procs: seq<Proc>, p: Proc, q: Proc)
    requires UniquePids(procs) && p in procs && q in procs && p.id.pid == q.id.pid
    ensures p == q
  {
  }

  /** A descriptor stands in one record only, its owner's. */
  lemma OneRecord(s: State, loan: Loan, p: Proc, fd: int)
    requires Holds(s, loan) && p in s.procs && fd in p.fds && fd != NO_FD
    ensures fd in s.contexts && s.contexts[fd].owner == p.id.pid
    ensures forall q :: q in s.procs && fd in q.fds ==> q == p
  {
    assert SlotsOk(p, s.contexts);
    forall q | q in s.procs && fd in q.fds
      ensures q == p
    {
      assert SlotsOk(q, s.contexts);
      SameProc(s.procs, p, q);
    }
  }

  lemma RemoveFdProps(p: Proc, fd: int)
    requires fd != NO_FD && |p.fds| == MAX_CXTCNT
    requires forall k, l :: 0 <= k < l < MAX_CXTCNT && p.fds[k] != NO_FD ==> p.fds[k] != p.fds[l]
    ensures var q := RemoveFd(p, fd);
      q.id == p.id && |q.fds| == MAX_CXTCNT &&
      forall k :: 0 <= k < MAX_CXTCNT ==> q.fds[k] == if p.fds[k] == fd then NO_FD else p.fds[k]
  {
  }

  lemma RemovedMembers(procs: seq<Proc>, i: nat)
    requires UniquePids(procs) && i < |procs|
    ensures procs[i] in procs && UniquePids(RemoveAt(procs, i))
    ensures forall q :: q in procs && q != procs[i] ==> q in RemoveAt(procs, i)
    ensures forall q :: q in RemoveAt(procs, i) ==> q in procs && q.id.pid != procs[i].id.pid
  {
    assert procs == procs[..i] + [procs[i]] + procs[i + 1..];
  }

  lemma ReplacedMembers(procs: seq<Proc>, i: nat, p: Proc)
    requires UniquePids(procs) && i < |procs| && p.id == procs[i].id
    ensures UniquePids(procs[i := p])
    ensures forall q :: q in procs && q != procs[i] ==> q in procs[i := p]
    ensures p in procs[i := p]
    ensures forall q :: q in procs[i := p] ==> q == p || (q in procs && q.id.pid != p.id.pid)
  {
    assert procs[i := p][i] == p;
    forall q | q in procs && q != procs[i]
      ensures q in procs[i := p]
    {
      var j :| 0 <= j < |procs| && procs[j] == q;
      assert procs[i := p][j] == q;
    }
  }

  /** After Forget: other clients' records as they were; this client's without the descriptor, unless that was its last. */
  lemma ForgetMembers(procs: seq<Proc>, pid: int, fd: int, q: Proc)
    requires UniquePids(procs)
    ensures UniquePids(Forget(procs, pid, fd))
    ensures q in Forget(procs, pid, fd) <==>
      (q in procs && q.id.pid != pid) || (exists p :: p in procs && p.id.pid == pid && q == RemoveFd(p, fd) && !IsEmpty(q))
  {
    match FindPid(procs, pid)
    case None =>
    case Some(i) =>
      var p := procs[i];
      forall r | r in procs && r.id.pid == pid
        ensures r == p
      {
        SameProc(procs, r, p);
      }
      RemovedMembers(procs, i);
      ReplacedMembers(procs, i, RemoveFd(p, fd));
  }

  /** A loan that is paid back. */
  lemma LoanOver(s: State, loan: Loan)
    requires Holds(s, loan) && loan.extra == 0
    requires forall f :: f in loan.loose && f in s.contexts ==> !s.contexts[f].listed
    ensures Inv(s)
  {
    forall f | f in s.contexts
      ensures ContextOk(s, f, NO_LOAN)
    {
      assert ContextOk(s, f, loan);
    }
  }

  /** The contexts change in place, at one descriptor, and keep their owner. */
  lemma ContextChanged(s: State, loan: Loan, fd: int, c: Context, requests: map<nat, Request>, loan': Loan)
    requires Holds(s, loan) && fd in s.contexts && c.owner == s.contexts[fd].owner && c.ops > 0
    requires forall f :: f in s.contexts && f != fd ==> |On(requests, f)| == |On(s.requests, f)|
    requires forall r :: r in requests ==>
      (r in s.requests && requests[r] == s.requests[r]) || requests[r] == Request(c.owner, fd)
    requires loan.fd == fd || loan.fd == NO_FD
    requires loan'.fd == fd || loan'.fd == NO_FD
    requires c.ops == |On(requests, fd)| + (if c.listed then 1 else 0) + (if fd == loan'.fd then loan'.extra else 0)
    requires c.listed ==> s.contexts[fd].listed
    requires loan.loose - {fd} <= loan'.loose && (c.listed && fd in loan.loose ==> fd in loan'.loose)
    ensures Holds(s.(contexts := s.contexts[fd := c], requests := requests), loan')
  {
    var s' := s.(contexts := s.contexts[fd := c], requests := requests);
    forall p | p in s'.procs
      ensures SlotsOk(p, s'.contexts)
    {
      assert SlotsOk(p, s.contexts);
    }
    assert ContextOk(s, fd, loan);
    forall f | f in s'.contexts
      ensures ContextOk(s', f, loan')
    {
      assert ContextOk(s, f, loan);
    }
    forall r | r in s'.requests
      ensures RequestOk(s', r)
    {
      assert r in s.requests ==> RequestOk(s, r);
    }
  }

  lemma SlotsForgotten(s: State, loan: Loan, q: Proc)
    requires Holds(s, loan) && loan.fd >= 0 && loan.fd in s.contexts
    requires q in Forget(s.procs, s.contexts[loan.fd].owner, loan.fd)
    ensures SlotsOk(q, s.contexts - {loan.fd}) && loan.fd !in q.fds
  {
    var fd, pid := loan.fd, s.contexts[loan.fd].owner;
    ForgetMembers(s.procs, pid, fd, q);
    if q in s.procs && q.id.pid != pid {
      assert SlotsOk(q, s.contexts);
    } else {
      var p :| p in s.procs && p.id.pid == pid && q == RemoveFd(p, fd) && !IsEmpty(q);
      assert SlotsOk(p, s.contexts);
      RemoveFdProps(p, fd);
    }
  }

  /** The last reference goes: the context is finalized and its client's record forgets it. */
  lemma PutLast(s: State, loan: Loan)
    requires Holds(s, loan) && loan.extra > 0 && loan.fd in s.contexts && s.contexts[loan.fd].ops == 1
    ensures Holds(Put(s, s.contexts[loan.fd].owner, loan.fd), loan.(extra := loan.extra - 1))
    ensures var s' := Put(s, s.contexts[loan.fd].owner, loan.fd); forall p :: p in s'.procs ==> loan.fd !in p.fds
  {
    var fd, pid := loan.fd, s.contexts[loan.fd].owner;
    var s' := Put(s, pid, fd);
    assert ContextOk(s, fd, loan);
    assert On(s.requests, fd) == {} && !s.contexts[fd].listed && loan.extra == 1;
    forall q | q in s'.procs
      ensures SlotsOk(q, s'.contexts) && fd !in q.fds
    {
      SlotsForgotten(s, loan, q);
    }
    assert UniquePids(s'.procs) by {
      ForgetMembers(s.procs, pid, fd, Proc(Identity(0, 0, 0), []));
    }
    forall f | f in s'.contexts
      ensures ContextOk(s', f, loan.(extra := loan.extra - 1))
    {
      assert ContextOk(s, f, loan);
      if s.contexts[f].listed && f !in loan.loose {
        StillRecorded(s, loan, f);
      }
    }
    forall r | r in s'.requests
      ensures RequestOk(s', r)
    {
      assert RequestOk(s, r);
      assert r !in On(s.requests, fd);
    }
  }

  /** Forgetting one descriptor keeps the record of every other. */
  lemma StillRecorded(s: State, loan: Loan, f: int)
    requires Holds(s, loan) && loan.fd in s.contexts && s.contexts[loan.fd].ops == 1
    requires f in s.contexts && f != loan.fd && Recorded(s, f)
    ensures Recorded(Put(s, s.contexts[loan.fd].owner, loan.fd), f)
  {
    var fd, pid := loan.fd, s.contexts[loan.fd].owner;
    var s' := Put(s, pid, fd);
    var p :| p in s.procs && Names(p, f, s.contexts[f].owner);
    assert SlotsOk(p, s.contexts) && ContextOk(s, f, loan) && ContextOk(s, fd, loan);
    if p.id.pid != pid {
      ForgetMembers(s.procs, pid, fd, p);
      assert p in s'.procs && Names(p, f, s'.contexts[f].owner);
    } else {
      var q := RemoveFd(p, fd);
      RemoveFdProps(p, fd);
      assert exists k :: 0 <= k < MAX_CXTCNT && q.fds[k] == f;
      ForgetMembers(s.procs, pid, fd, q);
      assert q in s'.procs && Names(q, f, s'.contexts[f].owner);
    }
  }

  lemma PutKeeps(s: State, loan: Loan)
    requires Holds(s, loan) && loan.extra > 0 && loan.fd in s.contexts
    ensures s.contexts[loan.fd].ops > 0
    ensures Holds(Put(s, s.contexts[loan.fd].owner, loan.fd), loan.(extra := loan.extra - 1))
    ensures var s' := Put(s, s.contexts[loan.fd].owner, loan.fd);
      loan.fd !in s'.contexts <==> s.contexts[loan.fd].ops == 1
  {
    var fd, c := loan.fd, s.contexts[loan.fd];
    assert ContextOk(s, fd, loan);
    if c.ops > 1 {
      ContextChanged(s, loan, fd, c.(ops := c.ops - 1), s.requests, loan.(extra := loan.extra - 1));
    } else {
      PutLast(s, loan);
    }
  }

  lemma UnlistKeeps(s: State, loan: Loan, fd: int)
    requires Holds(s, loan) && IsListed(s, fd) && (loan.fd == fd || loan.extra == 0)
    ensures Holds(Unlist(s, fd), Loan(fd, (if loan.fd == fd then loan.extra else 0) + 1, loan.loose - {fd}))
  {
    var extra := if loan.fd == fd then loan.extra else 0;
    assert ContextOk(s, fd, loan);
    var l := Loan(fd, extra, loan.loose);
    assert Holds(s, l) by {
      forall f | f in s.contexts
        ensures ContextOk(s, f, l)
      {
        assert ContextOk(s, f, loan);
      }
    }
    ContextChanged(s, l, fd, s.contexts[fd].(listed := false), s.requests, Loan(fd, extra + 1, loan.loose - {fd}));
    assert s.requests == Unlist(s, fd).requests;
  }

  /** A new context: one reference for the list, one for the request that opens it. */
  lemma OpenedKeeps(s: State, pid: int, fd: int)
    requires Inv(s) && fd >= 0 && fd !in s.contexts
    ensures Holds(s.(contexts := s.contexts[fd := Context(2, true, pid)]), Loan(fd, 1, {fd}))
  {
    var s', loan := s.(contexts := s.contexts[fd := Context(2, true, pid)]), Loan(fd, 1, {fd});
    forall r | r in s.requests
      ensures RequestOk(s', r) && s.requests[r].fd != fd
    {
      assert RequestOk(s, r);
    }
    assert On(s.requests, fd) == {};
    forall p | p in s'.procs
      ensures SlotsOk(p, s'.contexts)
    {
      assert SlotsOk(p, s.contexts);
    }
    forall f | f in s'.contexts
      ensures ContextOk(s', f, loan)
    {
      if f != fd {
        assert ContextOk(s, f, NO_LOAN);
        assert s.contexts[f].listed ==> Recorded(s, f);
      }
    }
  }

  /** Recording the new context ends its being loose. */
  lemma RecordKeeps(s: State, id: Identity, fd: int)
    requires Holds(s, Loan(fd, 1, {fd})) && fd in s.contexts && s.contexts[fd].owner == id.pid
    requires forall p :: p in s.procs ==> fd !in p.fds
    requires Record(s.procs, id, fd).Some?
    ensures Holds(s.(procs := Record(s.procs, id, fd).value), Loan(fd, 1, {}))
  {
    var s', l := s.(procs := Record(s.procs, id, fd).value), Loan(fd, 1, {fd});
    assert ContextOk(s, fd, l);
    forall q | q in s'.procs
      ensures SlotsOk(q, s'.contexts)
    {
      RecordedSlots(s, id, fd, q);
    }
    forall f | f in s'.contexts
      ensures ContextOk(s', f, Loan(fd, 1, {}))
    {
      assert ContextOk(s, f, l);
      if s.contexts[f].listed {
        RecordKeepsRecords(s, id, fd, f);
      }
    }
    forall r | r in s'.requests
      ensures RequestOk(s', r)
    {
      assert RequestOk(s, r);
    }
  }

  lemma SlotFilled(p: Proc, contexts: map<int, Context>, k: nat, fd: int)
    requires SlotsOk(p, contexts) && k < |p.fds| && p.fds[k] == NO_FD && fd >= 0 && fd !in p.fds
    requires fd in contexts && contexts[fd].owner == p.id.pid
    ensures SlotsOk(p.(fds := p.fds[k := fd]), contexts)
  {
    assert p.fds[k := fd][k] == fd;
  }

  lemma RecordedSlots(s: State, id: Identity, fd: int, q: Proc)
    requires Holds(s, Loan(fd, 1, {fd})) && fd in s.contexts && s.contexts[fd].owner == id.pid && fd >= 0
    requires forall p :: p in s.procs ==> fd !in p.fds
    requires Record(s.procs, id, fd).Some? && q in Record(s.procs, id, fd).value
    ensures SlotsOk(q, s.contexts)
  {
    if q in s.procs {
      assert SlotsOk(q, s.contexts);
    } else if FindPid(s.procs, id.pid).None? {
      assert q.fds[0] == fd;
    } else {
      var p := s.procs[FindPid(s.procs, id.pid).value];
      assert p in s.procs;
      SlotFilled(p, s.contexts, FindFd(p.fds, NO_FD).value, fd);
    }
  }

  lemma RecordKeepsRecords(s: State, id: Identity, fd: int, f: int)
    requires UniquePids(s.procs) && Record(s.procs, id, fd).Some? && fd in s.contexts && s.contexts[fd].owner == id.pid
    requires f == fd || (Recorded(s, f) && f >= 0)
    ensures Recorded(s.(procs := Record(s.procs, id, fd).value), f)
  {
    var procs' := Record(s.procs, id, fd).value;
    match FindPid(s.procs, id.pid)
    case None =>
      var q := Proc(id, FREE_SLOTS[0 := fd]);
      assert procs'[|s.procs|] == q && q.fds[0] == fd;
      if f == fd {
        assert q in procs' && Names(q, fd, id.pid);
      } else {
        var p :| p in s.procs && Names(p, f, s.contexts[f].owner);
        assert p in procs';
      }
    case Some(i) =>
      var k := FindFd(s.procs[i].fds, NO_FD).value;
      var q := procs'[i];
      assert q.fds[k] == fd;
      if f == fd {
        assert q in procs' && Names(q, fd, id.pid);
      } else {
        var p :| p in s.procs && Names(p, f, s.contexts[f].owner);
        var j :| 0 <= j < |s.procs| && s.procs[j] == p;
        if j == i {
          var m :| 0 <= m < |p.fds| && p.fds[m] == f;
          assert q.fds[m] == f;
          assert q in procs' && Names(q, f, s.contexts[f].owner);
        } else {
          assert procs'[j] == p;
        }
      }
  }

  // ---------------------------------------------------------------- a client dies

  /** The descriptors of slots `k` onwards. */
  ghost function Rest(fds: seq<int>, k: nat): set<int>
    requires k <= |fds|
  {
    set j | k <= j < |fds| && fds[j] != NO_FD :: fds[j]
  }

  /** Taking a record off the table leaves its contexts loose. */
  lemma RemovedKeeps(s: State, i: nat)
    requires Inv(s) && i < |s.procs|
    ensures Holds(s.(procs := RemoveAt(s.procs, i)), Loan(NO_FD, 0, Rest(s.procs[i].fds, 0)))
    ensures forall p :: p in RemoveAt(s.procs, i) ==> p.id.pid != s.procs[i].id.pid
    ensures forall f :: f in Rest(s.procs[i].fds, 0) ==> f in s.contexts && s.contexts[f].owner == s.procs[i].id.pid
  {
    var p, procs' := s.procs[i], RemoveAt(s.procs, i);
    var s', loan := s.(procs := procs'), Loan(NO_FD, 0, Rest(p.fds, 0));
    RemovedMembers(s.procs, i);
    assert SlotsOk(p, s.contexts);
    forall q | q in procs'
      ensures SlotsOk(q, s'.contexts)
    {
      assert SlotsOk(q, s.contexts);
    }
    forall f | f in s'.contexts
      ensures ContextOk(s', f, loan)
    {
      assert ContextOk(s, f, NO_LOAN);
      if s.contexts[f].listed && f !in loan.loose {
        var q :| q in s.procs && Names(q, f, s.contexts[f].owner);
        assert q != p;
        assert q in s'.procs && Names(q, f, s'.contexts[f].owner);
      }
    }
    forall r | r in s'.requests
      ensures RequestOk(s', r)
    {
      assert RequestOk(s, r);
    }
  }

  /** Without a record of the pid, a put has nothing to forget. */
  lemma PlainPut(s: State, pid: int, fd: int)
    requires fd in s.contexts && s.contexts[fd].ops > 0
    requires forall p :: p in s.procs ==> p.id.pid != pid
    ensures Put(s, pid, fd).procs == s.procs
  {
  }

  /** The cleaning loop: afterwards none of the record's contexts is listed, and those nobody uses are closed. */
  lemma {:induction false} CleanKeeps(s: State, fds: seq<int>, k: nat, pid: int)
    requires k <= |fds| && Holds(s, Loan(NO_FD, 0, Rest(fds, k)))
    requires forall p :: p in s.procs ==> p.id.pid != pid
    requires forall f :: f in Rest(fds, k) && f in s.contexts ==> s.contexts[f].owner == pid
    ensures Inv(Clean(s, fds, k)) && Clean(s, fds, k).procs == s.procs && Clean(s, fds, k).requests == s.requests
    ensures forall f :: f in Rest(fds, k) ==> !IsListed(Clean(s, fds, k), f)
    ensures Clean(s, fds, k).contexts.Keys <= s.contexts.Keys
    ensures forall f :: f in s.contexts && !IsListed(s, f) ==>
      f in Clean(s, fds, k).contexts && Clean(s, fds, k).contexts[f] == s.contexts[f]
    ensures forall f :: f in Rest(fds, k) && IsListed(s, f) ==> (f in Clean(s, fds, k).contexts <==> On(s.requests, f) != {})
    decreases |fds| - k
  {
    var loan := Loan(NO_FD, 0, Rest(fds, k));
    if k == |fds| {
      LoanOver(s, loan);
    } else if fds[k] == NO_FD {
      assert Rest(fds, k) == Rest(fds, k + 1);
      CleanKeeps(s, fds, k + 1, pid);
    } else {
      var fd := fds[k];
      assert Rest(fds, k) == {fd} + Rest(fds, k + 1);
      CleanOne(s, fds, k, pid);
      var s' := if IsListed(s, fd) then Put(Unlist(s, fd), pid, fd) else s;
      CleanKeeps(s', fds, k + 1, pid);
    }
  }

  /** One turn of the loop on a slot that is in use. */
  lemma CleanOne(s: State, fds: seq<int>, k: nat, pid: int)
    requires k < |fds| && fds[k] != NO_FD && Holds(s, Loan(NO_FD, 0, Rest(fds, k)))
    requires forall p :: p in s.procs ==> p.id.pid != pid
    requires forall f :: f in Rest(fds, k) && f in s.contexts ==> s.contexts[f].owner == pid
    ensures IsListed(s, fds[k]) ==> s.contexts[fds[k]].ops > 0
    ensures var fd := fds[k];
      var s' := if IsListed(s, fd) then Put(Unlist(s, fd), pid, fd) else s;
      && Holds(s', Loan(NO_FD, 0, Rest(fds, k + 1)))
      && Clean(s, fds, k) == Clean(s', fds, k + 1) && s'.procs == s.procs && s'.requests == s.requests
      && !IsListed(s', fd) && s'.contexts.Keys <= s.contexts.Keys
      && (forall f :: f in s'.contexts && f != fd ==> s'.contexts[f] == s.contexts[f])
      && (forall f :: f in s.contexts && f != fd ==> f in s'.contexts)
      && (fd in s'.contexts ==> s'.contexts[fd].owner == s.contexts[fd].owner)
      && (IsListed(s, fd) ==> (fd !in s'.contexts <==> On(s.requests, fd) == {}))
  {
    var fd, loan := fds[k], Loan(NO_FD, 0, Rest(fds, k));
    assert Rest(fds, k) == {fd} + Rest(fds, k + 1);
    if IsListed(s, fd) {
      assert ContextOk(s, fd, loan);
      assert On(s.requests, fd) == {} <==> |On(s.requests, fd)| == 0;
      var u := Unlist(s, fd);
      UnlistKeeps(s, loan, fd);
      PutKeeps(u, Loan(fd, 1, loan.loose - {fd}));
      PlainPut(u, pid, fd);
      assert u.contexts - {fd} == s.contexts - {fd};
      var c := Context(s.contexts[fd].ops - 1, false, pid);
      assert u.contexts[fd := c] == s.contexts[fd := c];
      Loosen(Put(u, pid, fd), Loan(fd, 0, loan.loose - {fd}), Rest(fds, k + 1));
    } else {
      Loosen(s, loan, Rest(fds, k + 1));
    }
  }

  lemma Loosen(s: State, loan: Loan, loose: set<int>)
    requires Holds(s, loan) && loan.extra == 0
    requires forall f :: f in loan.loose && f in s.contexts && s.contexts[f].listed ==> f in loose
    ensures Holds(s, Loan(NO_FD, 0, loose))
  {
    forall f | f in s.contexts
      ensures ContextOk(s, f, Loan(NO_FD, 0, loose))
    {
      assert ContextOk(s, f, loan);
    }
  }

  // ---------------------------------------------------------------- whole runs

  /** ReleaseContext: the opening request's reference, then the list's. */
  function Release(s: State, pid: int, fd: int): State
    requires fd in s.contexts && s.contexts[fd].ops > 1
  {
    Put(Unlist(Put(s, pid, fd), fd), pid, fd)
  }

  /** A context on a fresh descriptor, counted for its opener and for the list, and recorded if it can be. */
  function Entered(s: State, id: Identity, fd: int): (s': State)
    ensures IsListed(s', fd) && s'.contexts[fd].ops == 2
  {
    var r := Record(s.procs, id, fd);
    State(if r.Some? then r.value else s.procs, s.contexts[fd := Context(2, true, id.pid)], s.requests)
  }

  function Next(s: State, e: Event): State
    requires Inv(s) && Enabled(s, e)
  {
    match e
    case InitContext(id, fd, replyOk) =>
      var s' := Entered(s, id, fd);
      if replyOk && Record(s.procs, id, fd).Some? then Put(s', id.pid, fd) else Release(s', id.pid, fd)
    case FinalizeContext(id, fd) =>
      if IsValidContext(s, id, fd) && IsListed(s, fd) then
        Counted(s, fd);
        Put(Unlist(s, fd), id.pid, fd)
      else s
    case Begin(id, fd, r) =>
      if IsValidContext(s, id, fd) && IsListed(s, fd) then
        var c := s.contexts[fd];
        s.(contexts := s.contexts[fd := c.(ops := c.ops + 1)], requests := s.requests[r := Request(id.pid, fd)])
      else s
    case End(r) =>
      RequestCounted(s, r);
      Put(s.(requests := s.requests - {r}), s.requests[r].pid, s.requests[r].fd)
    case Died(pid) =>
      (match FindPid(s.procs, pid)
       case None => s
       case Some(i) => Clean(s.(procs := RemoveAt(s.procs, i)), s.procs[i].fds, 0))
  }

  lemma Counted(s: State, fd: int)
    requires Inv(s) && fd in s.contexts
    ensures s.contexts[fd].ops > 0 && fd >= 0
  {
    assert ContextOk(s, fd, NO_LOAN);
  }

  lemma RequestCounted(s: State, r: nat)
    requires Inv(s) && r in s.requests
    ensures RequestOk(s, r) && s.contexts[s.requests[r].fd].ops > 0
  {
    assert RequestOk(s, r);
    Counted(s, s.requests[r].fd);
  }

  /** A caller's valid context is its own. */
  lemma ValidIsOwn(s: State, id: Identity, fd: int)
    requires Inv(s) && IsValidContext(s, id, fd)
    ensures fd in s.contexts && s.contexts[fd].owner == id.pid
  {
    var p := s.procs[FindPid(s.procs, id.pid).value];
    assert p in s.procs;
    OneRecord(s, NO_LOAN, p, fd);
  }

  lemma ReleaseKeeps(s: State, pid: int, fd: int, loose: set<int>)
    requires Holds(s, Loan(fd, 1, loose)) && loose <= {fd} && IsListed(s, fd)
    requires s.contexts[fd].owner == pid && s.contexts[fd].ops > 1
    ensures Inv(Release(s, pid, fd))
  {
    var l := Loan(fd, 1, loose);
    assert ContextOk(s, fd, l);
    PutKeeps(s, l);
    var s1 := Put(s, pid, fd);
    UnlistKeeps(s1, l.(extra := 0), fd);
    var s2 := Unlist(s1, fd);
    PutKeeps(s2, Loan(fd, 1, loose - {fd}));
    LoanOver(Put(s2, pid, fd), Loan(fd, 0, loose - {fd}));
  }

  lemma InitKeeps(s: State, id: Identity, fd: int, replyOk: bool)
    requires Inv(s) && Enabled(s, InitContext(id, fd, replyOk))
    ensures Inv(Next(s, InitContext(id, fd, replyOk)))
  {
    var s1 := s.(contexts := s.contexts[fd := Context(2, true, id.pid)]);
    OpenedKeeps(s, id.pid, fd);
    forall p | p in s.procs
      ensures fd !in p.fds
    {
      assert SlotsOk(p, s.contexts);
    }
    if Record(s.procs, id, fd).None? {
      ReleaseKeeps(s1, id.pid, fd, {fd});
    } else {
      RecordKeeps(s1, id, fd);
      var s2 := s1.(procs := Record(s.procs, id, fd).value);
      if replyOk {
        PutKeeps(s2, Loan(fd, 1, {}));
        LoanOver(Put(s2, id.pid, fd), Loan(fd, 0, {}));
      } else {
        ReleaseKeeps(s2, id.pid, fd, {});
      }
    }
  }

  lemma FinalizeKeeps(s: State, id: Identity, fd: int)
    requires Inv(s)
    ensures Inv(Next(s, FinalizeContext(id, fd)))
  {
    if IsValidContext(s, id, fd) && IsListed(s, fd) {
      ValidIsOwn(s, id, fd);
      Counted(s, fd);
      UnlistKeeps(s, NO_LOAN, fd);
      assert NO_LOAN.loose - {fd} == {};
      PutKeeps(Unlist(s, fd), Loan(fd, 1, {}));
      LoanOver(Put(Unlist(s, fd), id.pid, fd), Loan(fd, 0, {}));
    }
  }

  lemma BeginKeeps(s: State, id: Identity, fd: int, r: nat)
    requires Inv(s) && r !in s.requests
    ensures Inv(Next(s, Begin(id, fd, r)))
  {
    if IsValidContext(s, id, fd) && IsListed(s, fd) {
      ValidIsOwn(s, id, fd);
      var c, requests := s.contexts[fd], s.requests[r := Request(id.pid, fd)];
      assert ContextOk(s, fd, NO_LOAN);
      assert On(requests, fd) == On(s.requests, fd) + {r};
      forall f | f in s.contexts && f != fd
        ensures |On(requests, f)| == |On(s.requests, f)|
      {
        assert On(requests, f) == On(s.requests, f);
      }
      ContextChanged(s, NO_LOAN, fd, c.(ops := c.ops + 1), requests, NO_LOAN);
    }
  }

  /** A request about to put its context: its reference becomes a loan. */
  lemma EndKeeps(s: State, r: nat)
    requires Inv(s) && r in s.requests
    ensures Inv(Next(s, End(r)))
  {
    var fd, requests := s.requests[r].fd, s.requests - {r};
    RequestCounted(s, r);
    assert ContextOk(s, fd, NO_LOAN);
    assert r in On(s.requests, fd) && On(requests, fd) == On(s.requests, fd) - {r};
    forall f | f in s.contexts && f != fd
      ensures |On(requests, f)| == |On(s.requests, f)|
    {
      assert On(requests, f) == On(s.requests, f);
    }
    ContextChanged(s, NO_LOAN, fd, s.contexts[fd], requests, Loan(fd, 1, {}));
    var s1 := s.(requests := requests);
    assert s1 == s.(contexts := s.contexts[fd := s.contexts[fd]], requests := requests);
    PutKeeps(s1, Loan(fd, 1, {}));
    LoanOver(Put(s1, s.requests[r].pid, fd), Loan(fd, 0, {}));
  }

  lemma DiedKeeps(s: State, pid: int)
    requires Inv(s)
    ensures Inv(Next(s, Died(pid)))
  {
    match FindPid(s.procs, pid)
    case None =>
    case Some(i) =>
      RemovedKeeps(s, i);
      CleanKeeps(s.(procs := RemoveAt(s.procs, i)), s.procs[i].fds, 0, pid);
  }

  /** Every request and every client death keeps the table's invariant. */
  lemma StepKeepsInv(s: State, e: Event)
    requires Inv(s) && Enabled(s, e)
    ensures Inv(Next(s, e))
  {
    match e
    case InitContext(id, fd, replyOk) => InitKeeps(s, id, fd, replyOk);
    case FinalizeContext(id, fd) => FinalizeKeeps(s, id, fd);
    case Begin(id, fd, r) => BeginKeeps(s, id, fd, r);
    case End(r) => EndKeeps(s, r);
    case Died(pid) => DiedKeeps(s, pid);
  }

  /** The state after a run of requests and deaths, or None where one was not possible. */
  ghost function Exec(es: seq<Event>): (r: Option<State>)
    ensures r.Some? ==> Inv(r.value)
  {
    if es == [] then Some(EMPTY)
    else
      match Exec(es[..|es| - 1])
      case None => None
      case Some(s) =>
        var e := es[|es| - 1];
        if Enabled(s, e) then
          StepKeepsInv(s, e);
          Some(Next(s, e))
        else None
  }

  /** In every run: one record a pid, each with a descriptor, and no descriptor in two slots of the whole table;
      every recorded descriptor is a live context of that client. */
  lemma TableIsSound(es: seq<Event>, p: Proc, q: Proc, k: nat, l: nat)
    requires Exec(es).Some? && p in Exec(es).value.procs && q in Exec(es).value.procs
    requires k < |p.fds| && l < |q.fds|
    ensures var s := Exec(es).value;
      && (p.id.pid == q.id.pid ==> p == q)
      && (exists m :: 0 <= m < |p.fds| && p.fds[m] != NO_FD)
      && (p.fds[k] != NO_FD ==> p.fds[k] in s.contexts && s.contexts[p.fds[k]].owner == p.id.pid)
      && (p.fds[k] == q.fds[l] != NO_FD ==> p == q && k == l)
  {
    var s := Exec(es).value;
    assert SlotsOk(p, s.contexts) && SlotsOk(q, s.contexts);
    if p.id.pid == q.id.pid {
      SameProc(s.procs, p, q);
    }
  }

  /** When a client dies its record is gone, none of its contexts is listed any more, and exactly those with a
      request still running stay open. */
  lemma DeathCleansUp(es: seq<Event>, pid: int, i: nat, fd: int)
    requires Exec(es).Some? && FindPid(Exec(es).value.procs, pid) == Some(i)
    requires fd != NO_FD && fd in Exec(es).value.procs[i].fds
    ensures var s := Exec(es).value;
      var s' := Next(s, Died(pid));
      && FindPid(s'.procs, pid).None? && !IsListed(s', fd)
      && (fd in s'.contexts <==> On(s.requests, fd) != {})
  {
    var s := Exec(es).value;
    var p := s.procs[i];
    RemovedKeeps(s, i);
    assert fd in Rest(p.fds, 0);
    var s1 := s.(procs := RemoveAt(s.procs, i));
    CleanKeeps(s1, p.fds, 0, pid);
    assert ContextOk(s, fd, NO_LOAN);
  }

  /** A context that is off the list, as every context of a dead client is, is closed by the put of its last request. */
  lemma ClosedAtLastPut(es: seq<Event>, r: nat)
    requires Exec(es).Some? && r in Exec(es).value.requests
    requires !IsListed(Exec(es).value, Exec(es).value.requests[r].fd)
    ensures var s := Exec(es).value;
      var fd := s.requests[r].fd;
      fd !in Next(s, End(r)).contexts <==> On(s.requests, fd) == {r}
  {
    var s := Exec(es).value;
    var fd := s.requests[r].fd;
    RequestCounted(s, r);
    assert ContextOk(s, fd, NO_LOAN);
    assert r in On(s.requests, fd);
    assert |On(s.requests, fd)| == 1 <==> On(s.requests, fd) == {r} by {
      assert |On(s.requests, fd) - {r}| == |On(s.requests, fd)| - 1;
    }
  }
}
