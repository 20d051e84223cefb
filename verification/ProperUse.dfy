/** Applications that keep to the rules never bring the client's table and the daemon's lists apart. */
module ProperUse {
  import opened Words
  import opened Wrappers
  import opened Sequences
  import opened Operations
  import opened Slots
  import opened ClientCodec
  import opened DaemonCodec
  import opened ClientTable
  import opened Agreement

  // ---------------------------------------------------------------- applications that keep to the rules

  /** The structures the application may still release: allocated or registered, not released since, and their
      context not finalized since. */
  ghost function Standing(es: seq<Event>): set<nat> {
    if es == [] then {}
    else
      var n := |es| - 1;
      StandingAfter(After(es[..n]), Standing(es[..n]), es[n])
  }

  ghost function StandingAfter(s: State, standing: set<nat>, e: Event): set<nat> {
    match e
    case Allocate(h, _, _, _, _, _) => standing + {h}
    case Register(h, _, _, _, _) => standing + {h}
    case Release(h, _) => standing - {h}
    case Finalize(c) => set h | h in standing && Struct(s, h).ctx != Some(c)
    case _ => standing
  }

  /** The rules: sizes are not zero; an open context structure is not opened again; a structure is cleared or
      released before it is allocated; registered memory is the application's own and stays so; only standing
      structures are released. That the daemon maps at no address registered with the same context is the one
      rule an application cannot see to. */
  ghost predicate Proper(s: State, standing: set<nat>, e: Event) {
    match e
    case Open(c, _) => FdOf(s, c) !in s.contexts
    case Allocate(h, c, size, _, daemonAt, at) =>
      && size != 0 && Struct(s, h).buffer == NULL
      && (forall g :: g in standing && Struct(s, g).buffer != NULL ==> Struct(s, g).buffer != at)
      && (forall g :: g in standing && !Struct(s, g).isAllocated && Points(s, Struct(s, g), FdOf(s, c)) ==>
            Struct(s, g).buffer != daemonAt)
    case Register(_, c, buffer, _, _) =>
      && (forall r :: r in s.table ==> r.buffer != buffer)
      && (FdOf(s, c) in s.contexts ==> !MapsAt(s.contexts[FdOf(s, c)], buffer))
    case Release(h, _) => h in standing || Struct(s, h).ctx.None?
    case _ => true
  }

  ghost predicate AlwaysProper(es: seq<Event>) {
    es == [] ||
    (AlwaysProper(es[..|es| - 1]) && Proper(After(es[..|es| - 1]), Standing(es[..|es| - 1]), es[|es| - 1]))
  }

  /** A structure with the buffer of a row is an allocated one and points to that row's context; one that is not
      allocated has no address that the daemon mapped for its context. */
  ghost predicate ShmOk(s: State, shm: Shm) {
    && (forall r :: r in s.table && r.buffer == shm.buffer ==> shm.isAllocated && Points(s, shm, r.fd))
    && (!shm.isAllocated && shm.ctx.Some? && FdOf(s, shm.ctx.value) in s.contexts ==>
          !MapsAt(s.contexts[FdOf(s, shm.ctx.value)], shm.buffer))
  }

  ghost predicate Tidy(s: State, standing: set<nat>) {
    && Agrees(s) && ContextsOk(s) && RowsApart(s.table) && SlotsApart(s.table)
    && forall h {:trigger Struct(s, h)} :: h in standing ==> ShmOk(s, Struct(s, h))
  }

  lemma NullShm(s: State, shm: Shm)
    requires ContextsOk(s) && AllSized(s.table) && shm.buffer == NULL
    ensures ShmOk(s, shm)
  {
    forall r | r in s.table
      ensures r.buffer != NULL
    {
      assert RowSized(r);
    }
    if shm.ctx.Some? && FdOf(s, shm.ctx.value) in s.contexts {
      assert ContextOk(s.contexts[FdOf(s, shm.ctx.value)]);
    }
  }

  /** A proper call breaks nothing. */
  lemma ProperNeverBreaks(s: State, standing: set<nat>, e: Event)
    requires Tidy(s, standing) && Proper(s, standing, e)
    ensures !Breaks(s, e)
  {
    match e
    case Release(h, _) =>
      var shm := Struct(s, h);
      if shm.ctx.Some? && FdOf(s, shm.ctx.value) in s.contexts {
        assert ShmOk(s, shm);
        ReleaseDirected(s, shm, FdOf(s, shm.ctx.value));
      }
    case Finalize(c) =>
      forall r | r in s.table
        ensures RowSized(r)
      {
      }
    case _ =>
  }

  lemma ReleaseDirected(s: State, shm: Shm, fd: int)
    requires ContextsOk(s) && SlotsApart(s.table) && ShmOk(s, shm) && Points(s, shm, fd) && fd in s.contexts
    ensures !Misdirected(s, shm)
  {
    if shm.isAllocated {
      var i := FirstRow(s.table, shm.buffer);
      if i.Some? {
        assert s.table[i.value] in s.table;
      }
    } else {
      var k := FirstMatch(s.contexts[fd].blocks, false, 0, shm.buffer);
      assert k.Some? && s.contexts[fd].blocks[k.value].isAllocated ==> MapsAt(s.contexts[fd], shm.buffer);
    }
  }

  /** A structure the call does not touch: no row with its buffer is new, its context keeps its descriptor, and no
      block the daemon maps at its address is new. */
  lemma ShmKept(s: State, s': State, shm: Shm)
    requires ShmOk(s, shm)
    requires forall r :: r in s'.table && r.buffer == shm.buffer ==> r in s.table
    requires shm.ctx.Some? ==> FdOf(s', shm.ctx.value) == FdOf(s, shm.ctx.value)
    requires shm.ctx.Some? && !shm.isAllocated && FdOf(s, shm.ctx.value) in s'.contexts ==>
      FdOf(s, shm.ctx.value) in s.contexts &&
      (MapsAt(s'.contexts[FdOf(s, shm.ctx.value)], shm.buffer) ==> MapsAt(s.contexts[FdOf(s, shm.ctx.value)], shm.buffer))
    ensures ShmOk(s', shm)
  {
  }

  lemma OpenShm(s: State, c: nat, fd: int, shm: Shm)
    requires Agrees(s) && ShmOk(s, shm) && fd !in s.contexts && FdOf(s, c) !in s.contexts
    ensures ShmOk(Next(s, Open(c, fd)), shm)
  {
    var s' := Next(s, Open(c, fd));
    forall r | r in s'.table && r.buffer == shm.buffer
      ensures Points(s', shm, r.fd)
    {
      assert RowOk(r, s.contexts);
    }
  }

  lemma FinalizeShm(s: State, c: nat, shm: Shm)
    requires AllSized(s.table) && ShmOk(s, shm) && shm.ctx != Some(c)
    ensures ShmOk(Next(s, Finalize(c)), shm)
  {
    var s' := Next(s, Finalize(c));
    forall r | r in s'.table && r.buffer == shm.buffer
      ensures r in s.table
    {
      FreeAllMember(s.table, FdOf(s, c), r);
    }
    ShmKept(s, s', shm);
  }

  lemma ReleaseShm(s: State, h: nat, last: bool, shm: Shm)
    requires ContextsOk(s) && ShmOk(s, shm)
    ensures ShmOk(Next(s, Release(h, last)), shm)
  {
    var s', it := Next(s, Release(h, last)), Struct(s, h);
    if it.ctx.Some? {
      forall r | r in s'.table
        ensures r in s.table
      {
        var i := FirstRow(s.table, it.buffer);
        if i.Some? {
          ErasedSubset(s.table, i.value);
        }
      }
      var fd := FdOf(s, it.ctx.value);
      if fd in s.contexts {
        var offset := if it.buffer != NULL then LookupOffset(s.table, it.buffer) else U32_MAX;
        ReleasedMaps(s.contexts[fd], it.isAllocated, offset, it.buffer, last, shm.buffer);
      }
      ShmKept(s, s', shm);
    }
  }

  lemma ReleasedMaps(c: Context, isAllocated: bool, offset: u32, buffer: Addr, last: bool, a: Addr)
    ensures MapsAt(ReleaseBlock(c, isAllocated, offset, buffer, last), a) ==> MapsAt(c, a)
  {
    var k := FirstMatch(c.blocks, isAllocated, offset, buffer);
    if k.Some? {
      RemovedIndex(c.blocks, k.value);
    }
  }

  /** A context gains a block: other structures see a new mapping only of an allocated block. */
  lemma GainMaps(c: Context, b: ShmInner, taken: set<nat>, a: Addr)
    ensures MapsAt(WithBlock(c, b, taken), a) ==> MapsAt(c, a) || (b.isAllocated && b.buffer == a)
  {
  }

  lemma AllocateShm(s: State, e: Event, shm: Shm)
    requires e.Allocate? && e.size != 0 && ShmOk(s, shm) && (e.at != NULL ==> shm.buffer != e.at)
    requires !shm.isAllocated && Points(s, shm, FdOf(s, e.c)) ==> shm.buffer != e.daemonAt
    ensures ShmOk(Next(s, e), shm)
  {
    var s', fd := Next(s, e), FdOf(s, e.c);
    if s'.contexts != s.contexts {
      var b := AllocateBlock(s.contexts[fd], e.size, e.daemonAt).value;
      GainMaps(s.contexts[fd], b, {b.offset}, shm.buffer);
    }
    ShmKept(s, s', shm);
  }

  lemma RegisterShm(s: State, e: Event, shm: Shm)
    requires e.Register? && ShmOk(s, shm)
    ensures ShmOk(Next(s, e), shm)
  {
    var s', fd := Next(s, e), FdOf(s, e.c);
    if s'.contexts != s.contexts {
      GainMaps(s.contexts[fd], ShmInner(e.buffer, e.size, false, U32_MAX), {}, shm.buffer);
    }
    ShmKept(s, s', shm);
  }

  lemma LastPutShm(s: State, fd: int, slot: nat, shm: Shm)
    requires ShmOk(s, shm)
    ensures ShmOk(Next(s, LastPut(fd, slot)), shm)
  {
    var s' := Next(s, LastPut(fd, slot));
    if fd in s.contexts {
      assert MapsAt(s'.contexts[fd], shm.buffer) <==> MapsAt(s.contexts[fd], shm.buffer);
    }
    ShmKept(s, s', shm);
  }

  /** The structure of an allocation: it has the new row, or no buffer. */
  lemma AllocatedShm(s: State, e: Event)
    requires e.Allocate? && e.size != 0 && Possible(s, e) && Struct(s, e.h).buffer == NULL
    requires ContextsOk(Next(s, e)) && RowsApart(Next(s, e).table) && AllSized(s.table)
    ensures ShmOk(Next(s, e), Next(s, e).shms[e.h])
  {
    var s' := Next(s, e);
    var shm := s'.shms[e.h];
    if shm.buffer == NULL {
      NullShm(s', shm);
    } else {
      forall r | r in s'.table && r.buffer == shm.buffer
        ensures Points(s', shm, r.fd)
      {
        assert r in s.table ==> RowSized(r);
      }
    }
  }

  lemma RegisteredShm(s: State, e: Event)
    requires e.Register? && ContextsOk(s) && Proper(s, {}, e)
    ensures ShmOk(Next(s, e), Next(s, e).shms[e.h])
  {
    var s', fd := Next(s, e), FdOf(s, e.c);
    if s'.contexts != s.contexts {
      GainMaps(s.contexts[fd], ShmInner(e.buffer, e.size, false, U32_MAX), {}, e.buffer);
    }
  }

  /** Every proper call keeps the standing structures in order. */
  lemma StructsStayTidy(s: State, standing: set<nat>, e: Event, h: nat)
    requires Tidy(s, standing) && Possible(s, e) && Proper(s, standing, e) && h in StandingAfter(s, standing, e)
    requires ContextsOk(Next(s, e)) && RowsApart(Next(s, e).table)
    ensures ShmOk(Next(s, e), Struct(Next(s, e), h))
  {
    match e
    case Open(c, fd) => OpenShm(s, c, fd, Struct(s, h));
    case Allocate(g, _, _, _, _, _) =>
      if h == g {
        AllocatedShm(s, e);
      } else {
        assert ShmOk(s, Struct(s, h));
        AllocateShm(s, e, Struct(s, h));
      }
    case Register(g, _, _, _, _) =>
      if h == g {
        RegisteredShm(s, e);
      } else {
        assert ShmOk(s, Struct(s, h));
        RegisterShm(s, e, Struct(s, h));
      }
    case Release(g, last) => ReleaseShm(s, g, last, Struct(s, h));
    case LastPut(fd, slot) => LastPutShm(s, fd, slot, Struct(s, h));
    case Finalize(c) => FinalizeShm(s, c, Struct(s, h));
  }

  lemma StepStaysTidy(s: State, standing: set<nat>, e: Event)
    requires Tidy(s, standing) && Possible(s, e) && Proper(s, standing, e)
    ensures Tidy(Next(s, e), StandingAfter(s, standing, e)) && !Breaks(s, e)
  {
    ProperNeverBreaks(s, standing, e);
    StepAgreesExactly(s, e);
    RowsStayApart(s, e);
    SlotsStayApart(s, e);
    forall h | h in StandingAfter(s, standing, e)
      ensures ShmOk(Next(s, e), Struct(Next(s, e), h))
    {
      StructsStayTidy(s, standing, e, h);
    }
  }

  lemma {:induction false} RunsStayTidy(es: seq<Event>)
    requires AlwaysPossible(es) && AlwaysProper(es)
    ensures Tidy(After(es), Standing(es)) && NeverBreaks(es) && AlwaysNonZero(es)
  {
    if es != [] {
      var n := |es| - 1;
      RunsStayTidy(es[..n]);
      StepStaysTidy(After(es[..n]), Standing(es[..n]), es[n]);
    }
  }

  /** In every run of proper calls the table and the daemon agree throughout. */
  lemma ProperRunsAgree(es: seq<Event>)
    requires AlwaysPossible(es) && AlwaysProper(es)
    ensures AlwaysAgrees(es) && NeverBreaks(es) && AlwaysNonZero(es)
  {
    RunsStayTidy(es);
    AgreementExactly(es);
  }
}
