/** When the client's table and the daemon's lists agree, and when they stop to: for any sizes, any reuse of
    structures and contexts and any addresses. */
module Agreement {
  import opened Words
  import opened Wrappers
  import opened Sequences
  import opened Operations
  import opened Slots
  import opened ClientCodec
  import opened DaemonCodec
  import opened ClientTable
  import RequestRoundTrip

  // ---------------------------------------------------------------- the exact condition

  /** What the kernel and the daemon see to: a new descriptor is not open, a slot in use is not cleared, and a new
      mapping is at no address that is mapped. */
  ghost predicate Possible(s: State, e: Event) {
    match e
    case Open(_, fd) => fd >= 0 && fd !in s.contexts
    case Allocate(_, _, _, _, _, at) =>
      at != ZERO_SIZE_PTR && forall r :: r in s.table && r.buffer != NULL ==> r.buffer != at
    case LastPut(fd, slot) => fd in s.contexts ==> !Lists(s.contexts[fd], slot)
    case _ => true
  }

  /** A row other than the first one with this buffer names, in context `fd`, the slot that the first one gives. */
  ghost predicate SlotShared(s: State, fd: int, buffer: Addr) {
    var i := FirstRow(s.table, buffer);
    i.Some? && exists j :: 0 <= j < |s.table| && j != i.value && s.table[j].fd == fd && s.table[j].offset == s.table[i.value].offset
  }

  /** The first block at this address is one the daemon mapped, and a row names it. */
  ghost predicate TakesMapped(s: State, fd: int, buffer: Addr)
    requires fd in s.contexts
  {
    var k := FirstMatch(s.contexts[fd].blocks, false, 0, buffer);
    k.Some? && s.contexts[fd].blocks[k.value].isAllocated &&
    exists e :: e in s.table && e.fd == fd && e.offset == s.contexts[fd].blocks[k.value].offset
  }

  /** The structure points to a context structure that holds descriptor `fd` now. */
  predicate Points(s: State, shm: Shm, fd: int) {
    shm.ctx.Some? && FdOf(s, shm.ctx.value) == fd
  }

  /** The release takes away a block that a row still names. */
  ghost predicate Misdirected(s: State, shm: Shm) {
    && shm.ctx.Some? && FdOf(s, shm.ctx.value) in s.contexts
    && var fd := FdOf(s, shm.ctx.value);
    if shm.isAllocated then shm.buffer != NULL && SlotShared(s, fd, shm.buffer) else TakesMapped(s, fd, shm.buffer)
  }

  /** A row of the context that finalizing it does not erase. */
  ghost predicate LeavesRow(s: State, fd: int) {
    exists r :: r in s.table && r.fd == fd && !Unmaps(r, fd)
  }

  /** The calls after which a row names no block: a release that is misdirected, and the end of a context that has
      rows of size zero, which are not erased. */
  ghost predicate Breaks(s: State, e: Event) {
    match e
    case Release(h, _) => Misdirected(s, Struct(s, h))
    case Finalize(c) => LeavesRow(s, FdOf(s, c))
    case _ => false
  }

  lemma {:induction false} LookupFirst(table: seq<ShareMem>, buffer: Addr, i: nat)
    requires i < |table| && table[i].buffer == buffer && forall j :: 0 <= j < i ==> table[j].buffer != buffer
    ensures LookupOffset(table, buffer) == table[i].offset
  {
    if i > 0 {
      LookupFirst(table[1..], buffer, i - 1);
    }
  }

  lemma {:induction false} LookupNone(table: seq<ShareMem>, buffer: Addr)
    requires forall j :: 0 <= j < |table| ==> table[j].buffer != buffer
    ensures LookupOffset(table, buffer) == U32_MAX
  {
    if table != [] {
      LookupNone(table[1..], buffer);
    }
  }

  lemma {:induction false} MatchByBuffer(blocks: seq<ShmInner>, offset: u32, buffer: Addr)
    ensures FirstMatch(blocks, false, offset, buffer) == FirstMatch(blocks, false, 0, buffer)
  {
    if blocks != [] {
      MatchByBuffer(blocks[..|blocks| - 1], offset, buffer);
    }
  }

  /** One context changes and rows may go: the agreement is about the slots the remaining rows name there. */
  lemma AgreesAfter(s: State, s': State, fd: int)
    requires Agrees(s) && fd in s.contexts && fd in s'.contexts && s'.contexts == s.contexts[fd := s'.contexts[fd]]
    requires forall e :: e in s'.table ==> e in s.table
    ensures Agrees(s') <==> forall e :: e in s'.table && e.fd == fd ==> Lists(s'.contexts[fd], e.offset)
  {
    if forall e :: e in s'.table && e.fd == fd ==> Lists(s'.contexts[fd], e.offset) {
      forall e | e in s'.table
        ensures RowOk(e, s'.contexts)
      {
        assert RowOk(e, s.contexts);
      }
    }
    if Agrees(s') {
      forall e | e in s'.table && e.fd == fd
        ensures Lists(s'.contexts[fd], e.offset)
      {
        assert RowOk(e, s'.contexts);
      }
    }
  }

  /** What a release does to the context: the slots listed afterwards. */
  lemma ReleasedSlots(c: Context, isAllocated: bool, offset: u32, buffer: Addr, last: bool)
    requires ContextOk(c)
    ensures ContextOk(ReleaseBlock(c, isAllocated, offset, buffer, last))
    ensures var k := FirstMatch(c.blocks, isAllocated, offset, buffer);
      forall slot: nat :: Lists(ReleaseBlock(c, isAllocated, offset, buffer, last), slot) <==>
        Lists(c, slot) && !(k.Some? && c.blocks[k.value].isAllocated && c.blocks[k.value].offset == slot)
  {
    var k := FirstMatch(c.blocks, isAllocated, offset, buffer);
    if k.Some? {
      RemovedContext(c, k.value, ReleaseBlock(c, isAllocated, offset, buffer, last).bits);
    }
  }

  /** Some row other than `i` names this slot of the context. */
  lemma SharedAfter(table: seq<ShareMem>, i: nat, fd: int, slot: u32)
    requires i < |table|
    ensures (exists e :: e in RemoveAt(table, i) && e.fd == fd && e.offset == slot) <==>
      exists j :: 0 <= j < |table| && j != i && table[j].fd == fd && table[j].offset == slot
  {
    if e :| e in RemoveAt(table, i) && e.fd == fd && e.offset == slot {
      ErasedRows(table, i, e);
    }
    if j :| 0 <= j < |table| && j != i && table[j].fd == fd && table[j].offset == slot {
      ErasedRows(table, i, table[j]);
    }
  }

  /** A context gives up a slot: its rows are still listed exactly when none of them names that slot. */
  lemma SlotGone(table: seq<ShareMem>, fd: int, c: Context, c': Context, slot: u32)
    requires forall e :: e in table && e.fd == fd ==> Lists(c, e.offset)
    requires forall x: nat :: Lists(c', x) <==> Lists(c, x) && x != slot
    ensures (forall e :: e in table && e.fd == fd ==> Lists(c', e.offset)) <==>
      !(exists e :: e in table && e.fd == fd && e.offset == slot)
  {
  }

  lemma RowsListed(s: State, fd: int)
    requires Agrees(s) && fd in s.contexts
    ensures forall e :: e in s.table && e.fd == fd ==> Lists(s.contexts[fd], e.offset)
  {
    forall e | e in s.table && e.fd == fd
      ensures Lists(s.contexts[fd], e.offset)
    {
      assert RowOk(e, s.contexts);
    }
  }

  lemma ErasedSubset(table: seq<ShareMem>, i: nat)
    requires i < |table|
    ensures forall e :: e in RemoveAt(table, i) ==> e in table
  {
  }

  /** An allocated structure whose buffer has a row. */
  lemma MappedRelease(s: State, h: nat, last: bool, fd: int, i: nat)
    requires Agrees(s) && ContextsOk(s) && fd in s.contexts
    requires Struct(s, h).isAllocated && Points(s, Struct(s, h), fd) && Struct(s, h).buffer != NULL
    requires FirstRow(s.table, Struct(s, h).buffer) == Some(i)
    ensures Agrees(Next(s, Release(h, last))) <==> !SlotShared(s, fd, Struct(s, h).buffer)
  {
    var s', slot, buffer := Next(s, Release(h, last)), s.table[i].offset, Struct(s, h).buffer;
    var c := s.contexts[fd];
    LookupFirst(s.table, buffer, i);
    assert s'.table == RemoveAt(s.table, i);
    assert s'.contexts == s.contexts[fd := ReleaseBlock(c, true, slot, buffer, last)];
    ErasedSubset(s.table, i);
    AgreesAfter(s, s', fd);
    RowsListed(s, fd);
    SlotReleased(s, i, c, buffer, last);
    SlotGone(s'.table, fd, c, s'.contexts[fd], slot);
    SharedAfter(s.table, i, fd, slot);
  }

  /** Asked for a row's slot, a context gives up the block in it and nothing else. */
  lemma SlotReleased(s: State, i: nat, c: Context, buffer: Addr, last: bool)
    requires Agrees(s) && ContextsOk(s) && i < |s.table| && ContextOk(c)
    ensures forall x: nat :: Lists(ReleaseBlock(c, true, s.table[i].offset, buffer, last), x) <==>
      Lists(c, x) && x != s.table[i].offset
  {
    var slot := s.table[i].offset;
    RowInRange(s, i);
    ReleasedSlots(c, true, slot, buffer, last);
    SlotMatched(c, slot, buffer);
  }

  /** A row's slot is no mark of a registered block. */
  lemma RowInRange(s: State, i: nat)
    requires Agrees(s) && ContextsOk(s) && i < |s.table|
    ensures s.table[i].offset < SLOTS && s.table[i].fd in s.contexts && s.table[i].offset in s.contexts[s.table[i].fd].bits
  {
    var e := s.table[i];
    assert e in s.table && RowOk(e, s.contexts);
    var d := s.contexts[e.fd];
    assert ContextOk(d);
    var l :| 0 <= l < |d.blocks| && d.blocks[l].isAllocated && d.blocks[l].offset == e.offset;
    assert BlockOk(d.blocks[l], d.bits);
  }

  lemma SlotMatched(c: Context, slot: u32, buffer: Addr)
    requires ContextOk(c) && slot < SLOTS
    ensures var k := FirstMatch(c.blocks, true, slot, buffer);
      if k.Some? then c.blocks[k.value].isAllocated && c.blocks[k.value].offset == slot else !Lists(c, slot)
  {
    var k := FirstMatch(c.blocks, true, slot, buffer);
    if k.Some? {
      assert BlockOk(c.blocks[k.value], c.bits);
    } else {
      assert forall m :: 0 <= m < |c.blocks| ==> !Matches(c.blocks[m], true, slot, buffer);
    }
  }

  /** An allocated structure without a row: the request names no slot. */
  lemma RowlessRelease(s: State, h: nat, last: bool, fd: int)
    requires Agrees(s) && ContextsOk(s) && fd in s.contexts && Struct(s, h).isAllocated && Points(s, Struct(s, h), fd)
    requires Struct(s, h).buffer == NULL || FirstRow(s.table, Struct(s, h).buffer).None?
    ensures Agrees(Next(s, Release(h, last)))
  {
    var s', buffer := Next(s, Release(h, last)), Struct(s, h).buffer;
    var c := s.contexts[fd];
    if buffer != NULL {
      LookupNone(s.table, buffer);
    }
    ReleasedSlots(c, true, U32_MAX, buffer, last);
    var k := FirstMatch(c.blocks, true, U32_MAX, buffer);
    if k.Some? {
      assert ContextOk(c) && BlockOk(c.blocks[k.value], c.bits);
    }
    AgreesAfter(s, s', fd);
    forall e | e in s'.table && e.fd == fd
      ensures Lists(s'.contexts[fd], e.offset)
    {
      assert RowOk(e, s.contexts);
    }
  }

  /** A registered structure: blocks are matched by address alone. */
  lemma RegisteredRelease(s: State, h: nat, last: bool, fd: int)
    requires Agrees(s) && ContextsOk(s) && fd in s.contexts && !Struct(s, h).isAllocated && Points(s, Struct(s, h), fd)
    ensures Agrees(Next(s, Release(h, last))) <==> !TakesMapped(s, fd, Struct(s, h).buffer)
  {
    var s', shm := Next(s, Release(h, last)), Struct(s, h);
    var c := s.contexts[fd];
    var offset := if shm.buffer != NULL then LookupOffset(s.table, shm.buffer) else U32_MAX;
    MatchByBuffer(c.blocks, offset, shm.buffer);
    ReleasedSlots(c, false, offset, shm.buffer, last);
    AgreesAfter(s, s', fd);
    forall e | e in s.table && e.fd == fd
      ensures Lists(c, e.offset)
    {
      assert RowOk(e, s.contexts);
    }
  }

  /** For every structure, whatever it holds: a release keeps the agreement if and only if it is not misdirected. */
  lemma ReleaseAgrees(s: State, h: nat, last: bool)
    requires Agrees(s) && ContextsOk(s)
    ensures Agrees(Next(s, Release(h, last))) <==> !Misdirected(s, Struct(s, h))
  {
    var shm := Struct(s, h);
    if shm.ctx.Some? {
      var fd := FdOf(s, shm.ctx.value);
      if fd !in s.contexts {
        OrphanRelease(s, h, last);
      } else if !shm.isAllocated {
        RegisteredRelease(s, h, last, fd);
      } else if shm.buffer == NULL || FirstRow(s.table, shm.buffer).None? {
        RowlessRelease(s, h, last, fd);
      } else {
        MappedRelease(s, h, last, fd, FirstRow(s.table, shm.buffer).value);
      }
    }
  }

  lemma OrphanRelease(s: State, h: nat, last: bool)
    requires Agrees(s) && Struct(s, h).ctx.Some? && FdOf(s, Struct(s, h).ctx.value) !in s.contexts
    ensures Agrees(Next(s, Release(h, last)))
  {
    var s', i := Next(s, Release(h, last)), FirstRow(s.table, Struct(s, h).buffer);
    forall e | e in s'.table
      ensures RowOk(e, s'.contexts)
    {
      if i.Some? {
        ErasedRows(s.table, i.value, e);
      }
      assert RowOk(e, s.contexts);
    }
  }

  /** Finalizing keeps the agreement if and only if the context has no row of size zero. */
  lemma FinalizeAgrees(s: State, c: nat)
    requires Agrees(s)
    ensures Agrees(Next(s, Finalize(c))) <==> !LeavesRow(s, FdOf(s, c))
  {
    var s', fd := Next(s, Finalize(c)), FdOf(s, c);
    forall e
      ensures e in s'.table <==> e in s.table && !Unmaps(e, fd)
    {
      FreeAllMember(s.table, fd, e);
    }
    if LeavesRow(s, fd) {
      var r :| r in s.table && r.fd == fd && !Unmaps(r, fd);
      assert !RowOk(r, s'.contexts);
    } else {
      forall e | e in s'.table
        ensures RowOk(e, s'.contexts)
      {
        assert RowOk(e, s.contexts);
      }
    }
  }

  /** A context that gains a block in a free slot, or a registered one. */
  lemma GainAgrees(s: State, s': State, fd: int, b: ShmInner, taken: set<nat>)
    requires Agrees(s) && ContextsOk(s) && fd in s.contexts && BlockOk(b, s.contexts[fd].bits + taken)
    requires b.isAllocated ==> b.offset !in s.contexts[fd].bits
    requires s'.contexts == s.contexts[fd := WithBlock(s.contexts[fd], b, taken)]
    requires forall e :: e in s'.table ==> e in s.table || (b.isAllocated && e.fd == fd && e.offset == b.offset)
    ensures Agrees(s') && ContextsOk(s')
  {
    AppendedContext(s.contexts[fd], b, taken);
    forall e | e in s'.table
      ensures RowOk(e, s'.contexts)
    {
      assert e in s.table ==> RowOk(e, s.contexts);
    }
  }

  lemma ClearedBitAgrees(s: State, fd: int, slot: nat)
    requires Agrees(s) && ContextsOk(s) && fd in s.contexts && !Lists(s.contexts[fd], slot)
    ensures Agrees(Next(s, LastPut(fd, slot))) && ContextsOk(Next(s, LastPut(fd, slot)))
  {
    var s', c := Next(s, LastPut(fd, slot)), s.contexts[fd];
    var c' := s'.contexts[fd];
    assert ContextOk(c);
    forall k | 0 <= k < |c.blocks|
      ensures BlockOk(c'.blocks[k], c'.bits)
    {
      assert BlockOk(c.blocks[k], c.bits);
    }
    assert forall x: nat :: Lists(c', x) <==> Lists(c, x);
    AgreesAfter(s, s', fd);
    forall e | e in s'.table && e.fd == fd
      ensures Lists(c', e.offset)
    {
      assert RowOk(e, s.contexts);
    }
  }

  lemma AllocateAgrees(s: State, e: Event)
    requires Agrees(s) && ContextsOk(s) && e.Allocate?
    ensures Agrees(Next(s, e)) && ContextsOk(Next(s, e))
  {
    var s' := Next(s, e);
    if s'.contexts != s.contexts {
      var fd := FdOf(s, e.c);
      var b := AllocateBlock(s.contexts[fd], e.size, e.daemonAt).value;
      GainAgrees(s, s', fd, b, {b.offset});
    } else {
      UnchangedAgrees(s, s');
    }
  }

  lemma UnchangedAgrees(s: State, s': State)
    requires Agrees(s) && ContextsOk(s) && s'.contexts == s.contexts && s'.table == s.table
    ensures Agrees(s') && ContextsOk(s')
  {
    forall e | e in s'.table
      ensures RowOk(e, s'.contexts)
    {
      assert RowOk(e, s.contexts);
    }
  }

  lemma RegisterAgrees(s: State, e: Event)
    requires Agrees(s) && ContextsOk(s) && e.Register?
    ensures Agrees(Next(s, e)) && ContextsOk(Next(s, e))
  {
    var s' := Next(s, e);
    if s'.contexts != s.contexts {
      GainAgrees(s, s', FdOf(s, e.c), ShmInner(e.buffer, e.size, false, U32_MAX), {});
    } else {
      UnchangedAgrees(s, s');
    }
  }

  lemma OpenAgrees(s: State, c: nat, fd: int)
    requires Agrees(s) && ContextsOk(s) && fd !in s.contexts
    ensures Agrees(Next(s, Open(c, fd))) && ContextsOk(Next(s, Open(c, fd)))
  {
    var s' := Next(s, Open(c, fd));
    forall e | e in s'.table
      ensures RowOk(e, s'.contexts)
    {
      assert RowOk(e, s.contexts);
    }
  }

  lemma ReleaseContexts(s: State, h: nat, last: bool)
    requires ContextsOk(s)
    ensures ContextsOk(Next(s, Release(h, last)))
  {
    var shm := Struct(s, h);
    if shm.ctx.Some? && FdOf(s, shm.ctx.value) in s.contexts {
      var fd := FdOf(s, shm.ctx.value);
      assert ContextOk(s.contexts[fd]);
      var offset := if shm.buffer != NULL then LookupOffset(s.table, shm.buffer) else U32_MAX;
      ReleasedSlots(s.contexts[fd], shm.isAllocated, offset, shm.buffer, last);
    }
  }

  /** Whatever call completes next: the agreement survives it if and only if it is none of the calls that break it. */
  lemma StepAgreesExactly(s: State, e: Event)
    requires Agrees(s) && ContextsOk(s) && Possible(s, e)
    ensures ContextsOk(Next(s, e)) && (Agrees(Next(s, e)) <==> !Breaks(s, e))
  {
    match e
    case Open(c, fd) => OpenAgrees(s, c, fd);
    case Allocate(_, _, _, _, _, _) => AllocateAgrees(s, e);
    case Register(_, _, _, _, _) => RegisterAgrees(s, e);
    case Release(h, last) =>
      ReleaseContexts(s, h, last);
      ReleaseAgrees(s, h, last);
    case LastPut(fd, slot) =>
      if fd in s.contexts {
        ClearedBitAgrees(s, fd, slot);
      }
    case Finalize(c) => FinalizeAgrees(s, c);
  }

  // ---------------------------------------------------------------- whole runs

  ghost function After(es: seq<Event>): State {
    if es == [] then EMPTY else Next(After(es[..|es| - 1]), es[|es| - 1])
  }

  ghost predicate AlwaysPossible(es: seq<Event>) {
    es == [] || (AlwaysPossible(es[..|es| - 1]) && Possible(After(es[..|es| - 1]), es[|es| - 1]))
  }

  ghost predicate AlwaysAgrees(es: seq<Event>) {
    Agrees(After(es)) && (es != [] ==> AlwaysAgrees(es[..|es| - 1]))
  }

  ghost predicate NeverBreaks(es: seq<Event>) {
    es == [] || (NeverBreaks(es[..|es| - 1]) && !Breaks(After(es[..|es| - 1]), es[|es| - 1]))
  }

  /** In every run of calls, of whatever sizes, structures, contexts and addresses: the table names only live blocks after
      each of them if and only if no release was misdirected and no context with a row of size zero was finalized. */
  lemma {:induction false} AgreementExactly(es: seq<Event>)
    requires AlwaysPossible(es)
    ensures AlwaysAgrees(es) <==> NeverBreaks(es)
    ensures AlwaysAgrees(es) ==> ContextsOk(After(es))
  {
    if es != [] {
      var n := |es| - 1;
      AgreementExactly(es[..n]);
      if AlwaysAgrees(es[..n]) {
        StepAgreesExactly(After(es[..n]), es[n]);
      }
    }
  }

  // ---------------------------------------------------------------- rows that are apart

  ghost predicate BuffersApart(table: seq<ShareMem>) {
    forall i, j :: 0 <= i < j < |table| ==> table[i].buffer != table[j].buffer
  }

  ghost predicate SlotsApart(table: seq<ShareMem>) {
    forall i, j :: 0 <= i < j < |table| ==> table[i].fd != table[j].fd || table[i].offset != table[j].offset
  }

  ghost predicate AllSized(table: seq<ShareMem>) {
    forall i :: 0 <= i < |table| ==> RowSized(table[i])
  }

  ghost predicate RowsApart(table: seq<ShareMem>) {
    BuffersApart(table) && AllSized(table)
  }

  /** `t` is what is left of `table`, in order. */
  ghost predicate Sub(t: seq<ShareMem>, table: seq<ShareMem>)
    decreases |table|
  {
    if table == [] then t == []
    else Sub(t, table[1..]) || (t != [] && t[0] == table[0] && Sub(t[1..], table[1..]))
  }

  lemma {:induction false} SubMembers(t: seq<ShareMem>, table: seq<ShareMem>)
    requires Sub(t, table)
    ensures forall i :: 0 <= i < |t| ==> t[i] in table
    decreases |table|
  {
    if table != [] {
      if Sub(t, table[1..]) {
        SubMembers(t, table[1..]);
      } else {
        SubMembers(t[1..], table[1..]);
        assert forall i :: 1 <= i < |t| ==> t[i] == t[1..][i - 1];
      }
    }
  }

  lemma {:induction false} SubApart(t: seq<ShareMem>, table: seq<ShareMem>)
    requires Sub(t, table)
    ensures BuffersApart(table) ==> BuffersApart(t)
    ensures SlotsApart(table) ==> SlotsApart(t)
    ensures AllSized(table) ==> AllSized(t)
    decreases |table|
  {
    SubMembers(t, table);
    if table != [] {
      var rest := table[1..];
      if Sub(t, rest) {
        SubApart(t, rest);
      } else {
        SubApart(t[1..], rest);
        SubMembers(t[1..], rest);
        assert forall i :: 1 <= i < |t| ==> t[i] == t[1..][i - 1];
        assert forall i :: 1 <= i < |table| ==> table[i] == rest[i - 1];
      }
    }
  }

  lemma {:induction false} SubSelf(table: seq<ShareMem>)
    ensures Sub(table, table)
  {
    if table != [] {
      SubSelf(table[1..]);
    }
  }

  lemma {:induction false} SubErased(table: seq<ShareMem>, i: nat)
    requires i < |table|
    ensures Sub(RemoveAt(table, i), table)
  {
    var t := RemoveAt(table, i);
    if i == 0 {
      assert t == table[1..];
      SubSelf(table[1..]);
    } else {
      SubErased(table[1..], i - 1);
      assert t[1..] == RemoveAt(table[1..], i - 1);
    }
  }

  lemma {:induction false} SubFreed(table: seq<ShareMem>, fd: int)
    ensures Sub(FreeAll(table, fd), table)
  {
    if table != [] {
      SubFreed(table[1..], fd);
      if Unmaps(table[0], fd) {
        assert FreeAll(table, fd) == FreeAll(table[1..], fd);
      } else {
        assert FreeAll(table, fd)[1..] == FreeAll(table[1..], fd);
      }
    }
  }

  /** Only an allocation adds a row. */
  lemma RowsShrink(s: State, e: Event)
    requires !e.Allocate?
    ensures Sub(Next(s, e).table, s.table)
  {
    SubSelf(s.table);
    match e
    case Release(h, _) =>
      var i := FirstRow(s.table, Struct(s, h).buffer);
      if i.Some? {
        SubErased(s.table, i.value);
      }
    case Finalize(c) => SubFreed(s.table, FdOf(s, c));
    case _ =>
  }

  predicate NonZero(e: Event) {
    e.Allocate? ==> e.size != 0
  }

  lemma RowsStayApart(s: State, e: Event)
    requires RowsApart(s.table) && Possible(s, e) && NonZero(e)
    ensures RowsApart(Next(s, e).table)
  {
    if !e.Allocate? {
      RowsShrink(s, e);
      SubApart(Next(s, e).table, s.table);
    } else {
      assert forall i :: 0 <= i < |s.table| ==> s.table[i] in s.table && RowSized(s.table[i]);
    }
  }

  /** While the agreement holds, an allocation takes a slot that no row names. */
  lemma SlotsStayApart(s: State, e: Event)
    requires Agrees(s) && ContextsOk(s) && SlotsApart(s.table)
    ensures SlotsApart(Next(s, e).table)
  {
    if !e.Allocate? {
      RowsShrink(s, e);
      SubApart(Next(s, e).table, s.table);
    } else {
      forall i | 0 <= i < |s.table|
        ensures s.table[i].fd in s.contexts && s.table[i].offset in s.contexts[s.table[i].fd].bits
      {
        RowInRange(s, i);
      }
    }
  }

  ghost predicate AlwaysNonZero(es: seq<Event>) {
    forall i :: 0 <= i < |es| ==> NonZero(es[i])
  }

  lemma {:induction false} RunRowsApart(es: seq<Event>)
    requires AlwaysPossible(es) && AlwaysNonZero(es)
    ensures RowsApart(After(es).table)
  {
    if es != [] {
      var n := |es| - 1;
      RunRowsApart(es[..n]);
      RowsStayApart(After(es[..n]), es[n]);
    }
  }

  lemma {:induction false} RunSlotsApart(es: seq<Event>)
    requires AlwaysPossible(es) && NeverBreaks(es)
    ensures SlotsApart(After(es).table)
  {
    if es != [] {
      var n := |es| - 1;
      RunSlotsApart(es[..n]);
      AgreementExactly(es[..n]);
      SlotsStayApart(After(es[..n]), es[n]);
    }
  }

  /** In every run with non-zero sizes, broken or not, looking a row's buffer up gives that row's own slot. */
  lemma LookupIsOwn(es: seq<Event>, i: nat)
    requires AlwaysPossible(es) && AlwaysNonZero(es) && i < |After(es).table|
    ensures LookupOffset(After(es).table, After(es).table[i].buffer) == After(es).table[i].offset
  {
    RunRowsApart(es);
    LookupFirst(After(es).table, After(es).table[i].buffer, i);
  }

  /** A row's slot is one block's alone. */
  lemma BlockOfRow(s: State, i: nat)
    requires Agrees(s) && ContextsOk(s) && i < |s.table|
    ensures var e := s.table[i];
      && e.fd in s.contexts
      && var blocks := s.contexts[e.fd].blocks;
      var k := FindByOffset(blocks, e.offset);
      && k.Some? && blocks[k.value].isAllocated && blocks[k.value].buffer != NULL
      && (forall j :: 0 <= j < |blocks| && blocks[j].offset == e.offset ==> j == k.value)
  {
    var e := s.table[i];
    assert e in s.table && RowOk(e, s.contexts);
    var c := s.contexts[e.fd];
    assert ContextOk(c);
    var k :| 0 <= k < |c.blocks| && c.blocks[k].isAllocated && c.blocks[k].offset == e.offset;
    assert BlockOk(c.blocks[k], c.bits);
    forall j | 0 <= j < |c.blocks| && c.blocks[j].offset == e.offset
      ensures j == k
    {
      assert BlockOk(c.blocks[j], c.bits);
    }
  }

  /** In every run with non-zero sizes that breaks the agreement nowhere, each row names a block its context lists,
      the only one in that slot, whose bit is set; looking the buffer up gives that block's own slot, and no other
      row names the block. */
  lemma TableAgreesWithDaemon(es: seq<Event>, i: nat, j: nat)
    requires AlwaysPossible(es) && AlwaysNonZero(es) && NeverBreaks(es)
    requires i < |After(es).table| && j < |After(es).table|
    ensures var s := After(es);
      var e := s.table[i];
      && e.fd in s.contexts
      && var blocks := s.contexts[e.fd].blocks;
      var k := FindByOffset(blocks, LookupOffset(s.table, e.buffer));
      && LookupOffset(s.table, e.buffer) == e.offset < SLOTS && e.offset in s.contexts[e.fd].bits
      && k.Some? && blocks[k.value].isAllocated
      && (forall l :: 0 <= l < |blocks| && blocks[l].offset == e.offset ==> l == k.value)
      && (e.fd == s.table[j].fd && e.offset == s.table[j].offset ==> i == j)
  {
    AgreementExactly(es);
    LookupIsOwn(es, i);
    RunSlotsApart(es);
    BlockOfRow(After(es), i);
    RowInRange(After(es), i);
  }

  /** In those runs an allocated parent with a row is one the daemon's decoder resolves. */
  lemma RowsResolve(es: seq<Event>, i: nat, t: nat, p: Param)
    requires AlwaysPossible(es) && AlwaysNonZero(es) && NeverBreaks(es) && i < |After(es).table|
    requires p.memref.parent.Some? && p.memref.parent.value.buffer == After(es).table[i].buffer
    ensures var s := After(es);
      s.table[i].fd in s.contexts && RequestRoundTrip.Resolvable(t, p, s.table, s.contexts[s.table[i].fd].blocks)
  {
    AgreementExactly(es);
    LookupIsOwn(es, i);
    BlockOfRow(After(es), i);
  }

  /** Releasing a structure that points to its row's context removes that row and that row's block, and nothing else. */
  lemma ReleaseRemovesItsOwn(s: State, h: nat, last: bool, i: nat)
    requires Agrees(s) && ContextsOk(s) && FirstRow(s.table, Struct(s, h).buffer) == Some(i)
    requires Struct(s, h).isAllocated && Struct(s, h).buffer != NULL && Points(s, Struct(s, h), s.table[i].fd)
    ensures var s' := Next(s, Release(h, last));
      var e := s.table[i];
      && s'.table == RemoveAt(s.table, i)
      && e.fd in s.contexts && s'.contexts.Keys == s.contexts.Keys
      && (forall fd :: fd in s.contexts && fd != e.fd ==> s'.contexts[fd] == s.contexts[fd])
      && (forall slot: nat :: Lists(s'.contexts[e.fd], slot) <==> Lists(s.contexts[e.fd], slot) && slot != e.offset)
      && s'.contexts[e.fd].bits == s.contexts[e.fd].bits - (if last then {e.offset} else {})
      && |s'.contexts[e.fd].blocks| == |s.contexts[e.fd].blocks| - 1
  {
    var e, buffer := s.table[i], Struct(s, h).buffer;
    RowInRange(s, i);
    var c := s.contexts[e.fd];
    LookupFirst(s.table, buffer, i);
    SlotReleased(s, i, c, buffer, last);
    SlotMatched(c, e.offset, buffer);
    RowsListed(s, e.fd);
    assert e in s.table;
    var k := FirstMatch(c.blocks, true, e.offset, buffer);
    assert BlockOk(c.blocks[k.value], c.bits);
  }

  /** Without a row an allocated structure's release goes out for slot UINT32_MAX, the mark of registered blocks:
      it costs the context a registered block exactly when there is one. */
  lemma StrayReleaseDropsRegistered(s: State, h: nat, last: bool, fd: int)
    requires ContextsOk(s) && Points(s, Struct(s, h), fd) && fd in s.contexts
    requires Struct(s, h).isAllocated && FirstRow(s.table, Struct(s, h).buffer).None?
    ensures |Next(s, Release(h, last)).contexts[fd].blocks| < |s.contexts[fd].blocks| <==>
      exists k :: 0 <= k < |s.contexts[fd].blocks| && !s.contexts[fd].blocks[k].isAllocated
  {
    var c, buffer := s.contexts[fd], Struct(s, h).buffer;
    LookupNone(s.table, buffer);
    assert ContextOk(c);
    forall k | 0 <= k < |c.blocks|
      ensures Matches(c.blocks[k], true, U32_MAX, buffer) <==> !c.blocks[k].isAllocated
    {
      assert BlockOk(c.blocks[k], c.bits);
    }
    var r := FirstMatch(c.blocks, true, U32_MAX, buffer);
  }
}
