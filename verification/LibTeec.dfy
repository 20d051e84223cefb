/** libteec's object: the table and the calls that change it, with the daemon's answer to each. */
module LibTeec {
  import opened Words
  import opened Wrappers
  import opened Sequences
  import opened Operations
  import opened Slots
  import opened ClientCodec
  import opened DaemonCodec
  import opened ClientTable
  import opened Agreement

  /** The client's table and structures and, beside them, the contexts the daemon keeps for it. */
  class TeeClient {
    var table: seq<ShareMem>
    var contexts: map<int, Context>
    var fds: map<nat, int>
    var shms: map<nat, Shm>

    ghost function View(): State
      reads this
    {
      State(table, contexts, fds, shms)
    }

    /** The daemon's lists are in order, which every call sees to. */
    ghost predicate Valid()
      reads this
    {
      ContextsOk(View())
    }

    /** The table names only live blocks. */
    ghost predicate InAgreement()
      reads this
    {
      Agrees(View())
    }

    constructor ()
      ensures Valid() && InAgreement() && View() == EMPTY
    {
      table, contexts, fds, shms := [], map[], map[], map[];
    }

    method FreeShareMem(buffer: Addr) returns (found: bool)
      modifies this`table
      ensures table == Erase(old(table), buffer) && found == FirstRow(old(table), buffer).Some?
    {
      found := false;
      var index := 0;
      while index < |table|
        invariant 0 <= index <= |table| && table == old(table)
        invariant forall j :: 0 <= j < index ==> table[j].buffer != buffer
      {
        if table[index].buffer == buffer {
          found := true;
          break;
        }
        index := index + 1;
      }
      if found {
        table := table[..index] + table[index + 1..];
      }
    }

    method FreeAllShareMemoryInContext(fd: int)
      modifies this`table
      ensures table == FreeAll(old(table), fd)
    {
      table := EraseRows(table, fd);
    }

    /** The daemon's search of a context's list. */
    method FindShrMem(blocks: seq<ShmInner>, isAllocated: bool, offset: u32, buffer: Addr) returns (r: Option<nat>)
      ensures r == FirstMatch(blocks, isAllocated, offset, buffer)
    {
      for k := 0 to |blocks|
        invariant forall j :: 0 <= j < k ==> !Matches(blocks[j], isAllocated, offset, buffer)
      {
        if (isAllocated && blocks[k].offset == offset) || (!isAllocated && blocks[k].buffer == buffer) {
          return Some(k);
        }
      }
      return None;
    }

    /** What the search finds leaves the list. */
    method FindAndRemoveShrMem(c: Context, isAllocated: bool, offset: u32, buffer: Addr, last: bool) returns (c': Context)
      ensures c' == ReleaseBlock(c, isAllocated, offset, buffer, last)
    {
      var k := FindShrMem(c.blocks, isAllocated, offset, buffer);
      if k.None? {
        return c;
      }
      var b := c.blocks[k.value];
      return Context(RemoveAt(c.blocks, k.value),
                     if last && b.isAllocated && b.buffer != NULL then c.bits - {b.offset} else c.bits);
    }

    method InitializeContext(c: nat, fd: int)
      requires Valid() && fd >= 0 && fd !in contexts
      modifies this`contexts, this`fds
      ensures Valid() && View() == Next(old(View()), Open(c, fd)) && (old(InAgreement()) ==> InAgreement())
    {
      if InAgreement() {
        StepAgreesExactly(View(), Open(c, fd));
      }
      contexts, fds := contexts[fd := Context([], {})], fds[c := fd];
    }

    /** `daemonAt` and `at` are mmap's answers in the daemon and here. */
    method AllocateSharedMemory(h: nat, c: nat, size: u32, flags: u32, daemonAt: Addr, at: Addr) returns (ok: bool)
      requires Valid()
      modifies this`table, this`contexts, this`shms
      ensures Valid() && View() == Next(old(View()), Allocate(h, c, size, flags, daemonAt, at))
      ensures old(InAgreement()) ==> InAgreement()
      ensures ok <==> |table| == |old(table)| + 1
    {
      AllocateContexts(View(), Allocate(h, c, size, flags, daemonAt, at));
      if InAgreement() {
        AllocateAgrees(View(), Allocate(h, c, size, flags, daemonAt, at));
      }
      ok := DoAllocate(h, c, size, flags, daemonAt, at);
    }

    method DoAllocate(h: nat, c: nat, size: u32, flags: u32, daemonAt: Addr, at: Addr) returns (ok: bool)
      modifies this`table, this`contexts, this`shms
      ensures View() == Next(old(View()), Allocate(h, c, size, flags, daemonAt, at))
      ensures ok <==> |table| == |old(table)| + 1
    {
      var shm := (if h in shms then shms[h] else ZEROED).(size := size, ctx := Some(c));
      var fd := if c in fds then fds[c] else NO_FD;
      if !CheckFlags(flags) || fd !in contexts {
        shms := shms[h := shm];
        return false;
      }
      var b := AllocateBlock(contexts[fd], size, daemonAt);
      if b.None? {
        shms := shms[h := shm];
        return false;
      }
      contexts := contexts[fd := WithBlock(contexts[fd], b.value, {b.value.offset})];
      var buffer := if size != 0 then at else ZERO_SIZE_PTR;
      shms := shms[h := shm.(isAllocated := true, buffer := buffer)];
      if buffer == NULL {
        return false;
      }
      table := table + [ShareMem(b.value.offset, buffer, size, fd)];
      return true;
    }

    method RegisterSharedMemory(h: nat, c: nat, buffer: Addr, size: u32, flags: u32) returns (ok: bool)
      requires Valid()
      modifies this`contexts, this`shms
      ensures Valid() && View() == Next(old(View()), Register(h, c, buffer, size, flags))
      ensures old(InAgreement()) ==> InAgreement()
      ensures ok <==> buffer != NULL && CheckFlags(flags) && FdOf(View(), c) in contexts
    {
      RegisterContexts(View(), Register(h, c, buffer, size, flags));
      if InAgreement() {
        RegisterAgrees(View(), Register(h, c, buffer, size, flags));
      }
      var shm := (if h in shms then shms[h] else ZEROED).(buffer := buffer, size := size, ctx := Some(c));
      var fd := if c in fds then fds[c] else NO_FD;
      ok := buffer != NULL && CheckFlags(flags) && fd in contexts;
      if ok {
        contexts := contexts[fd := WithBlock(contexts[fd], ShmInner(buffer, size, false, U32_MAX), {})];
        shm := shm.(isAllocated := false);
      }
      shms := shms[h := shm];
    }

    /** The daemon's side of a release. */
    method SendRelease(fd: int, shm: Shm, offset: u32, last: bool)
      modifies this`contexts
      ensures contexts == ReleaseIn(old(contexts), fd, shm, offset, last)
    {
      if fd in contexts {
        var c := FindAndRemoveShrMem(contexts[fd], shm.isAllocated, offset, shm.buffer, last);
        contexts := contexts[fd := c];
      }
    }

    /** The client's side: the slot is looked up before the row goes. */
    method TakeRow(shm: Shm) returns (offset: u32)
      modifies this`table
      ensures offset == if shm.buffer != NULL then LookupOffset(old(table), shm.buffer) else U32_MAX
      ensures table == if shm.buffer != NULL && shm.isAllocated then Erase(old(table), shm.buffer) else old(table)
    {
      offset := U32_MAX;
      if shm.buffer != NULL {
        offset := FindShareMemOffset(table, shm.buffer);
        if shm.isAllocated {
          var _ := FreeShareMem(shm.buffer);
        }
      }
    }

    method DoRelease(h: nat, last: bool)
      modifies this`table, this`contexts, this`shms
      ensures View() == Next(old(View()), Release(h, last))
    {
      var shm := if h in shms then shms[h] else ZEROED;
      if shm.ctx.None? {
        return;
      }
      var fd := if shm.ctx.value in fds then fds[shm.ctx.value] else NO_FD;
      var offset := TakeRow(shm);
      SendRelease(fd, shm, offset, last);
      shms := shms[h := Shm(NULL, 0, shm.isAllocated, None)];
    }

    /** The agreement survives exactly when the release is not misdirected. */
    method ReleaseSharedMemory(h: nat, last: bool)
      requires Valid()
      modifies this`table, this`contexts, this`shms
      ensures Valid() && View() == Next(old(View()), Release(h, last))
      ensures old(InAgreement()) ==> (InAgreement() <==> !old(Misdirected(View(), Struct(View(), h))))
    {
      ReleaseContexts(View(), h, last);
      if InAgreement() {
        ReleaseAgrees(View(), h, last);
      }
      DoRelease(h, last);
    }

    /** The agreement survives exactly when the context has no row of size zero. */
    method FinalizeContext(c: nat)
      requires Valid()
      modifies this`table, this`contexts, this`fds
      ensures Valid() && View() == Next(old(View()), Finalize(c))
      ensures old(InAgreement()) ==> (InAgreement() <==> !old(LeavesRow(View(), FdOf(View(), c))))
    {
      if InAgreement() {
        FinalizeAgrees(View(), c);
      }
      var fd := if c in fds then fds[c] else NO_FD;
      contexts := contexts - {fd};
      FreeAllShareMemoryInContext(fd);
      fds := fds[c := NO_FD];
    }
  }

  lemma AllocateContexts(s: State, e: Event)
    requires ContextsOk(s) && e.Allocate?
    ensures ContextsOk(Next(s, e))
  {
    var s', fd := Next(s, e), FdOf(s, e.c);
    if s'.contexts != s.contexts {
      var b := AllocateBlock(s.contexts[fd], e.size, e.daemonAt).value;
      AppendedContext(s.contexts[fd], b, {b.offset});
    }
  }

  lemma RegisterContexts(s: State, e: Event)
    requires ContextsOk(s) && e.Register?
    ensures ContextsOk(Next(s, e))
  {
    var s', fd := Next(s, e), FdOf(s, e.c);
    if s'.contexts != s.contexts {
      AppendedContext(s.contexts[fd], ShmInner(e.buffer, e.size, false, U32_MAX), {});
    }
  }
}
