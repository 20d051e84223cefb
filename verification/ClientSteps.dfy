/** When libteec's memory calls succeed, what they change on both sides, and that a release undoes what came before it. */
module ClientSteps {
  import opened Words
  import opened Wrappers
  import opened Sequences
  import opened Operations
  import opened Slots
  import opened ClientCodec
  import opened DaemonCodec
  import opened ClientTable

  /** The daemon can have a new block in the context: it is open, has a free slot, and memory can be had. */
  predicate CanMap(s: State, fd: int, size: u32, flags: u32, daemonAt: Addr) {
    && 1 <= flags <= 3 && fd in s.contexts && (exists slot :: 0 <= slot < SLOTS && slot !in s.contexts[fd].bits)
    && (size > 0 ==> daemonAt != 0)
  }

  /** An allocation gives the context exactly one more block, in the least slot that was free, whose bit is set, exactly if
      the daemon can have one; and then the table one more row exactly if the client can map it, too. Nothing else on
      either side changes. */
  lemma AllocatesExactly(s: State, h: nat, c: nat, size: u32, flags: u32, daemonAt: Addr, at: Addr)
    ensures var fd, s' := FdOf(s, c), Next(s, Allocate(h, c, size, flags, daemonAt, at));
      if CanMap(s, fd, size, flags, daemonAt) then
        exists b: ShmInner ::
          && s'.contexts == s.contexts[fd := Context(s.contexts[fd].blocks + [b], s.contexts[fd].bits + {b.offset})]
          && b.isAllocated && b.size == size && b.buffer == (if size > 0 then daemonAt else ZERO_SIZE_PTR)
          && b.offset !in s.contexts[fd].bits && (forall slot :: 0 <= slot < b.offset ==> slot in s.contexts[fd].bits)
          && s'.table == s.table + (if size > 0 && at == 0 then []
                                    else [ShareMem(b.offset, if size > 0 then at else ZERO_SIZE_PTR, size, fd)])
          && s'.shms == s.shms[h := Shm(if size > 0 then at else ZERO_SIZE_PTR, size, true, Some(c))]
      else s'.contexts == s.contexts && s'.table == s.table
  {
    var fd, s' := FdOf(s, c), Next(s, Allocate(h, c, size, flags, daemonAt, at));
    if CanMap(s, fd, size, flags, daemonAt) {
      var b := AllocateBlock(s.contexts[fd], size, daemonAt).value;
      assert s.table + [] == s.table;
      assert b.offset !in s.contexts[fd].bits;
    } else if fd in s.contexts {
      assert FirstFree(s.contexts[fd].bits, 0).Some? ==> FirstFree(s.contexts[fd].bits, 0).value !in s.contexts[fd].bits;
    }
  }

  /** A registration gives the context one more block, marked as no slot's, exactly with a buffer, valid flags and an open
      context; the table has no part in it. */
  lemma RegistersExactly(s: State, h: nat, c: nat, buffer: Addr, size: u32, flags: u32)
    ensures var fd, s' := FdOf(s, c), Next(s, Register(h, c, buffer, size, flags));
      && s'.table == s.table
      && (if buffer != 0 && 1 <= flags <= 3 && fd in s.contexts then
            && s'.contexts == s.contexts[fd := Context(s.contexts[fd].blocks + [ShmInner(buffer, size, false, U32_MAX)], s.contexts[fd].bits)]
            && s'.shms == s.shms[h := Shm(buffer, size, false, Some(c))]
          else s'.contexts == s.contexts)
  {
    var fd := FdOf(s, c);
    if fd in s.contexts {
      assert s.contexts[fd].bits + {} == s.contexts[fd].bits;
    }
  }

  // ---------------------------------------------------------------- releasing

  /** A block put at the end is found first, if none before it matches. */
  lemma MatchLast(blocks: seq<ShmInner>, b: ShmInner, isAllocated: bool, offset: u32, buffer: Addr)
    requires forall k :: 0 <= k < |blocks| ==> !Matches(blocks[k], isAllocated, offset, buffer)
    requires Matches(b, isAllocated, offset, buffer)
    ensures FirstMatch(blocks + [b], isAllocated, offset, buffer) == Some(|blocks|)
    ensures RemoveAt(blocks + [b], |blocks|) == blocks
  {
    var all := blocks + [b];
    assert all[|blocks|] == b && forall k :: 0 <= k < |blocks| ==> all[k] == blocks[k];
    var r := FirstMatch(all, isAllocated, offset, buffer);
    assert r.Some?;
  }

  lemma RowLast(table: seq<ShareMem>, e: ShareMem)
    requires forall k :: 0 <= k < |table| ==> table[k].buffer != e.buffer
    ensures LookupOffset(table + [e], e.buffer) == e.offset && Erase(table + [e], e.buffer) == table
  {
    LookupLast(table, e);
    var all := table + [e];
    assert all[|table|] == e && forall k :: 0 <= k < |table| ==> all[k] == table[k];
    assert FirstRow(all, e.buffer) == Some(|table|);
    assert RemoveAt(all, |table|) == table;
  }

  lemma {:induction false} LookupLast(table: seq<ShareMem>, e: ShareMem)
    requires forall k :: 0 <= k < |table| ==> table[k].buffer != e.buffer
    ensures LookupOffset(table + [e], e.buffer) == e.offset
  {
    if table != [] {
      assert (table + [e])[1..] == table[1..] + [e] && table[0].buffer != e.buffer;
      LookupLast(table[1..], e);
    }
  }

  /** Memory that is allocated, mapped at an address that no row holds, and released again while no request holds it:
      the table, the daemon's blocks and its bitmap are as they were. */
  lemma ReleaseUndoesAllocate(s: State, h: nat, c: nat, size: u32, flags: u32, daemonAt: Addr, at: Addr)
    requires ContextsOk(s) && CanMap(s, FdOf(s, c), size, flags, daemonAt)
    requires size > 0 && at != 0 && forall k :: 0 <= k < |s.table| ==> s.table[k].buffer != at
    ensures var s' := Next(Next(s, Allocate(h, c, size, flags, daemonAt, at)), Release(h, true));
      && s'.table == s.table && s'.contexts == s.contexts
      && Struct(s', h) == Shm(0, 0, true, None)
  {
    var fd, s1 := FdOf(s, c), Next(s, Allocate(h, c, size, flags, daemonAt, at));
    assert FirstFree(s.contexts[fd].bits, 0).Some?;
    var b := AllocateBlock(s.contexts[fd], size, daemonAt).value;
    ReleaseNewest(s, s1, h, c, b, size, at, true);
    assert s.contexts[fd].bits + {} == s.contexts[fd].bits;
    MapTwice(s.contexts, fd, s.contexts[fd], s.contexts[fd]);
  }

  /** A release of mapped memory: the first row goes, and the slot it gave is what the context is asked for. */
  lemma ReleaseSteps(s: State, h: nat, c: nat, size: u32, at: Addr, offset: u32, last: bool)
    requires h in s.shms && s.shms[h] == Shm(at, size, true, Some(c)) && at != 0 && FdOf(s, c) in s.contexts
    requires LookupOffset(s.table, at) == offset
    ensures var s', fd := Next(s, Release(h, last)), FdOf(s, c);
      && s'.table == Erase(s.table, at) && Struct(s', h) == Shm(0, 0, true, None)
      && s'.contexts == s.contexts[fd := ReleaseBlock(s.contexts[fd], true, offset, at, last)] && s'.fds == s.fds
  {
  }

  lemma ReleaseNewest(s: State, s1: State, h: nat, c: nat, b: ShmInner, size: u32, at: Addr, last: bool)
    requires FdOf(s, c) in s.contexts && ContextOk(s.contexts[FdOf(s, c)]) && s1.fds == s.fds && at != 0
    requires b.isAllocated && b.buffer != NULL && b.offset < SLOTS && b.offset !in s.contexts[FdOf(s, c)].bits
    requires forall k :: 0 <= k < |s.table| ==> s.table[k].buffer != at
    requires s1.table == s.table + [ShareMem(b.offset, at, size, FdOf(s, c))]
    requires s1.contexts == s.contexts[FdOf(s, c) := WithBlock(s.contexts[FdOf(s, c)], b, {b.offset})]
    requires h in s1.shms && s1.shms[h] == Shm(at, size, true, Some(c))
    ensures var s', own := Next(s1, Release(h, last)), s.contexts[FdOf(s, c)];
      && s'.table == s.table && Struct(s', h) == Shm(0, 0, true, None) && s'.fds == s.fds
      && s'.contexts == s.contexts[FdOf(s, c) := Context(own.blocks, own.bits + if last then {} else {b.offset})]
  {
    var fd := FdOf(s, c);
    var own := s.contexts[fd];
    RowLast(s.table, ShareMem(b.offset, at, size, fd));
    ReleaseSteps(s1, h, c, size, at, b.offset, last);
    if last {
      NewBlockGoes(own, b, at);
      assert own.bits + {} == own.bits;
    } else {
      NewBlockLeaves(own, b, at);
    }
    MapTwice(s.contexts, fd, WithBlock(own, b, {b.offset}), Context(own.blocks, own.bits + if last then {} else {b.offset}));
  }

  lemma MapTwice(m: map<int, Context>, fd: int, c: Context, d: Context)
    ensures m[fd := c][fd := d] == m[fd := d]
    ensures fd in m ==> m[fd := m[fd]] == m
  {
  }

  /** Asked for the slot it just gave away, a context gives up that block and is as it was. */
  lemma NewBlockGoes(own: Context, b: ShmInner, at: Addr)
    requires ContextOk(own) && b.isAllocated && b.buffer != NULL && b.offset < SLOTS && b.offset !in own.bits
    ensures ReleaseBlock(WithBlock(own, b, {b.offset}), true, b.offset, at, true) == own
  {
    forall k | 0 <= k < |own.blocks|
      ensures !Matches(own.blocks[k], true, b.offset, at)
    {
      assert BlockOk(own.blocks[k], own.bits);
    }
    MatchLast(own.blocks, b, true, b.offset, at);
    assert own.bits + {b.offset} - {b.offset} == own.bits;
  }

  /** Memory that is registered at an address of no listed block, and released again. */
  lemma ReleaseUndoesRegister(s: State, h: nat, c: nat, buffer: Addr, size: u32, flags: u32, last: bool)
    requires FdOf(s, c) in s.contexts && buffer != 0 && 1 <= flags <= 3
    requires forall b :: b in s.contexts[FdOf(s, c)].blocks ==> b.buffer != buffer
    ensures var s' := Next(Next(s, Register(h, c, buffer, size, flags)), Release(h, last));
      && s'.table == s.table && s'.contexts == s.contexts
      && Struct(s', h) == Shm(0, 0, false, None)
  {
    var fd, s1 := FdOf(s, c), Next(s, Register(h, c, buffer, size, flags));
    var own, b := s.contexts[fd], ShmInner(buffer, size, false, U32_MAX);
    RegistersExactly(s, h, c, buffer, size, flags);
    var offset := LookupOffset(s.table, buffer);
    assert forall k :: 0 <= k < |own.blocks| ==> own.blocks[k] in own.blocks;
    MatchLast(own.blocks, b, false, offset, buffer);
    assert s1.contexts[fd := own] == s.contexts;
  }

  /** Finalizing a context takes it from the daemon, and from the table its rows of their own mappings; the rows of other
      contexts stay, in order. */
  lemma FinalizesExactly(s: State, c: nat, e: ShareMem)
    ensures var fd, s' := FdOf(s, c), Next(s, Finalize(c));
      && s'.contexts == s.contexts - {fd} && FdOf(s', c) == NO_FD && s'.shms == s.shms
      && (e in s'.table <==> e in s.table && !(e.fd == fd && e.size > 0 && e.buffer != 0 && e.buffer != ZERO_SIZE_PTR))
  {
    FreedMember(s.table, FdOf(s, c), e);
  }

  lemma {:induction false} FreedMember(table: seq<ShareMem>, fd: int, e: ShareMem)
    ensures e in FreeAll(table, fd) <==> e in table && !(e.fd == fd && e.size > 0 && e.buffer != 0 && e.buffer != ZERO_SIZE_PTR)
  {
    if table != [] {
      FreedMember(table[1..], fd, e);
      assert table == [table[0]] + table[1..];
    }
  }

  /** The same when a request still holds the block: its bit is cleared by that request's put. */
  lemma LatePutUndoesAllocate(s: State, h: nat, c: nat, size: u32, flags: u32, daemonAt: Addr, at: Addr, slot: nat)
    requires ContextsOk(s) && CanMap(s, FdOf(s, c), size, flags, daemonAt)
    requires size > 0 && at != 0 && forall k :: 0 <= k < |s.table| ==> s.table[k].buffer != at
    requires slot < SLOTS && slot !in s.contexts[FdOf(s, c)].bits
    requires forall j :: 0 <= j < slot ==> j in s.contexts[FdOf(s, c)].bits
    ensures var s1 := Next(Next(s, Allocate(h, c, size, flags, daemonAt, at)), Release(h, false));
      var s2 := Next(s1, LastPut(FdOf(s, c), slot));
      && s1.table == s2.table == s.table && s2.contexts == s.contexts
      && FdOf(s, c) in s1.contexts && s1.contexts[FdOf(s, c)].bits == s.contexts[FdOf(s, c)].bits + {slot}
  {
    var fd, s0 := FdOf(s, c), Next(s, Allocate(h, c, size, flags, daemonAt, at));
    assert FirstFree(s.contexts[fd].bits, 0) == Some(slot) by {
      LeastSlot(s.contexts[fd].bits, slot);
    }
    var b := AllocateBlock(s.contexts[fd], size, daemonAt).value;
    ReleaseNewest(s, s0, h, c, b, size, at, false);
    LastPutClears(s, Next(s0, Release(h, false)), fd, slot);
  }

  lemma LeastSlot(bits: set<nat>, slot: nat)
    requires slot < SLOTS && slot !in bits && forall j :: 0 <= j < slot ==> j in bits
    ensures FirstFree(bits, 0) == Some(slot)
  {
    var r := FirstFree(bits, 0);
    assert r.Some? && !(r.value < slot) && !(slot < r.value);
  }

  lemma NewBlockLeaves(own: Context, b: ShmInner, at: Addr)
    requires ContextOk(own) && b.isAllocated && b.buffer != NULL && b.offset < SLOTS && b.offset !in own.bits
    ensures ReleaseBlock(WithBlock(own, b, {b.offset}), true, b.offset, at, false) == Context(own.blocks, own.bits + {b.offset})
  {
    forall k | 0 <= k < |own.blocks|
      ensures !Matches(own.blocks[k], true, b.offset, at)
    {
      assert BlockOk(own.blocks[k], own.bits);
    }
    MatchLast(own.blocks, b, true, b.offset, at);
  }

  lemma LastPutClears(s: State, s1: State, fd: int, slot: nat)
    requires fd in s.contexts && slot !in s.contexts[fd].bits
    requires s1.contexts == s.contexts[fd := Context(s.contexts[fd].blocks, s.contexts[fd].bits + {slot})]
    ensures Next(s1, LastPut(fd, slot)).contexts == s.contexts && Next(s1, LastPut(fd, slot)).table == s1.table
  {
    assert s.contexts[fd].bits + {slot} - {slot} == s.contexts[fd].bits;
    assert s1.contexts[fd := s.contexts[fd]] == s.contexts;
  }
}
