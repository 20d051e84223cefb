/** The vendor library's public calls: each takes a reference on its context and gives it back on every return path. */
module VendorApi {
  import opened Words
  import opened Wrappers
  import opened Sequences
  import opened Operations
  import opened Slots
  import opened DaemonCodec
  import opened VendorCheck

  const MEM_SHARED_INOUT: u32 := 4
  const CA_AUTH_FAIL: u32 := 0xFFFF_CFE5
  const RETRY_OPEN_SESSION: u32 := 0xFFFF_920E
  const TRIES := 200
  const MAX_SHAREDMEM_LEN := 0x1000_0000

  // A session structure `h` on a context's list, its TEE session id and its count.
  datatype Session = Session(h: nat, id: u32, ops: nat)

  datatype Block = Block(buffer: Addr, isAllocated: bool, offset: u32, ops: nat)

  datatype Context = Context(fd: int, ops: nat, sessions: seq<Session>, blocks: seq<Block>, bits: set<nat>)

  function Find(contexts: seq<Context>, fd: int): Option<nat> {
    First(contexts, (c: Context) => c.fd == fd)
  }

  function FindId(sessions: seq<Session>, id: u32): Option<nat> {
    First(sessions, (s: Session) => s.id == id)
  }

  function FindBuffer(blocks: seq<Block>, buffer: Addr): Option<nat> {
    First(blocks, (b: Block) => b.buffer == buffer)
  }

  /** The sessions without the structure `h`. */
  function Without(sessions: seq<Session>, h: nat): (r: seq<Session>)
    ensures forall i :: 0 <= i < |r| ==> r[i] in sessions && r[i].h != h
  {
    if sessions == [] then []
    else
      var n := |sessions| - 1;
      Without(sessions[..n], h) + if sessions[n].h == h then [] else [sessions[n]]
  }

  // What the driver answers to one ioctl.
  datatype Answer = Answer(ret: int, code: u32)

  predicate IsRetry(a: Answer) {
    a.code == CA_AUTH_FAIL || a.code == RETRY_OPEN_SESSION
  }

  /** The try that is taken for the answer: the first from `i` on that does not ask for another, or the last one. */
  function Settles(driver: nat -> Answer, i: nat): (k: nat)
    requires i < TRIES
    ensures i <= k < TRIES && (k < TRIES - 1 ==> !IsRetry(driver(k))) && forall j :: i <= j < k ==> IsRetry(driver(j))
    decreases TRIES - i
  {
    if i == TRIES - 1 || !IsRetry(driver(i)) then i else Settles(driver, i + 1)
  }

  /** The list that the check of an operation looks at. */
  function Listed(blocks: seq<Block>): seq<ShmInner> {
    seq(|blocks|, i requires 0 <= i < |blocks| => ShmInner(blocks[i].buffer, 0, blocks[i].isAllocated, blocks[i].offset))
  }

  predicate Accepted(op: Option<Operation>, blocks: seq<Block>) {
    op.None? || VendorAccepts(op.value, Listed(blocks))
  }

  /** An opening operation keeps only its first two parameters. */
  function FirstTwo(op: Option<Operation>): Option<Operation> {
    if op.None? then None else Some(op.value.(paramTypes := op.value.paramTypes % 0x100))
  }

  predicate CanAllocate(bits: set<nat>, size: u32, flags: u32, at: Addr) {
    && (CheckFlags(flags) || (flags == MEM_SHARED_INOUT && 0 < size <= MAX_SHAREDMEM_LEN))
    && FirstFree(bits, 0).Some? && (size != 0 ==> at != NULL)
  }

  /** Every context is where it was, under its descriptor, with the count it had. */
  ghost predicate Balanced(before: seq<Context>, after: seq<Context>) {
    && |after| == |before|
    && forall i :: 0 <= i < |before| ==> after[i].fd == before[i].fd && after[i].ops == before[i].ops
  }

  /** Balanced, and only the context of `fd` may differ at all. */
  ghost predicate OnlyAt(before: seq<Context>, after: seq<Context>, fd: int) {
    Balanced(before, after) && forall i :: 0 <= i < |before| && Find(before, fd) != Some(i) ==> after[i] == before[i]
  }

  /** An opening operation is checked as if its last two parameters were nothing. */
  lemma FirstTwoKinds(op: Operation, i: nat)
    requires i < PARAM_NUM
    ensures FirstTwo(Some(op)).Some?
    ensures var o := FirstTwo(Some(op)).value;
      && Kind(o, i) == (if i < 2 then Kind(op, i) else NONE)
      && o.params == op.params && o.started == op.started
  {
    var low := op.paramTypes % 0x100;
    var high := op.paramTypes / 0x100;
    assert op.paramTypes == 0x100 * high + low;
    LowByteTypes(high, low);
  }

  lemma LowByteTypes(high: nat, low: nat)
    requires low < 0x100
    ensures low / 0x100 == 0 && low / 0x1000 == 0
    ensures (0x100 * high + low) % 0x10 == low % 0x10 && (0x100 * high + low) / 0x10 % 0x10 == low / 0x10 % 0x10
  {
    var d, e := low / 0x10, low % 0x10;
    assert 0x100 * high + low == 0x10 * (0x10 * high + d) + e;
    assert (0x100 * high + low) / 0x10 == 0x10 * high + d;
  }

  /** Taking a structure off the session list, piece by piece: every other session stays, in order. */
  lemma {:induction false} WithoutPieces(a: seq<Session>, b: seq<Session>, h: nat)
    ensures Without(a + b, h) == Without(a, h) + Without(b, h)
    ensures Without([], h) == []
  {
    if b == [] {
      NothingBehind(a);
      NothingBehind(Without(a, h));
    } else {
      var n := |b| - 1;
      WithoutPieces(a, b[..n], h);
      Assoc(a, b[..n], [b[n]]);
      SplitLast(b);
      WithoutLast(a + b[..n], b[n], h);
      WithoutLast(b[..n], b[n], h);
      Assoc(Without(a, h), Without(b[..n], h), if b[n].h == h then [] else [b[n]]);
    }
  }

  lemma WithoutLast(a: seq<Session>, s: Session, h: nat)
    ensures Without(a + [s], h) == Without(a, h) + if s.h == h then [] else [s]
  {
    assert (a + [s])[..|a|] == a;
  }

  lemma WithoutOne(s: Session, h: nat)
    ensures Without([s], h) == if s.h == h then [] else [s]
  {
    assert [s][..0] == [];
  }

  /** Every listed block, and no other, is what the check of an operation may refer to. */
  lemma ListedExactly(blocks: seq<Block>, buffer: Addr)
    ensures BufferListed(Listed(blocks), buffer) <==> exists b :: b in blocks && b.buffer == buffer
  {
    if b :| b in blocks && b.buffer == buffer {
      var k :| 0 <= k < |blocks| && blocks[k] == b;
      assert Listed(blocks)[k].buffer == buffer;
    }
    if BufferListed(Listed(blocks), buffer) {
      var k :| 0 <= k < |Listed(blocks)| && Listed(blocks)[k].buffer == buffer;
      assert blocks[k] in blocks;
    }
  }

  /** The driver is asked again exactly after one of the two codes, and not more than two hundred times in all. */
  lemma SettlesExactly(driver: nat -> Answer, k: nat)
    requires k < 200
    ensures Settles(driver, 0) == k <==>
      && (forall j :: 0 <= j < k ==> driver(j).code == 0xFFFF_CFE5 || driver(j).code == 0xFFFF_920E)
      && (k < 199 ==> driver(k).code != 0xFFFF_CFE5 && driver(k).code != 0xFFFF_920E)
  {
    var s := Settles(driver, 0);
    if s < k {
      assert !IsRetry(driver(s));
    } else if k < s {
      assert IsRetry(driver(k));
    }
  }

  /** Memory can be allocated exactly with the flags for one direction or both, or for no copy and then with a size
      from 1 to 256 MB; while one of the 64 slots is free; and if memory can be had, where any is asked for. */
  lemma CanAllocateExactly(bits: set<nat>, size: u32, flags: u32, at: Addr)
    ensures CanAllocate(bits, size, flags, at) <==>
      && (1 <= flags <= 3 || (flags == 4 && 1 <= size <= 0x1000_0000))
      && (exists slot :: 0 <= slot < 64 && slot !in bits)
      && (size > 0 ==> at > 0)
  {
    var r := FirstFree(bits, 0);
    if r.Some? {
      assert r.value !in bits;
    }
  }

  class Vendor {
    var contexts: seq<Context>

    /** A listed context is held at least by the list. */
    ghost predicate Valid()
      reads this
    {
      forall i :: 0 <= i < |contexts| ==> contexts[i].ops > 0
    }

    method FindBnContext(fd: int) returns (k: Option<nat>)
      ensures k == Find(contexts, fd)
    {
      for i := 0 to |contexts|
        invariant forall j :: 0 <= j < i ==> contexts[j].fd != fd
      {
        if contexts[i].fd == fd {
          return Some(i);
        }
      }
      return None;
    }

    method GetBnContext(fd: int) returns (k: Option<nat>)
      modifies this
      ensures k == Find(old(contexts), fd)
      ensures k.None? ==> contexts == old(contexts)
      ensures k.Some? ==>
        contexts == old(contexts)[k.value := old(contexts)[k.value].(ops := old(contexts)[k.value].ops + 1)]
    {
      k := FindBnContext(fd);
      if k.Some? {
        contexts := contexts[k.value := contexts[k.value].(ops := contexts[k.value].ops + 1)];
      }
    }

    /** The put that meets zero finalizes the context. */
    method PutBnContext(k: Option<nat>) returns (last: bool)
      requires k.Some? ==> k.value < |contexts| && contexts[k.value].ops > 0
      modifies this
      ensures last <==> k.Some? && old(contexts)[k.value].ops == 1
      ensures k.None? ==> contexts == old(contexts)
      ensures k.Some? && last ==> contexts == RemoveAt(old(contexts), k.value)
      ensures k.Some? && !last ==>
        contexts == old(contexts)[k.value := old(contexts)[k.value].(ops := old(contexts)[k.value].ops - 1)]
    {
      if k.None? {
        return false;
      }
      var c := contexts[k.value];
      last := c.ops == 1;
      contexts := if last then RemoveAt(contexts, k.value) else contexts[k.value := c.(ops := c.ops - 1)];
    }

    /** TEEC_DoOpenSession: asks the driver again while it says so, two hundred times at most. */
    method DoOpenSession(driver: nat -> Answer) returns (done: bool)
      ensures done <==> driver(Settles(driver, 0)).ret == 0
    {
      var answer := driver(0);
      for i := 0 to TRIES
        invariant i < TRIES ==> Settles(driver, i) == Settles(driver, 0)
        invariant i == TRIES ==> answer == driver(Settles(driver, 0))
      {
        answer := driver(i);
        if !IsRetry(answer) {
          break;
        }
      }
      done := answer.ret == 0;
    }

    /** `identify` says that the login is by identity without data, `loaded` that the application's file was read. */
    method OpenSession(context: Option<int>, h: Option<nat>, identify: bool, op: Option<Operation>, loaded: bool,
                       driver: nat -> Answer, id: u32) returns (ok: bool)
      requires Valid()
      modifies this
      ensures Valid() && Balanced(old(contexts), contexts)
      ensures ok <==>
        && context.Some? && h.Some? && Find(old(contexts), context.value).Some? && identify && loaded
        && Accepted(FirstTwo(op), old(contexts)[Find(old(contexts), context.value).value].blocks)
        && driver(Settles(driver, 0)).ret == 0
      ensures !ok ==> contexts == old(contexts)
      ensures ok ==> OnlyAt(old(contexts), contexts, context.value)
      ensures ok ==> var k := Find(old(contexts), context.value).value;
        contexts[k] == old(contexts)[k].(sessions := Without(old(contexts)[k].sessions, h.value) + [Session(h.value, id, 2)])
    {
      if context.None? || h.None? {
        return false;
      }
      var k := GetBnContext(context.value);
      if k.None? {
        return false;
      }
      ok := OpenSessionInner(k.value, h.value, identify, op, loaded, driver, id);
      var _ := PutBnContext(k);
    }

    method OpenSessionInner(k: nat, h: nat, identify: bool, op: Option<Operation>, loaded: bool,
                            driver: nat -> Answer, id: u32) returns (ok: bool)
      requires k < |contexts|
      modifies this
      ensures ok <==> identify && Accepted(FirstTwo(op), old(contexts)[k].blocks) && loaded && driver(Settles(driver, 0)).ret == 0
      ensures !ok ==> contexts == old(contexts)
      ensures ok ==> contexts == old(contexts)[k := old(contexts)[k].(
        sessions := Without(old(contexts)[k].sessions, h) + [Session(h, id, 2)])]
    {
      if !identify {
        return false;
      }
      var c := contexts[k];
      var r := VendorCheck.CheckOperation(FirstTwo(op), Listed(c.blocks));
      if r != Success || !loaded {
        return false;
      }
      ok := DoOpenSession(driver);
      if ok {
        var kept := RemoveSession(c.sessions, h);
        contexts := contexts[k := c.(sessions := kept + [Session(h, id, 2)])];
      }
    }

    /** LIST_FOR_EACH_SAFE of AddSessionList. */
    method RemoveSession(sessions: seq<Session>, h: nat) returns (kept: seq<Session>)
      ensures kept == Without(sessions, h)
    {
      kept := [];
      for i := 0 to |sessions|
        invariant kept == Without(sessions[..i], h)
      {
        assert sessions[..i + 1][..i] == sessions[..i];
        if sessions[i].h != h {
          kept := kept + [sessions[i]];
        }
      }
      assert sessions[..|sessions|] == sessions;
    }

    /** The session leaves the list even when the driver then refuses to close it. */
    method CloseSession(context: Option<int>, id: u32)
      requires Valid()
      modifies this
      ensures Valid() && Balanced(old(contexts), contexts)
      ensures context.None? || Find(old(contexts), context.value).None? ==> contexts == old(contexts)
      ensures context.Some? ==> OnlyAt(old(contexts), contexts, context.value)
      ensures context.Some? && Find(old(contexts), context.value).Some? ==>
        var k := Find(old(contexts), context.value).value;
        var s := old(contexts)[k].sessions;
        contexts[k] == old(contexts)[k].(sessions := if FindId(s, id).Some? then RemoveAt(s, FindId(s, id).value) else s)
    {
      if context.None? {
        return;
      }
      var k := GetBnContext(context.value);
      if k.None? {
        return;
      }
      var c := contexts[k.value];
      var i := FindAndRemoveSession(c.sessions, id);
      if i.Some? {
        contexts := contexts[k.value := c.(sessions := RemoveAt(c.sessions, i.value))];
      }
      var _ := PutBnContext(k);
    }

    method FindAndRemoveSession(sessions: seq<Session>, id: u32) returns (r: Option<nat>)
      ensures r == FindId(sessions, id)
    {
      for i := 0 to |sessions|
        invariant forall j :: 0 <= j < i ==> sessions[j].id != id
      {
        if sessions[i].id == id {
          return Some(i);
        }
      }
      return None;
    }

    /** Invoking a command and requesting a cancellation leave the whole state as it was, answered or refused. */
    method InvokeCommand(context: Option<int>, op: Option<Operation>, answer: Answer) returns (ok: bool)
      requires Valid()
      modifies this
      ensures Valid() && contexts == old(contexts)
      ensures ok <==> context.Some? && Find(contexts, context.value).Some? && answer.ret == 0 &&
                      Accepted(op, contexts[Find(contexts, context.value).value].blocks)
    {
      if context.None? {
        return false;
      }
      var k := GetBnContext(context.value);
      ok := false;
      if k.Some? {
        var r := VendorCheck.CheckOperation(op, Listed(contexts[k.value].blocks));
        ok := r == Success && answer.ret == 0;
      }
      var _ := PutBnContext(k);
    }

    method RequestCancellation(context: Option<int>)
      requires Valid()
      modifies this
      ensures Valid() && contexts == old(contexts)
    {
      if context.None? {
        return;
      }
      var k := GetBnContext(context.value);
      var _ := PutBnContext(k);
    }

    /** A new block at the end of a context's list; the caller's own reference is already given back. */
    method InsertBlock(k: nat, b: Block)
      requires k < |contexts| && b.ops == 2
      modifies this
      ensures contexts == old(contexts)[k := old(contexts)[k].(
        blocks := old(contexts)[k].blocks + [b.(ops := 1)],
        bits := if b.isAllocated then old(contexts)[k].bits + {b.offset} else old(contexts)[k].bits)]
    {
      var c := contexts[k];
      contexts := contexts[k := c.(blocks := c.blocks + [b.(ops := b.ops - 1)],
                                   bits := if b.isAllocated then c.bits + {b.offset} else c.bits)];
    }

    method RegisterSharedMemory(context: Option<int>, mallocOk: bool, buffer: Addr, flags: u32) returns (ok: bool)
      requires Valid()
      modifies this
      ensures Valid() && Balanced(old(contexts), contexts)
      ensures ok <==> context.Some? && mallocOk && Find(old(contexts), context.value).Some? && buffer != NULL &&
                      CheckFlags(flags)
      ensures !ok ==> contexts == old(contexts)
      ensures ok ==> OnlyAt(old(contexts), contexts, context.value)
      ensures ok ==> var k := Find(old(contexts), context.value).value;
        contexts[k] == old(contexts)[k].(blocks := old(contexts)[k].blocks + [Block(buffer, false, U32_MAX, 1)])
    {
      if context.None? || !mallocOk {
        return false;
      }
      var k := GetBnContext(context.value);
      ok := k.Some? && buffer != NULL && CheckFlags(flags);
      if ok {
        InsertBlock(k.value, Block(buffer, false, U32_MAX, 2));
      }
      var _ := PutBnContext(k);
    }

    /** `at` is what mmap or malloc answers, NULL where it fails. A failed call leaves no bit behind. */
    method AllocateSharedMemory(context: Option<int>, mallocOk: bool, size: u32, flags: u32, at: Addr) returns (ok: bool)
      requires Valid()
      modifies this
      ensures Valid() && Balanced(old(contexts), contexts)
      ensures !ok ==> contexts == old(contexts)
      ensures ok <==> context.Some? && mallocOk && Find(old(contexts), context.value).Some? &&
                      CanAllocate(old(contexts)[Find(old(contexts), context.value).value].bits, size, flags, at)
      ensures ok ==> OnlyAt(old(contexts), contexts, context.value)
      ensures ok ==>
        var k := Find(old(contexts), context.value).value;
        var c := old(contexts)[k];
        var slot := FirstFree(c.bits, 0).value;
        var b := Block(if size == 0 then ZERO_SIZE_PTR else at, true, slot, 1);
        contexts[k] == c.(blocks := c.blocks + [b], bits := c.bits + {slot})
    {
      if context.None? || !mallocOk {
        return false;
      }
      var k := GetBnContext(context.value);
      ok := false;
      if k.Some? {
        ok := AllocateInner(k.value, size, flags, at);
      }
      var _ := PutBnContext(k);
    }

    /** Takes the first free bit, and gives it back when no memory can be had. */
    method AllocateInner(k: nat, size: u32, flags: u32, at: Addr) returns (ok: bool)
      requires k < |contexts|
      modifies this
      ensures ok <==> CanAllocate(old(contexts)[k].bits, size, flags, at)
      ensures !ok ==> contexts == old(contexts)
      ensures ok ==>
        var c := old(contexts)[k];
        var slot := FirstFree(c.bits, 0).value;
        var b := Block(if size == 0 then ZERO_SIZE_PTR else at, true, slot, 1);
        contexts == old(contexts)[k := c.(blocks := c.blocks + [b], bits := c.bits + {slot})]
    {
      if !(CheckFlags(flags) || flags == MEM_SHARED_INOUT) {
        return false;
      }
      var c := contexts[k];
      var slot := FirstFree(c.bits, 0);
      if slot.None? {
        return false;
      }
      contexts := contexts[k := c.(bits := c.bits + {slot.value})];
      var refused := flags == MEM_SHARED_INOUT && (size == 0 || size > MAX_SHAREDMEM_LEN);
      if refused || (size != 0 && at == NULL) {
        contexts := contexts[k := c.(bits := contexts[k].bits - {slot.value})];
        assert c.bits + {slot.value} - {slot.value} == c.bits;
        return false;
      }
      InsertBlock(k, Block(if size == 0 then ZERO_SIZE_PTR else at, true, slot.value, 2));
      assert c.bits + {slot.value} + {slot.value} == c.bits + {slot.value};
      return true;
    }

    /** The first block with this buffer leaves the list; it is freed, and its bit cleared, unless someone still holds it. */
    method ReleaseSharedMemory(context: Option<int>, buffer: Addr)
      requires Valid()
      modifies this
      ensures Valid() && Balanced(old(contexts), contexts)
      ensures context.None? || Find(old(contexts), context.value).None? ==> contexts == old(contexts)
      ensures context.Some? ==> OnlyAt(old(contexts), contexts, context.value)
      ensures context.Some? && Find(old(contexts), context.value).Some? ==>
        var k := Find(old(contexts), context.value).value;
        var c := old(contexts)[k];
        var i := FindBuffer(c.blocks, buffer);
        contexts[k] ==
          if i.None? then c
          else
            var b := c.blocks[i.value];
            c.(blocks := RemoveAt(c.blocks, i.value),
               bits := if b.ops == 1 && b.isAllocated && b.buffer != NULL then c.bits - {b.offset} else c.bits)
    {
      if context.None? {
        return;
      }
      var k := GetBnContext(context.value);
      if k.Some? {
        var c := contexts[k.value];
        var i := FindShrMem(c.blocks, buffer);
        if i.Some? {
          var b := c.blocks[i.value];
          var bits := if b.ops == 1 && b.isAllocated && b.buffer != NULL then c.bits - {b.offset} else c.bits;
          contexts := contexts[k.value := c.(blocks := RemoveAt(c.blocks, i.value), bits := bits)];
        }
      }
      var _ := PutBnContext(k);
    }

    method FindShrMem(blocks: seq<Block>, buffer: Addr) returns (r: Option<nat>)
      ensures r == FindBuffer(blocks, buffer)
    {
      for i := 0 to |blocks|
        invariant forall j :: 0 <= j < i ==> blocks[j].buffer != buffer
      {
        if blocks[i].buffer == buffer {
          return Some(i);
        }
      }
      return None;
    }
  }
}
