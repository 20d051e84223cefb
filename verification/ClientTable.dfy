/** libteec's table of mapped shared memory, beside the blocks that cadaemon lists for each context. */
module ClientTable {
  import opened Words
  import opened Wrappers
  import opened Sequences
  import opened Operations
  import opened Slots
  import opened ClientCodec
  import opened DaemonCodec

  // A daemon context of this client: its listed blocks, and the bits of its bitmap that are set.
  datatype Context = Context(blocks: seq<ShmInner>, bits: set<nat>)

  // The application's TEEC_SharedMemory structure; `ctx` is the TEEC_Context structure it points to.
  datatype Shm = Shm(buffer: Addr, size: u32, isAllocated: bool, ctx: Option<nat>)

  // The table, the daemon's contexts by descriptor, and the application's structures: the descriptor each
  // TEEC_Context holds now, and its TEEC_SharedMemory structures.
  datatype State = State(table: seq<ShareMem>, contexts: map<int, Context>, fds: map<nat, int>, shms: map<nat, Shm>)

  const NO_FD := -1
  const EMPTY := State([], map[], map[], map[])
  const ZEROED := Shm(NULL, 0, false, None)

  // `daemonAt` and `at` are what mmap answers in the daemon and in the client, NULL where it fails;
  // `last` tells whether no request holds the released block any more.
  datatype Event =
    | Open(c: nat, fd: int)
    | Allocate(h: nat, c: nat, size: u32, flags: u32, daemonAt: Addr, at: Addr)
    | Register(h: nat, c: nat, buffer: Addr, size: u32, flags: u32)
    | Release(h: nat, last: bool)
    | LastPut(fd: int, slot: nat)
    | Finalize(c: nat)

  // ---------------------------------------------------------------- the operations

  function Struct(s: State, h: nat): Shm {
    if h in s.shms then s.shms[h] else ZEROED
  }

  /** The descriptor in a TEEC_Context structure. */
  function FdOf(s: State, c: nat): int {
    if c in s.fds then s.fds[c] else NO_FD
  }

  /** First row with this buffer. */
  function FirstRow(table: seq<ShareMem>, buffer: Addr): Option<nat> {
    First(table, (e: ShareMem) => e.buffer == buffer)
  }

  /** FreeShareMem: the first row with this buffer goes. */
  function Erase(table: seq<ShareMem>, buffer: Addr): seq<ShareMem> {
    match FirstRow(table, buffer)
    case None => table
    case Some(i) => RemoveAt(table, i)
  }

  /** A row that finalizing its context unmaps. */
  predicate Unmaps(e: ShareMem, fd: int) {
    e.fd == fd && e.buffer != NULL && e.buffer != ZERO_SIZE_PTR && e.size != 0
  }

  /** FreeAllShareMemoryInContext */
  function FreeAll(table: seq<ShareMem>, fd: int): seq<ShareMem> {
    if table == [] then []
    else (if Unmaps(table[0], fd) then [] else [table[0]]) + FreeAll(table[1..], fd)
  }

  /** What a release request is matched by: the slot of an allocated block, the address of a registered one. */
  predicate Matches(b: ShmInner, isAllocated: bool, offset: u32, buffer: Addr) {
    if isAllocated then b.offset == offset else b.buffer == buffer
  }

  function FirstMatch(blocks: seq<ShmInner>, isAllocated: bool, offset: u32, buffer: Addr): Option<nat> {
    First(blocks, (b: ShmInner) => Matches(b, isAllocated, offset, buffer))
  }

  /** TEEC_ReleaseSharedMemoryInner: the first match leaves the list; its bit is cleared with the last reference. */
  function ReleaseBlock(c: Context, isAllocated: bool, offset: u32, buffer: Addr, last: bool): Context {
    match FirstMatch(c.blocks, isAllocated, offset, buffer)
    case None => c
    case Some(k) =>
      var b := c.blocks[k];
      Context(RemoveAt(c.blocks, k), if last && b.isAllocated && b.buffer != NULL then c.bits - {b.offset} else c.bits)
  }

  /** The daemon's answer to a release request: nothing unless it knows the context. */
  function ReleaseIn(contexts: map<int, Context>, fd: int, shm: Shm, offset: u32, last: bool): map<int, Context> {
    if fd in contexts then contexts[fd := ReleaseBlock(contexts[fd], shm.isAllocated, offset, shm.buffer, last)]
    else contexts
  }

  /** TEEC_AllocateSharedMemoryInner: the new block in the first free slot, or None. */
  function AllocateBlock(c: Context, size: u32, at: Addr): Option<ShmInner> {
    var slot := FirstFree(c.bits, 0);
    if slot.None? || (size != 0 && at == NULL) then None
    else Some(ShmInner(if size != 0 then at else ZERO_SIZE_PTR, size, true, slot.value))
  }

  function WithBlock(c: Context, b: ShmInner, taken: set<nat>): Context {
    Context(c.blocks + [b], c.bits + taken)
  }

  function Next(s: State, e: Event): State {
    match e
    case Open(c, fd) => s.(contexts := s.contexts[fd := Context([], {})], fds := s.fds[c := fd])
    case Allocate(h, c, size, flags, daemonAt, at) =>
      var fd, shm := FdOf(s, c), Struct(s, h).(size := size, ctx := Some(c));
      if !CheckFlags(flags) || fd !in s.contexts || AllocateBlock(s.contexts[fd], size, daemonAt).None? then
        s.(shms := s.shms[h := shm])
      else
        var b := AllocateBlock(s.contexts[fd], size, daemonAt).value;
        var buffer := if size != 0 then at else ZERO_SIZE_PTR;
        s.(table := if buffer == NULL then s.table else s.table + [ShareMem(b.offset, buffer, size, fd)],
           contexts := s.contexts[fd := WithBlock(s.contexts[fd], b, {b.offset})],
           shms := s.shms[h := shm.(isAllocated := true, buffer := buffer)])
    case Register(h, c, buffer, size, flags) =>
      var fd, shm := FdOf(s, c), Struct(s, h).(buffer := buffer, size := size, ctx := Some(c));
      if buffer == NULL || !CheckFlags(flags) || fd !in s.contexts then s.(shms := s.shms[h := shm])
      else
        s.(contexts := s.contexts[fd := WithBlock(s.contexts[fd], ShmInner(buffer, size, false, U32_MAX), {})],
           shms := s.shms[h := shm.(isAllocated := false)])
    case Release(h, last) =>
      var shm := Struct(s, h);
      if shm.ctx.None? then s
      else
        var fd := FdOf(s, shm.ctx.value);
        var offset := if shm.buffer != NULL then LookupOffset(s.table, shm.buffer) else U32_MAX;
        s.(table := if shm.buffer != NULL && shm.isAllocated then Erase(s.table, shm.buffer) else s.table,
           contexts := ReleaseIn(s.contexts, fd, shm, offset, last),
           shms := s.shms[h := Shm(NULL, 0, shm.isAllocated, None)])
    case LastPut(fd, slot) =>
      if fd in s.contexts then
        s.(contexts := s.contexts[fd := s.contexts[fd].(bits := s.contexts[fd].bits - {slot})])
      else s
    case Finalize(c) =>
      s.(table := FreeAll(s.table, FdOf(s, c)), contexts := s.contexts - {FdOf(s, c)}, fds := s.fds[c := NO_FD])
  }

  // ---------------------------------------------------------------- the agreement

  /** The context lists an allocated block in this slot. */
  ghost predicate Lists(c: Context, slot: nat) {
    exists k :: 0 <= k < |c.blocks| && c.blocks[k].isAllocated && c.blocks[k].offset == slot
  }

  ghost predicate BlockOk(b: ShmInner, bits: set<nat>) {
    b.buffer != NULL && if b.isAllocated then b.offset < SLOTS && b.offset in bits else b.offset == U32_MAX
  }

  ghost predicate ContextOk(c: Context) {
    && (forall k :: 0 <= k < |c.blocks| ==> BlockOk(c.blocks[k], c.bits))
    && (forall i, j :: 0 <= i < j < |c.blocks| && c.blocks[i].isAllocated ==> c.blocks[i].offset != c.blocks[j].offset)
  }

  /** A row of the table names a live block of its context. */
  ghost predicate RowOk(e: ShareMem, contexts: map<int, Context>) {
    e.fd in contexts && Lists(contexts[e.fd], e.offset)
  }

  /** A row of a mapping of its own. */
  ghost predicate RowSized(e: ShareMem) {
    e.buffer != NULL && e.buffer != ZERO_SIZE_PTR && e.size != 0
  }

  ghost predicate Agrees(s: State) {
    forall e {:trigger RowOk(e, s.contexts)} :: e in s.table ==> RowOk(e, s.contexts)
  }

  ghost predicate MapsAt(c: Context, a: Addr) {
    exists k :: 0 <= k < |c.blocks| && c.blocks[k].isAllocated && c.blocks[k].buffer == a
  }

  ghost predicate ContextsOk(s: State) {
    forall fd {:trigger s.contexts[fd]} :: fd in s.contexts ==> ContextOk(s.contexts[fd])
  }

  // ---------------------------------------------------------------- lists and rows that change

  lemma AppendedContext(c: Context, b: ShmInner, taken: set<nat>)
    requires ContextOk(c) && BlockOk(b, c.bits + taken)
    requires b.isAllocated ==> b.offset !in c.bits
    ensures ContextOk(WithBlock(c, b, taken))
    ensures forall slot: nat :: Lists(WithBlock(c, b, taken), slot) <==> Lists(c, slot) || (b.isAllocated && b.offset == slot)
    ensures forall a: Addr :: MapsAt(WithBlock(c, b, taken), a) <==> MapsAt(c, a) || (b.isAllocated && b.buffer == a)
  {
    var c' := WithBlock(c, b, taken);
    var n := |c.blocks|;
    assert forall k :: 0 <= k < n ==> c'.blocks[k] == c.blocks[k] && BlockOk(c.blocks[k], c.bits);
    assert c'.blocks[n] == b;
    forall slot: nat
      ensures Lists(c', slot) <==> Lists(c, slot) || (b.isAllocated && b.offset == slot)
    {
      if Lists(c, slot) {
        var k :| 0 <= k < n && c.blocks[k].isAllocated && c.blocks[k].offset == slot;
        assert c'.blocks[k] == c.blocks[k];
      }
    }
    forall a: Addr
      ensures MapsAt(c', a) <==> MapsAt(c, a) || (b.isAllocated && b.buffer == a)
    {
      if MapsAt(c, a) {
        var k :| 0 <= k < n && c.blocks[k].isAllocated && c.blocks[k].buffer == a;
        assert c'.blocks[k] == c.blocks[k];
      }
    }
  }

  /** Where the blocks are found after one was removed. */
  lemma RemovedIndex<T>(s: seq<T>, k: nat)
    requires k < |s|
    ensures |RemoveAt(s, k)| == |s| - 1
    ensures forall j :: 0 <= j < |s| - 1 ==> RemoveAt(s, k)[j] == s[if j < k then j else j + 1]
    ensures forall j :: 0 <= j < |s| && j != k ==> s[j] == RemoveAt(s, k)[if j < k then j else j - 1]
  {
  }

  lemma RemovedOk(c: Context, k: nat, bits: set<nat>)
    requires ContextOk(c) && k < |c.blocks|
    requires bits == c.bits || (c.blocks[k].isAllocated && bits == c.bits - {c.blocks[k].offset})
    ensures ContextOk(Context(RemoveAt(c.blocks, k), bits))
  {
    var blocks := RemoveAt(c.blocks, k);
    RemovedIndex(c.blocks, k);
    forall j | 0 <= j < |blocks|
      ensures BlockOk(blocks[j], bits)
    {
      assert BlockOk(c.blocks[if j < k then j else j + 1], c.bits);
    }
  }

  lemma StillListed(c: Context, k: nat, bits: set<nat>, slot: nat)
    requires k < |c.blocks| && Lists(c, slot) && !(c.blocks[k].isAllocated && c.blocks[k].offset == slot)
    ensures Lists(Context(RemoveAt(c.blocks, k), bits), slot)
  {
    var c' := Context(RemoveAt(c.blocks, k), bits);
    var j :| 0 <= j < |c.blocks| && c.blocks[j].isAllocated && c.blocks[j].offset == slot;
    assert c'.blocks[if j < k then j else j - 1] == c.blocks[j];
  }

  lemma ListedBefore(c: Context, k: nat, bits: set<nat>, slot: nat)
    requires ContextOk(c) && k < |c.blocks| && Lists(Context(RemoveAt(c.blocks, k), bits), slot)
    ensures Lists(c, slot) && !(c.blocks[k].isAllocated && c.blocks[k].offset == slot)
  {
    var blocks := RemoveAt(c.blocks, k);
    var j :| 0 <= j < |blocks| && blocks[j].isAllocated && blocks[j].offset == slot;
    var i := if j < k then j else j + 1;
    assert blocks[j] == c.blocks[i];
  }

  /** Removing one block: the other slots stay listed. */
  lemma RemovedContext(c: Context, k: nat, bits: set<nat>)
    requires ContextOk(c) && k < |c.blocks|
    requires bits == c.bits || (c.blocks[k].isAllocated && bits == c.bits - {c.blocks[k].offset})
    ensures ContextOk(Context(RemoveAt(c.blocks, k), bits))
    ensures forall slot: nat :: Lists(Context(RemoveAt(c.blocks, k), bits), slot) <==>
      Lists(c, slot) && !(c.blocks[k].isAllocated && c.blocks[k].offset == slot)
    ensures forall a: Addr :: MapsAt(Context(RemoveAt(c.blocks, k), bits), a) ==> MapsAt(c, a)
  {
    RemovedOk(c, k, bits);
    forall slot: nat
      ensures Lists(Context(RemoveAt(c.blocks, k), bits), slot) <==>
        Lists(c, slot) && !(c.blocks[k].isAllocated && c.blocks[k].offset == slot)
    {
      if Lists(Context(RemoveAt(c.blocks, k), bits), slot) {
        ListedBefore(c, k, bits, slot);
      } else if Lists(c, slot) && !(c.blocks[k].isAllocated && c.blocks[k].offset == slot) {
        StillListed(c, k, bits, slot);
      }
    }
    RemovedIndex(c.blocks, k);
  }

  lemma {:induction false} FreeAllMember(table: seq<ShareMem>, fd: int, e: ShareMem)
    ensures e in FreeAll(table, fd) <==> e in table && !Unmaps(e, fd)
  {
    if table != [] {
      FreeAllMember(table[1..], fd, e);
      assert table == [table[0]] + table[1..];
    }
  }

  /** One turn of the erasing loop, its iterator at row `i`. */
  lemma EraseStep(rows: seq<ShareMem>, i: nat, fd: int)
    requires i < |rows|
    ensures Unmaps(rows[i], fd) ==>
      RemoveAt(rows, i)[..i] + FreeAll(RemoveAt(rows, i)[i..], fd) == rows[..i] + FreeAll(rows[i..], fd)
    ensures !Unmaps(rows[i], fd) ==>
      rows[..i + 1] + FreeAll(rows[i + 1..], fd) == rows[..i] + FreeAll(rows[i..], fd)
  {
    assert RemoveAt(rows, i)[i..] == rows[i + 1..] == rows[i..][1..];
    assert RemoveAt(rows, i)[..i] == rows[..i];
    assert rows[..i + 1] == rows[..i] + [rows[i]];
  }

  /** Rows left when one is erased. */
  lemma ErasedRows(table: seq<ShareMem>, i: nat, e: ShareMem)
    requires i < |table|
    ensures e in RemoveAt(table, i) <==> exists j :: 0 <= j < |table| && j != i && table[j] == e
  {
    RemovedIndex(table, i);
    if e in RemoveAt(table, i) {
      var k :| 0 <= k < |table| - 1 && RemoveAt(table, i)[k] == e;
      assert table[if k < i then k else k + 1] == e;
    }
    if j :| 0 <= j < |table| && j != i && table[j] == e {
      assert RemoveAt(table, i)[if j < i then j else j - 1] == e;
    }
  }

  /** Erases while iterating: the iterator moves only past the rows that stay. */
  method EraseRows(was: seq<ShareMem>, fd: int) returns (rows: seq<ShareMem>)
    ensures rows == FreeAll(was, fd)
  {
    rows := was;
    var i := 0;
    while i < |rows|
      invariant 0 <= i <= |rows| && rows[..i] + FreeAll(rows[i..], fd) == FreeAll(was, fd)
      decreases |rows| - i
    {
      EraseStep(rows, i, fd);
      if Unmaps(rows[i], fd) {
        rows := RemoveAt(rows, i);
      } else {
        i := i + 1;
      }
    }
  }
}
