/** libteec: copying an invoked operation's results out of the shared buffer into the caller's memory. */
module Reply {
  import opened Words
  import opened Wrappers
  import opened Operations
  import opened ClientCodec
  import opened Meaning

  // securec's bound on a destination size.
  const SECUREC_MEM_MAX := 0x7FFF_FFFF

  predicate MemcpyOk(destMax: u32, count: u32) {
    0 < destMax <= SECUREC_MEM_MAX && count <= destMax
  }

  /** The type says the trusted application may write here: a whole reference always does, whatever its flags. */
  predicate IsOutput(t: nat) {
    t == TEMP_OUTPUT || t == TEMP_INOUT || t == PARTIAL_OUTPUT || t == PARTIAL_INOUT || t == WHOLE
  }

  /** Where the reply's payload for a parameter starts in its region. */
  function PayloadStart(t: nat): nat {
    if IsPartial(t) then HEADER_SIZE else 0
  }

  /** Where the decoder copies a parameter's results to: it adds the offset field even for a whole reference. */
  function Destination(t: nat, p: Param): Addr {
    if IsPartial(t) then (if p.memref.parent.Some? then p.memref.parent.value.buffer + p.memref.offset else NULL)
    else p.tmpref.buffer
  }

  /** The caller's size of a memory parameter, and the size the reply reports. */
  function ClientSize(t: nat, p: Param): u32 {
    if IsPartial(t) then PayloadSize(t, p.memref) else p.tmpref.size
  }

  function ReportedSize(t: nat, q: Param): u32 {
    if IsPartial(t) then q.memref.size else q.tmpref.size
  }

  /** The parameter's results are copied: it is an output the daemon did not already share memory for. */
  predicate Copied(t: nat, p: Param) {
    && IsOutput(t)
    && (if IsPartial(t) then p.memref.parent.Some? && p.memref.parent.value.buffer != NULL && !p.memref.parent.value.isAllocated
        else p.tmpref.buffer != NULL)
  }

  /** Bytes copied back: nothing when the reported size exceeds the caller's. */
  function CopyCount(t: nat, p: Param, q: Param): nat {
    if Copied(t, p) && ReportedSize(t, q) <= ClientSize(t, p) then ReportedSize(t, q) else 0
  }

  /** Outputs take the reported size, values take the reported value, everything else is kept.
      With no shared buffer at all, temporary references are skipped. */
  function Result(empty: bool, t: nat, p: Param, q: Param): Param {
    if empty && IsTemp(t) then p else Updated(t, p, q)
  }

  /** Outputs take the reported size, values take the reported value, everything else is kept. */
  function Updated(t: nat, p: Param, q: Param): Param {
    if !IsOutput(t) then (if IsValue(t) then p.(value := q.value) else p)
    else if IsPartial(t) then p.(memref := p.memref.(size := q.memref.size))
    else p.(tmpref := p.tmpref.(size := q.tmpref.size))
  }

  predicate Writable(t: nat, p: Param, memLen: nat) {
    && (IsPartial(t) ==> p.memref.parent.Some?)
    && (Copied(t, p) ==> Destination(t, p) + ClientSize(t, p) <= memLen)
  }

  predicate AllWritable(op: Operation, memLen: nat) {
    forall i :: 0 <= i < PARAM_NUM ==> Writable(Kind(op, i), op.params[i], memLen)
  }

  function Overwrite(mem: seq<byte>, at: nat, bytes: seq<byte>): (r: seq<byte>)
    requires at + |bytes| <= |mem|
    ensures |r| == |mem|
    ensures forall a :: 0 <= a < |mem| ==> r[a] == if at <= a < at + |bytes| then bytes[a - at] else mem[a]
  {
    mem[..at] + bytes + mem[at + |bytes|..]
  }

  /** The caller's memory after one parameter, whose region starts at `at`, is copied back. */
  function OneCopied(t: nat, p: Param, q: Param, data: seq<byte>, at: nat, mem: seq<byte>): (r: seq<byte>)
    requires at + RegionSize(t, p) <= |data| && Writable(t, p, |mem|)
    ensures |r| == |mem|
  {
    var n, from := CopyCount(t, p, q), at + PayloadStart(t);
    if n == 0 then mem else Overwrite(mem, Destination(t, p), data[from..from + n])
  }

  /** The caller's memory after parameters `0..i` are copied back, in order. */
  function MemAfter(op: Operation, back: Params, i: nat, data: seq<byte>, mem: seq<byte>): (r: seq<byte>)
    requires i <= PARAM_NUM && Offset(op, i) <= |data| && AllWritable(op, |mem|)
    ensures |r| == |mem|
  {
    if i == 0 then mem
    else
      var t, p, q := Kind(op, i - 1), op.params[i - 1], back[i - 1];
      var before := MemAfter(op, back, i - 1, data, mem);
      OneCopied(t, p, q, data, Offset(op, i - 1), before)
  }

  /** memcpy_s from the shared buffer into the caller's memory. */
  method Memcpy(mem: array<byte>, dest: Addr, destMax: u32, data: array<byte>, from: nat, count: u32) returns (ok: bool)
    requires mem != data && from + count <= data.Length
    requires MemcpyOk(destMax, count) ==> dest + count <= mem.Length
    modifies mem
    ensures ok <==> MemcpyOk(destMax, count)
    ensures mem[..] == if ok && count > 0 then Overwrite(old(mem[..]), dest, data[from..from + count]) else old(mem[..])
  {
    ok := MemcpyOk(destMax, count);
    if ok {
      for k := 0 to count
        invariant forall a :: 0 <= a < mem.Length ==>
          mem[a] == if dest <= a < dest + k then data[from + a - dest] else old(mem[a])
      {
        mem[dest + k] := data[from + k];
      }
    }
  }

  method DecodeTempMem(t: nat, p: Param, q: Param, data: array<byte>, mem: array<byte>, ptr: nat, sizeLeft: nat)
    returns (r: Code, p': Param, ptr': nat, left': nat)
    requires IsTemp(t) && mem != data && ptr + sizeLeft == data.Length && Writable(t, p, mem.Length)
    modifies mem
    ensures TempOk(p.tmpref) && p.tmpref.size <= SECUREC_MEM_MAX ==> (r.Success? <==> p.tmpref.size <= sizeLeft)
    ensures r.Success? ==> p' == Updated(t, p, q) && ptr' == ptr + p.tmpref.size && ptr' + left' == data.Length
    ensures r.Success? && CopyCount(t, p, q) == 0 ==> mem[..] == old(mem[..])
    ensures r.Success? && CopyCount(t, p, q) > 0 ==>
      mem[..] == Overwrite(old(mem[..]), Destination(t, p), data[ptr..ptr + CopyCount(t, p, q)])
  {
    p', ptr', left' := p, ptr, sizeLeft;
    if sizeLeft < p.tmpref.size {
      return Fail, p', ptr', left';
    }
    if t != TEMP_INPUT {
      if p.tmpref.buffer != NULL && q.tmpref.size <= p.tmpref.size {
        var ok := Memcpy(mem, p.tmpref.buffer, p.tmpref.size, data, ptr, q.tmpref.size);
        if !ok {
          return Fail, p', ptr', left';
        }
      }
      p' := p.(tmpref := p.tmpref.(size := q.tmpref.size));
    }
    return Success, p', ptr + p.tmpref.size, sizeLeft - p.tmpref.size;
  }

  /** The results of a partial reference, unless the reported size is larger than the caller's. */
  method CopyBack(t: nat, p: Param, q: Param, data: array<byte>, mem: array<byte>, from: nat) returns (ok: bool)
    requires IsPartial(t) && t != PARTIAL_INPUT && mem != data && Writable(t, p, mem.Length)
    requires from + ClientSize(t, p) <= data.Length
    modifies mem
    ensures ClientSize(t, p) <= SECUREC_MEM_MAX ==> ok
    ensures ok && CopyCount(t, p, q) == 0 ==> mem[..] == old(mem[..])
    ensures ok && CopyCount(t, p, q) > 0 ==>
      mem[..] == Overwrite(old(mem[..]), Destination(t, p), data[from..from + CopyCount(t, p, q)])
  {
    var shm := p.memref.parent.value;
    var cSize := if t == WHOLE then shm.size else p.memref.size;
    var tSize := q.memref.size;
    ok := true;
    if shm.buffer != NULL && !(cSize == 0 && tSize == 0) && !shm.isAllocated && tSize <= cSize {
      ok := Memcpy(mem, shm.buffer + p.memref.offset, cSize, data, from, tSize);
    }
  }

  method DecodePartialMem(t: nat, p: Param, q: Param, data: array<byte>, mem: array<byte>, ptr: nat, sizeLeft: nat)
    returns (r: Code, p': Param, ptr': nat, left': nat)
    requires IsPartial(t) && mem != data && ptr + sizeLeft == data.Length && Writable(t, p, mem.Length)
    requires data.Length <= U32_MAX
    modifies mem
    ensures ClientSize(t, p) <= SECUREC_MEM_MAX ==> (r.Success? <==> RegionSize(t, p) <= sizeLeft)
    ensures r.Success? ==> p' == Updated(t, p, q) && ptr' == ptr + RegionSize(t, p) && ptr' + left' == data.Length
    ensures r.Success? && CopyCount(t, p, q) == 0 ==> mem[..] == old(mem[..])
    ensures r.Success? && CopyCount(t, p, q) > 0 ==>
      mem[..] == Overwrite(old(mem[..]), Destination(t, p), data[ptr + HEADER_SIZE..ptr + HEADER_SIZE + CopyCount(t, p, q)])
  {
    p', ptr', left' := p, ptr, sizeLeft;
    var shm := p.memref.parent.value;
    var cSize := if t == WHOLE then shm.size else p.memref.size;
    if IsOverFlow(cSize, HEADER_SIZE) || sizeLeft < cSize + HEADER_SIZE {
      return Fail, p', ptr', left';
    }
    ptr', left' := ptr + HEADER_SIZE, sizeLeft - HEADER_SIZE;
    if t != PARTIAL_INPUT {
      var ok := CopyBack(t, p, q, data, mem, ptr');
      if !ok {
        return Fail, p', ptr', left';
      }
      p' := p.(memref := p.memref.(size := q.memref.size));
    }
    return Success, p', ptr' + cSize, left' - cSize;
  }

  /** One turn of the decoder's loop; `ptr` is null when there is no shared buffer. */
  method DecodeOne(t: nat, p: Param, q: Param, data: array<byte>, mem: array<byte>, ptr: nat, sizeLeft: nat)
    returns (r: Code, p': Param, ptr': nat, left': nat)
    requires ParamOk(t, p) && Writable(t, p, mem.Length) && mem != data
    requires ptr + sizeLeft == data.Length <= PARAM_SIZE_LIMIT
    modifies mem
    ensures data.Length == 0 ==> (r.Success? <==> !IsPartial(t)) && mem[..] == old(mem[..]) && ptr' + left' == 0
    ensures data.Length > 0 ==> (r.Success? <==> RegionSize(t, p) <= sizeLeft)
    ensures r.Success? ==> p' == Result(data.Length == 0, t, p, q)
    ensures data.Length > 0 && r.Success? ==> ptr' == ptr + RegionSize(t, p) && ptr' + left' == data.Length
    ensures data.Length > 0 && r.Success? ==> mem[..] == OneCopied(t, p, q, data[..], ptr, old(mem[..]))
  {
    r, p', ptr', left' := Success, p, ptr, sizeLeft;
    if IsTemp(t) {
      if data.Length != 0 {
        r, p', ptr', left' := DecodeTempMem(t, p, q, data, mem, ptr, sizeLeft);
      }
    } else if IsPartial(t) {
      if data.Length == 0 {
        r := BadParameters;
      } else {
        r, p', ptr', left' := DecodePartialMem(t, p, q, data, mem, ptr, sizeLeft);
      }
    } else if IsValue(t) {
      p' := p.(value := q.value);
    }
  }

  /** The walk stands in front of parameter `i`, having copied back the earlier ones. */
  ghost predicate WalkedTo(op: Operation, back: Params, i: nat, data: seq<byte>, mem: seq<byte>, ptr: nat, now: seq<byte>) {
    i <= PARAM_NUM && ptr == Offset(op, i) <= |data| && AllWritable(op, |mem|) &&
    now == MemAfter(op, back, i, data, mem)
  }

  lemma WalkStep(op: Operation, back: Params, i: nat, data: seq<byte>, mem: seq<byte>, ptr: nat, now: seq<byte>, now': seq<byte>)
    requires i < PARAM_NUM && WalkedTo(op, back, i, data, mem, ptr, now) && Offset(op, i + 1) <= |data|
    requires now' == OneCopied(Kind(op, i), op.params[i], back[i], data, ptr, now)
    ensures WalkedTo(op, back, i + 1, data, mem, Offset(op, i + 1), now')
  {
  }

  /** Where the walk stands, with a shared buffer or without one. */
  ghost predicate Walking(op: Operation, back: Params, i: nat, data: seq<byte>, mem: seq<byte>, ptr: nat, left: nat, now: seq<byte>) {
    && ptr + left == |data|
    && (if |data| == 0 then now == mem else WalkedTo(op, back, i, data, mem, ptr, now))
  }

  method DecodeTurn(op: Operation, back: Params, i: nat, data: array<byte>, mem: array<byte>, ghost was: seq<byte>, ptr: nat, sizeLeft: nat)
    returns (r: Code, p': Param, ptr': nat, left': nat)
    requires i < PARAM_NUM && ClientAccepts(op) && data.Length <= PARAM_SIZE_LIMIT
    requires AllWritable(op, mem.Length) && mem != data
    requires Walking(op, back, i, data[..], was, ptr, sizeLeft, mem[..])
    modifies mem
    ensures data.Length == 0 ==> (r.Success? <==> !IsPartial(Kind(op, i))) && mem[..] == was
    ensures data.Length > 0 ==> (r.Success? <==> Offset(op, i + 1) <= data.Length)
    ensures r.Success? ==> Walking(op, back, i + 1, data[..], was, ptr', left', mem[..])
    ensures r.Success? ==> p' == Result(data.Length == 0, Kind(op, i), op.params[i], back[i])
  {
    assert ParamOk(Kind(op, i), op.params[i]) && Writable(Kind(op, i), op.params[i], mem.Length);
    ghost var now := mem[..];
    r, p', ptr', left' := DecodeOne(Kind(op, i), op.params[i], back[i], data, mem, ptr, sizeLeft);
    if data.Length > 0 && r.Success? {
      WalkStep(op, back, i, data[..], was, ptr, now, mem[..]);
    }
  }

  /** The parameters in front of `i` are decoded, the others are still the caller's. */
  ghost predicate DecodedTo(op: Operation, back: Params, i: nat, empty: bool, params: seq<Param>) {
    && |params| == PARAM_NUM
    && forall j :: 0 <= j < PARAM_NUM ==>
         params[j] == if j < i then Result(empty, Kind(op, j), op.params[j], back[j]) else op.params[j]
  }

  /** Walks the reply with the sizes the request was encoded with. It succeeds whenever the shared buffer is as
      long as the request was, whatever sizes the reply reports: memory parameters get their bytes and sizes,
      values their values. */
  method TeecOptDecode(op: Operation, back: Params, data: array<byte>, mem: array<byte>, params: array<Param>)
    returns (r: Code)
    requires ClientAccepts(op) && data.Length <= PARAM_SIZE_LIMIT
    requires AllWritable(op, mem.Length) && mem != data
    requires params.Length == PARAM_NUM && forall j :: 0 <= j < PARAM_NUM ==> params[j] == op.params[j]
    modifies params, mem
    ensures data.Length == 0 ==> (r.Success? <==> forall i :: 0 <= i < PARAM_NUM ==> !IsPartial(Kind(op, i)))
    ensures data.Length == 0 ==> mem[..] == old(mem[..])
    ensures data.Length > 0 ==> (r.Success? <==> TotalSize(op) <= data.Length)
    ensures data.Length > 0 && r.Success? ==> mem[..] == MemAfter(op, back, PARAM_NUM, data[..], old(mem[..]))
    ensures r.Success? ==> forall i :: 0 <= i < PARAM_NUM ==>
      Reports(Kind(op, i), data.Length > 0, op.params[i], back[i], params[i])
  {
    ghost var m := mem[..];
    var ptr: nat, sizeLeft: nat := 0, data.Length;
    r := Success;
    for i := 0 to PARAM_NUM
      invariant r.Success? && DecodedTo(op, back, i, data.Length == 0, params[..])
      invariant data.Length == 0 ==> forall j :: 0 <= j < i ==> !IsPartial(Kind(op, j))
      invariant Walking(op, back, i, data[..], m, ptr, sizeLeft, mem[..])
    {
      OffsetMonotone(op, i, PARAM_NUM);
      var p';
      r, p', ptr, sizeLeft := DecodeTurn(op, back, i, data, mem, m, ptr, sizeLeft);
      if r != Success {
        return;
      }
      params[i] := p';
    }
    AllReported(op, back, data.Length == 0, params[..]);
  }

  // ---------------------------------------------------------------- what the caller sees

  /** What the caller finds in a parameter: values and, with a shared buffer, the sizes of written memory are those the
      trusted application reports; every other field is the caller's own. */
  predicate Reports(t: nat, shared: bool, p: Param, q: Param, r: Param) {
    var written := IsOut(t) || IsWhole(t);
    match ClassOf(t)
    case ByValue =>
      && r.value.a == q.value.a && r.value.b == q.value.b
      && r.tmpref == p.tmpref && r.memref == p.memref && r.ionref == p.ionref
    case Temporary =>
      && r.tmpref.size == (if shared && written then q.tmpref.size else p.tmpref.size) && r.tmpref.buffer == p.tmpref.buffer
      && r.value == p.value && r.memref == p.memref && r.ionref == p.ionref
    case Registered =>
      && (shared ==> r.memref.size == if written then q.memref.size else p.memref.size)
      && (shared ==> r.memref.parent == p.memref.parent && r.memref.offset == p.memref.offset)
      && (shared ==> r.value == p.value && r.tmpref == p.tmpref && r.ionref == p.ionref)
    case _ => r == p
  }

  lemma WrittenByBits(t: nat)
    requires t < 16
    ensures IsOutput(t) <==> (ClassOf(t) == Temporary || ClassOf(t) == Registered) && (IsOut(t) || IsWhole(t))
  {
  }

  lemma AllReported(op: Operation, back: Params, empty: bool, params: seq<Param>)
    requires DecodedTo(op, back, PARAM_NUM, empty, params)
    ensures forall i :: 0 <= i < PARAM_NUM ==> Reports(Kind(op, i), !empty, op.params[i], back[i], params[i])
  {
    forall i | 0 <= i < PARAM_NUM
      ensures Reports(Kind(op, i), !empty, op.params[i], back[i], params[i])
    {
      KindsByBits(Kind(op, i));
      WrittenByBits(Kind(op, i));
      assert params[i] == Result(empty, Kind(op, i), op.params[i], back[i]);
    }
  }

  /** Address `a` is in the window the decoder may write for parameter `i`. */
  predicate InWindow(op: Operation, i: nat, a: nat)
    requires i < PARAM_NUM
  {
    && Copied(Kind(op, i), op.params[i])
    && Destination(Kind(op, i), op.params[i]) <= a
       < Destination(Kind(op, i), op.params[i]) + ClientSize(Kind(op, i), op.params[i])
  }

  /** No byte belongs to two output windows. */
  ghost predicate DistinctWindows(op: Operation) {
    forall i, j, a :: 0 <= i < j < PARAM_NUM && InWindow(op, i, a) ==> !InWindow(op, j, a)
  }

  /** A byte outside the windows of parameters `i..k` is not written by them. */
  lemma {:induction false} Untouched(op: Operation, back: Params, i: nat, k: nat, data: seq<byte>, mem: seq<byte>, a: nat)
    requires i <= k <= PARAM_NUM && Offset(op, i) <= Offset(op, k) <= |data|
    requires AllWritable(op, |mem|) && a < |mem|
    requires forall j :: i <= j < k ==> !InWindow(op, j, a)
    ensures MemAfter(op, back, k, data, mem)[a] == MemAfter(op, back, i, data, mem)[a]
    decreases k
  {
    if i < k {
      if i < k - 1 {
        OffsetMonotone(op, i, k - 1);
      }
      Untouched(op, back, i, k - 1, data, mem, a);
      assert !InWindow(op, k - 1, a);
    }
  }

  /** What a parameter's own turn does to a byte of its window. */
  lemma OwnTurn(op: Operation, back: Params, data: seq<byte>, mem: seq<byte>, i: nat, a: nat)
    requires i < PARAM_NUM && Offset(op, i + 1) <= |data| && AllWritable(op, |mem|) && a < |mem| && InWindow(op, i, a)
    ensures var t, p := Kind(op, i), op.params[i];
      var k := a - Destination(t, p);
      var from := Offset(op, i) + PayloadStart(t) + k;
      from < |data| &&
      MemAfter(op, back, i + 1, data, mem)[a] ==
      if k < ReportedSize(t, back[i]) <= ClientSize(t, p) then data[from] else MemAfter(op, back, i, data, mem)[a]
  {
  }

  /** With distinct windows, each output's window ends up holding the reported prefix of its region and keeps its
      other bytes; a reported size above the caller's copies nothing; and no byte outside the windows changes. */
  lemma ReplyDelivers(op: Operation, back: Params, data: seq<byte>, mem: seq<byte>, i: nat, a: nat)
    requires i < PARAM_NUM && TotalSize(op) <= |data| && AllWritable(op, |mem|) && a < |mem|
    requires DistinctWindows(op) && InWindow(op, i, a)
    ensures var t, p := Kind(op, i), op.params[i];
      var k := a - Destination(t, p);
      var from := Offset(op, i) + PayloadStart(t) + k;
      from < |data| &&
      MemAfter(op, back, PARAM_NUM, data, mem)[a] ==
      if k < ReportedSize(t, back[i]) <= ClientSize(t, p) then data[from] else mem[a]
  {
    OffsetMonotone(op, i, PARAM_NUM);
    if i > 0 {
      OffsetMonotone(op, 0, i);
    }
    if i + 1 < PARAM_NUM {
      OffsetMonotone(op, i, PARAM_NUM);
    }
    Untouched(op, back, 0, i, data, mem, a);
    OwnTurn(op, back, data, mem, i, a);
    Untouched(op, back, i + 1, PARAM_NUM, data, mem, a);
  }

  lemma ReplyKeepsTheRest(op: Operation, back: Params, data: seq<byte>, mem: seq<byte>, a: nat)
    requires TotalSize(op) <= |data| && AllWritable(op, |mem|) && a < |mem|
    requires forall j :: 0 <= j < PARAM_NUM ==> !InWindow(op, j, a)
    ensures MemAfter(op, back, PARAM_NUM, data, mem)[a] == mem[a]
  {
    OffsetMonotone(op, 0, PARAM_NUM);
    Untouched(op, back, 0, PARAM_NUM, data, mem, a);
  }

  /** The reply lands in the bytes the request was read from, except for a whole reference with an offset. */
  lemma ReplyLandsWhereRequestRead(t: nat, p: Param)
    requires IsPartial(t) && p.memref.parent.Some?
    ensures Destination(t, p) == p.memref.parent.value.buffer + PayloadOffset(t, p.memref) <==>
            (t == WHOLE ==> p.memref.offset == 0)
  {
  }

  /** A four-byte registered block, referenced whole with offset 4: its results go to the bytes behind it. */
  lemma WholeOffsetMisplacesReply()
    ensures exists p: Param, q: Param ::
      && ParamOk(WHOLE, p) && CopyCount(WHOLE, p, q) == 4
      && Destination(WHOLE, p) == p.memref.parent.value.buffer + p.memref.parent.value.size
  {
    var p := Param(TempRef(0, 0), MemRef(Some(SharedMem(100, 4, MEM_INOUT, 1, false)), 4, 4), Value(0, 0), IonRef(0, 0));
    assert ParamOk(WHOLE, p) && CopyCount(WHOLE, p, p) == 4;
    assert Destination(WHOLE, p) == p.memref.parent.value.buffer + p.memref.parent.value.size;
  }

  // ---------------------------------------------------------------- in the caller's own terms

  /** The trusted application may write the parameter's memory, and its bytes come back in the shared buffer. */
  predicate ComesBack(t: nat, p: Param) {
    InBuffer(t, p) && (IsOut(t) || IsWhole(t)) && WindowStart(t, p) != 0
  }

  /** Where the bytes come back to: the memory referred to, but for a whole reference with an offset. */
  function BackTo(t: nat, p: Param): Addr {
    WindowStart(t, p) + if IsWhole(t) then p.memref.offset else 0
  }

  function Reported(t: nat, q: Param): u32 {
    if ClassOf(t) == Temporary then q.tmpref.size else q.memref.size
  }

  /** The bytes of an accepted operation's parameter that come back. */
  lemma WindowsExactly(op: Operation, i: nat, a: nat)
    requires ClientAccepts(op) && i < PARAM_NUM
    ensures var t, p := Kind(op, i), op.params[i];
      InWindow(op, i, a) <==> ComesBack(t, p) && BackTo(t, p) <= a < BackTo(t, p) + WindowSize(t, p)
  {
    var t, p := Kind(op, i), op.params[i];
    assert ParamOk(t, p);
    KindsByBits(t);
    WrittenByBits(t);
  }

  /** After the reply, byte `k` of memory that comes back is byte `k` of its region in the shared buffer if the reported
      size is above `k` and within the caller's; otherwise it is what it was. */
  lemma BytesComeBack(op: Operation, back: Params, data: seq<byte>, mem: seq<byte>, i: nat, k: nat)
    requires ClientAccepts(op) && i < PARAM_NUM && TotalSize(op) <= |data| && AllWritable(op, |mem|) && DistinctWindows(op)
    requires ComesBack(Kind(op, i), op.params[i]) && k < WindowSize(Kind(op, i), op.params[i])
    ensures var t, p := Kind(op, i), op.params[i];
      && BackTo(t, p) + k < |mem| && Offset(op, i) + Front(t) + k < |data|
      && MemAfter(op, back, PARAM_NUM, data, mem)[BackTo(t, p) + k] ==
         if k < Reported(t, back[i]) <= WindowSize(t, p) then data[Offset(op, i) + Front(t) + k] else mem[BackTo(t, p) + k]
  {
    var t, p := Kind(op, i), op.params[i];
    assert ParamOk(t, p) && Writable(t, p, |mem|);
    SameTerms(t, p, back[i]);
    WindowsExactly(op, i, BackTo(t, p) + k);
    ReplyDelivers(op, back, data, mem, i, BackTo(t, p) + k);
  }

  lemma SameTerms(t: nat, p: Param, q: Param)
    requires t < 16 && ParamOk(t, p) && ComesBack(t, p)
    ensures Copied(t, p) && Destination(t, p) == BackTo(t, p) && ClientSize(t, p) == WindowSize(t, p)
    ensures PayloadStart(t) == Front(t) && ReportedSize(t, q) == Reported(t, q)
  {
    KindsByBits(t);
    WrittenByBits(t);
  }
}
