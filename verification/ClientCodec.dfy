/** libteec: checking, sizing and encoding an operation into the buffer shared with cadaemon. */
module ClientCodec {
  import opened Words
  import opened Wrappers
  import opened Operations

  // One row of the client's table of mapped shared memory.
  datatype ShareMem = ShareMem(offset: u32, buffer: Addr, size: u32, fd: int)

  // ---------------------------------------------------------------- checking

  function CheckTmpRef(t: TempRef): (r: Code)
    ensures r.Success? <==> TempOk(t)
    ensures r.Success? || r.BadParameters?
  {
    if t.buffer == NULL && t.size != 0 then BadParameters
    else if t.buffer != NULL && t.size == 0 then BadParameters
    else Success
  }

  /** The client's test of a registered reference, in unbounded integers. */
  predicate MemRefOk(t: nat, m: MemRef) {
    && m.parent.Some? && m.parent.value.buffer != NULL
    && FlagsAllow(t, m.parent.value.flags)
    && (t != WHOLE ==> m.offset + m.size <= m.parent.value.size)
  }

  function CheckMemRef(m: MemRef, t: nat): (r: Code)
    requires IsPartial(t)
    ensures r.Success? <==> MemRefOk(t, m)
    ensures r.Success? || r.BadParameters?
  {
    if m.parent.None? || m.parent.value.buffer == NULL then BadParameters
    else
      var parent := m.parent.value;
      if t == PARTIAL_INPUT && !HasFlag(parent.flags, MEM_INPUT) then BadParameters
      else if t == PARTIAL_OUTPUT && !HasFlag(parent.flags, MEM_OUTPUT) then BadParameters
      else if t == PARTIAL_INOUT && !HasFlag(parent.flags, MEM_INPUT) then BadParameters
      else if t == PARTIAL_INOUT && !HasFlag(parent.flags, MEM_OUTPUT) then BadParameters
      else if t != WHOLE && (U32_MAX - m.offset < m.size || Wrap32(m.offset + m.size) > parent.size) then BadParameters
      else Success
  }

  predicate ParamOk(t: nat, p: Param) {
    if IsTemp(t) then TempOk(p.tmpref)
    else if IsPartial(t) then MemRefOk(t, p.memref)
    else IsValue(t) || t == NONE || t == ION_INPUT
  }

  predicate ClientAccepts(op: Operation) {
    op.started != 0 && forall i :: 0 <= i < PARAM_NUM ==> ParamOk(Kind(op, i), op.params[i])
  }

  method CheckOperation(op: Option<Operation>) returns (r: Code)
    ensures r.Success? <==> op.None? || ClientAccepts(op.value)
    ensures r.NotImplemented? <==> op.Some? && op.value.started == 0
    ensures !r.Fail?
  {
    r := Success;
    if op.None? {
      return;
    }
    if op.value.started == 0 {
      return NotImplemented;
    }
    for i := 0 to PARAM_NUM
      invariant r.Success?
      invariant forall j :: 0 <= j < i ==> ParamOk(Kind(op.value, j), op.value.params[j])
    {
      var t := Kind(op.value, i);
      if IsTemp(t) {
        r := CheckTmpRef(op.value.params[i].tmpref);
      } else if IsPartial(t) {
        r := CheckMemRef(op.value.params[i].memref, t);
      } else if !(IsValue(t) || t == NONE || t == ION_INPUT) {
        r := BadParameters;
      }
      if r != Success {
        assert !ParamOk(Kind(op.value, i), op.value.params[i]);
        return;
      }
    }
  }

  // ---------------------------------------------------------------- sizing

  predicate IsOverFlow(a: u32, b: u32) {
    U32_MAX - a < b
  }

  /** A whole reference is sized through its parent, which the preceding check found present. */
  predicate Sizable(op: Operation) {
    forall i :: 0 <= i < PARAM_NUM && Kind(op, i) == WHOLE ==> op.params[i].memref.parent.Some?
  }

  method GetPartialMemSize(t: nat, m: MemRef, optMemSize: nat) returns (r: Code, cSize: u32)
    requires IsPartial(t) && (t == WHOLE ==> m.parent.Some?) && optMemSize <= U32_MAX
    ensures r.Success? <==> optMemSize + HEADER_SIZE + PayloadSize(t, m) <= U32_MAX
    ensures r.Success? ==> cSize == HEADER_SIZE + PayloadSize(t, m)
    ensures r.Success? || r.BadParameters?
  {
    cSize := m.size;
    if t == WHOLE {
      cSize := m.parent.value.size;
    }
    if IsOverFlow(cSize, HEADER_SIZE) {
      return BadParameters, cSize;
    }
    cSize := cSize + HEADER_SIZE;
    if IsOverFlow(Wrap32(optMemSize), cSize) {
      return BadParameters, cSize;
    }
    return Success, cSize;
  }

  /** The 32-bit guards lose nothing: the size is the exact sum, or the operation is refused as too large. */
  method GetOptMemSize(op: Option<Operation>) returns (r: Code, memSize: nat)
    requires op.Some? ==> Sizable(op.value)
    ensures op.None? ==> r.Success? && memSize == 0
    ensures op.Some? ==> (r.Success? <==> TotalSize(op.value) <= PARAM_SIZE_LIMIT)
    ensures op.Some? && r.Success? ==> memSize == TotalSize(op.value)
    ensures r.Success? || r.BadParameters?
  {
    r, memSize := Success, 0;
    if op.None? {
      return;
    }
    var o := op.value;
    for i := 0 to PARAM_NUM
      invariant r.Success?
      invariant memSize == Offset(o, i) <= U32_MAX
    {
      var cSize: u32 := 0;
      if IsTemp(Kind(o, i)) {
        cSize := o.params[i].tmpref.size;
        r := if IsOverFlow(Wrap32(memSize), cSize) then BadParameters else Success;
      } else if IsPartial(Kind(o, i)) {
        r, cSize := GetPartialMemSize(Kind(o, i), o.params[i].memref, memSize);
      }
      if r != Success {
        OffsetMonotone(o, i, PARAM_NUM);
        return;
      }
      memSize := memSize + cSize;
    }
    if memSize > PARAM_SIZE_LIMIT {
      r := BadParameters;
    }
  }

  // ---------------------------------------------------------------- encoding

  /** First table row with this buffer, or UINT32_MAX. */
  function LookupOffset(table: seq<ShareMem>, buffer: Addr): (o: u32)
    ensures (exists k :: 0 <= k < |table| && table[k].buffer == buffer && table[k].offset == o) ||
            (o == U32_MAX && forall k :: 0 <= k < |table| ==> table[k].buffer != buffer)
  {
    if table == [] then U32_MAX
    else if table[0].buffer == buffer then table[0].offset
    else
      var o := LookupOffset(table[1..], buffer);
      assert forall k :: 1 <= k < |table| ==> table[k] == table[1..][k - 1];
      o
  }

  method FindShareMemOffset(table: seq<ShareMem>, buffer: Addr) returns (o: u32)
    ensures o == LookupOffset(table, buffer)
  {
    for k := 0 to |table|
      invariant LookupOffset(table, buffer) == LookupOffset(table[k..], buffer)
    {
      if table[k].buffer == buffer {
        return table[k].offset;
      }
      assert table[k..][1..] == table[k + 1..];
    }
    return U32_MAX;
  }

  /** The 17 bytes in front of a registered reference's payload. */
  function Header(shm: SharedMem, tableOffset: u32): (h: seq<byte>)
    ensures |h| == HEADER_SIZE
  {
    [if shm.isAllocated then 1 else 0] + Le32(shm.flags) + Le32(shm.opsCnt) + Le32(tableOffset) + Le32(shm.size)
  }

  /** The client memory an operation lets the encoder read lies inside the address space. */
  predicate ParamMapped(t: nat, p: Param, memLen: nat) {
    && (IsTemp(t) ==> p.tmpref.buffer + p.tmpref.size <= memLen)
    && (IsPartial(t) && p.memref.parent.Some? && !p.memref.parent.value.isAllocated ==>
          p.memref.parent.value.buffer + PayloadOffset(t, p.memref) + PayloadSize(t, p.memref) <= memLen)
  }

  predicate Mapped(op: Operation, memLen: nat) {
    forall i :: 0 <= i < PARAM_NUM ==> ParamMapped(Kind(op, i), op.params[i], memLen)
  }

  /** The client bytes a memory parameter denotes. */
  function ClientBytes(t: nat, p: Param, mem: seq<byte>): seq<byte>
    requires IsTemp(t) || (IsPartial(t) && p.memref.parent.Some? && !p.memref.parent.value.isAllocated)
    requires ParamMapped(t, p, |mem|)
  {
    if IsTemp(t) then mem[p.tmpref.buffer..p.tmpref.buffer + p.tmpref.size]
    else
      var start := p.memref.parent.value.buffer + PayloadOffset(t, p.memref);
      mem[start..start + PayloadSize(t, p.memref)]
  }

  /** The region of `buf` that starts at `off` holds parameter `p`. */
  predicate RegionCarries(buf: seq<byte>, off: nat, t: nat, p: Param, table: seq<ShareMem>, mem: seq<byte>)
    requires ParamMapped(t, p, |mem|)
  {
    && off + RegionSize(t, p) <= |buf|
    && (IsTemp(t) ==> buf[off..off + p.tmpref.size] == ClientBytes(t, p, mem))
    && (IsPartial(t) ==>
          && p.memref.parent.Some?
          && buf[off..off + HEADER_SIZE] ==
             Header(p.memref.parent.value, LookupOffset(table, p.memref.parent.value.buffer))
          && (!p.memref.parent.value.isAllocated ==>
                buf[off + HEADER_SIZE..off + RegionSize(t, p)] == ClientBytes(t, p, mem)))
  }

  /** The shared buffer holds every parameter of the operation, each in its own region. */
  predicate Carries(buf: seq<byte>, op: Operation, table: seq<ShareMem>, mem: seq<byte>)
    requires Mapped(op, |mem|)
  {
    forall i :: 0 <= i < PARAM_NUM ==>
      RegionCarries(buf, Offset(op, i), Kind(op, i), op.params[i], table, mem)
  }

  lemma SplicedTwice(s: seq<byte>, s': seq<byte>, s'': seq<byte>, off: nat, a: seq<byte>, b: seq<byte>)
    requires Spliced(s, s', off, a) && Spliced(s', s'', off + |a|, b)
    ensures Spliced(s, s'', off, a + b)
  {
  }

  /** Ashmem's bounded write. */
  method WriteToAshmem(ash: array<byte>, data: seq<byte>, off: nat) returns (ok: bool)
    modifies ash
    ensures ok <==> off + |data| <= ash.Length
    ensures ok ==> Spliced(old(ash[..]), ash[..], off, data)
    ensures !ok ==> ash[..] == old(ash[..])
  {
    ok := off + |data| <= ash.Length;
    if ok {
      for k := 0 to |data|
        invariant forall j :: 0 <= j < k ==> ash[off + j] == data[j]
        invariant forall j :: 0 <= j < ash.Length && !(off <= j < off + k) ==> ash[j] == old(ash[j])
      {
        ash[off + k] := data[k];
      }
    }
  }

  /** Both buffers agree outside `lo..hi`. */
  ghost predicate SameOutside(a: seq<byte>, b: seq<byte>, lo: nat, hi: nat) {
    |a| == |b| && forall k :: 0 <= k < |a| && !(lo <= k < hi) ==> a[k] == b[k]
  }

  lemma CarriesKept(a: seq<byte>, b: seq<byte>, lo: nat, hi: nat, off: nat, t: nat, p: Param,
                    table: seq<ShareMem>, mem: seq<byte>)
    requires SameOutside(a, b, lo, hi)
    requires ParamMapped(t, p, |mem|)
    requires RegionCarries(a, off, t, p, table, mem) && off + RegionSize(t, p) <= lo
    ensures RegionCarries(b, off, t, p, table, mem)
  {
    assert a[off..off + RegionSize(t, p)] == b[off..off + RegionSize(t, p)];
    if IsPartial(t) {
      var n := RegionSize(t, p);
      assert a[off..off + HEADER_SIZE] == a[off..off + n][..HEADER_SIZE];
      assert b[off..off + HEADER_SIZE] == b[off..off + n][..HEADER_SIZE];
      assert a[off + HEADER_SIZE..off + n] == a[off..off + n][HEADER_SIZE..];
      assert b[off + HEADER_SIZE..off + n] == b[off..off + n][HEADER_SIZE..];
    }
  }

  /** What follows a header: an allocated block is named by the header, not copied. */
  function PayloadBytes(t: nat, p: Param, mem: seq<byte>): seq<byte>
    requires IsPartial(t) && p.memref.parent.Some? && ParamMapped(t, p, |mem|)
  {
    if p.memref.parent.value.isAllocated then [] else ClientBytes(t, p, mem)
  }

  /** What the encoder writes for a parameter. */
  function RegionBytes(t: nat, p: Param, table: seq<ShareMem>, mem: seq<byte>): seq<byte>
    requires IsTemp(t) || (IsPartial(t) && p.memref.parent.Some?)
    requires ParamMapped(t, p, |mem|)
  {
    if IsTemp(t) then ClientBytes(t, p, mem)
    else
      var shm := p.memref.parent.value;
      Header(shm, LookupOffset(table, shm.buffer)) + PayloadBytes(t, p, mem)
  }

  lemma CarriesSpliced(s: seq<byte>, s': seq<byte>, off: nat, t: nat, p: Param, table: seq<ShareMem>, mem: seq<byte>)
    requires IsTemp(t) || (IsPartial(t) && p.memref.parent.Some?)
    requires ParamMapped(t, p, |mem|) && off + RegionSize(t, p) <= |s|
    requires Spliced(s, s', off, RegionBytes(t, p, table, mem))
    ensures RegionCarries(s', off, t, p, table, mem)
    ensures SameOutside(s, s', off, off + RegionSize(t, p))
  {
    var region := RegionBytes(t, p, table, mem);
    assert s'[off..off + |region|] == region;
    if IsPartial(t) {
      assert s'[off..off + HEADER_SIZE] == region[..HEADER_SIZE];
      assert s'[off + HEADER_SIZE..off + |region|] == region[HEADER_SIZE..];
    }
  }

  method EncodeTempMem(t: nat, p: Param, mem: array<byte>, ash: array<byte>, dataSize: nat)
    returns (r: Code, left: nat)
    requires IsTemp(t) && ParamMapped(t, p, mem.Length) && mem != ash && dataSize <= ash.Length
    modifies ash
    ensures r.Success? <==> p.tmpref.size <= dataSize
    ensures r.Success? || r.Fail?
    ensures r.Fail? || p.tmpref.buffer == NULL ==> ash[..] == old(ash[..])
    ensures r.Success? ==> left == dataSize - if p.tmpref.buffer == NULL then 0 else p.tmpref.size
    ensures r.Success? && p.tmpref.buffer != NULL ==>
      Spliced(old(ash[..]), ash[..], ash.Length - dataSize, RegionBytes(t, p, [], mem[..]))
  {
    left := dataSize;
    if dataSize < p.tmpref.size {
      return Fail, left;
    }
    if p.tmpref.buffer == NULL {
      return Success, left;
    }
    var ok := WriteToAshmem(ash, mem[p.tmpref.buffer..p.tmpref.buffer + p.tmpref.size], ash.Length - dataSize);
    left := left - p.tmpref.size;
    assert RegionBytes(t, p, [], mem[..]) == mem[p.tmpref.buffer..p.tmpref.buffer + p.tmpref.size];
    return Success, left;
  }

  /** One field at the cursor, behind the fields `done` that start at `off`. */
  method WriteField(ash: array<byte>, data: seq<byte>, sizeLeft: nat, ghost was: seq<byte>, ghost off: nat, ghost done: seq<byte>)
    returns (ok: bool, left: nat)
    requires |data| <= sizeLeft <= ash.Length && off + |done| == ash.Length - sizeLeft && Spliced(was, ash[..], off, done)
    modifies ash
    ensures ok && left == sizeLeft - |data| && Spliced(was, ash[..], off, done + data)
  {
    ghost var s := ash[..];
    ok := WriteToAshmem(ash, data, ash.Length - sizeLeft);
    SplicedTwice(was, s, ash[..], off, done, data);
    left := sizeLeft - |data|;
  }

  /** Writes the header field by field, moving the cursor after each. */
  method CovertEncodePtr(shm: SharedMem, table: seq<ShareMem>, ash: array<byte>, sizeLeft: nat)
    returns (ok: bool, left: nat)
    requires HEADER_SIZE <= sizeLeft <= ash.Length
    modifies ash
    ensures ok && left == sizeLeft - HEADER_SIZE
    ensures Spliced(old(ash[..]), ash[..], ash.Length - sizeLeft, Header(shm, LookupOffset(table, shm.buffer)))
  {
    ghost var off, was := ash.Length - sizeLeft, ash[..];
    var flag := [if shm.isAllocated then 1 else 0];
    ok, left := WriteField(ash, flag, sizeLeft, was, off, []);
    ghost var done := [] + flag;
    ok, left := WriteField(ash, Le32(shm.flags), left, was, off, done);
    done := done + Le32(shm.flags);
    ok, left := WriteField(ash, Le32(shm.opsCnt), left, was, off, done);
    done := done + Le32(shm.opsCnt);
    var shmOffset := FindShareMemOffset(table, shm.buffer);
    ok, left := WriteField(ash, Le32(shmOffset), left, was, off, done);
    done := done + Le32(shmOffset);
    ok, left := WriteField(ash, Le32(shm.size), left, was, off, done);
    assert [] + flag == flag;
  }

  /** Copies the window of a block that is not allocated; zero bytes, or a full buffer, leave it alone. */
  method EncodePayload(t: nat, p: Param, mem: array<byte>, ash: array<byte>, rest: nat) returns (ok: bool, left: nat)
    requires IsPartial(t) && p.memref.parent.Some? && ParamMapped(t, p, mem.Length)
    requires rest <= ash.Length && mem != ash
    modifies ash
    ensures ok <==> PayloadSize(t, p.memref) <= rest
    ensures ok ==> left == rest - PayloadSize(t, p.memref)
    ensures ok ==> Spliced(old(ash[..]), ash[..], ash.Length - rest, PayloadBytes(t, p, mem[..]))
  {
    var shm := p.memref.parent.value;
    left := rest;
    var cSize := if t == WHOLE then shm.size else p.memref.size;
    if rest < cSize {
      return false, left;
    }
    if !shm.isAllocated {
      var start := shm.buffer + if t != WHOLE then p.memref.offset else 0;
      assert PayloadBytes(t, p, mem[..]) == mem[start..start + cSize];
      if rest != 0 && cSize != 0 {
        var ok := WriteToAshmem(ash, mem[start..start + cSize], ash.Length - rest);
      }
    }
    return true, rest - cSize;
  }

  /** The same behind the bytes `done` that start at `off`. */
  method EncodeBehind(t: nat, p: Param, mem: array<byte>, ash: array<byte>, rest: nat, ghost was: seq<byte>, ghost off: nat, ghost done: seq<byte>)
    returns (ok: bool, left: nat)
    requires IsPartial(t) && p.memref.parent.Some? && ParamMapped(t, p, mem.Length)
    requires rest <= ash.Length && mem != ash && off + |done| == ash.Length - rest && Spliced(was, ash[..], off, done)
    modifies ash
    ensures ok <==> PayloadSize(t, p.memref) <= rest
    ensures ok ==> left == rest - PayloadSize(t, p.memref)
    ensures ok ==> Spliced(was, ash[..], off, done + PayloadBytes(t, p, mem[..]))
  {
    ghost var s := ash[..];
    ok, left := EncodePayload(t, p, mem, ash, rest);
    if ok {
      SplicedTwice(was, s, ash[..], off, done, PayloadBytes(t, p, mem[..]));
    }
  }

  method EncodePartialMem(t: nat, p: Param, table: seq<ShareMem>, mem: array<byte>, ash: array<byte>, dataSize: nat)
    returns (r: Code, left: nat)
    requires IsPartial(t) && ParamMapped(t, p, mem.Length) && mem != ash && dataSize <= ash.Length
    modifies ash
    ensures r.BadParameters? <==> p.memref.parent.None? || p.memref.parent.value.buffer == NULL
    ensures !r.BadParameters? ==> (r.Success? <==> RegionSize(t, p) <= dataSize)
    ensures !r.NotImplemented?
    ensures r.Success? ==> left == dataSize - RegionSize(t, p)
    ensures r.Success? ==>
      Spliced(old(ash[..]), ash[..], ash.Length - dataSize, RegionBytes(t, p, table, mem[..]))
  {
    left := dataSize;
    if p.memref.parent.None? || p.memref.parent.value.buffer == NULL {
      return BadParameters, left;
    }
    var shm := p.memref.parent.value;
    if dataSize < HEADER_SIZE {
      return Fail, left;
    }
    ghost var was, header := ash[..], Header(shm, LookupOffset(table, shm.buffer));
    var ok, rest := CovertEncodePtr(shm, table, ash, dataSize);
    var fits, after := EncodeBehind(t, p, mem, ash, rest, was, ash.Length - dataSize, header);
    if !fits {
      return Fail, left;
    }
    return Success, after;
  }

  /** One turn of the encoder's loop. */
  method EncodeParam(t: nat, p: Param, table: seq<ShareMem>, mem: array<byte>, ash: array<byte>, dataSize: nat)
    returns (r: Code, left: nat)
    requires ParamOk(t, p) && ParamMapped(t, p, mem.Length) && mem != ash && dataSize <= ash.Length
    modifies ash
    ensures r.Success? <==> RegionSize(t, p) <= dataSize
    ensures r.Success? || r.Fail?
    ensures r.Success? ==> left == dataSize - RegionSize(t, p)
    ensures r.Success? ==> RegionCarries(ash[..], ash.Length - dataSize, t, p, table, mem[..])
    ensures r.Success? ==> SameOutside(old(ash[..]), ash[..], ash.Length - dataSize, ash.Length - left)
  {
    r, left := Success, dataSize;
    ghost var before := ash[..];
    if IsTemp(t) {
      r, left := EncodeTempMem(t, p, mem, ash, dataSize);
      if r.Success? {
        CarriesSpliced(before, ash[..], ash.Length - dataSize, t, p, table, mem[..]);
      }
    } else if IsPartial(t) {
      r, left := EncodePartialMem(t, p, table, mem, ash, dataSize);
      if r.Success? {
        CarriesSpliced(before, ash[..], ash.Length - dataSize, t, p, table, mem[..]);
      }
    }
  }

  ghost predicate CarriesUpTo(buf: seq<byte>, op: Operation, n: nat, table: seq<ShareMem>, mem: seq<byte>)
    requires Mapped(op, |mem|) && n <= PARAM_NUM
  {
    forall j :: 0 <= j < n ==> RegionCarries(buf, Offset(op, j), Kind(op, j), op.params[j], table, mem)
  }

  lemma CarriesOneMore(a: seq<byte>, b: seq<byte>, op: Operation, i: nat, table: seq<ShareMem>, mem: seq<byte>)
    requires Mapped(op, |mem|) && i < PARAM_NUM && CarriesUpTo(a, op, i, table, mem)
    requires SameOutside(a, b, Offset(op, i), Offset(op, i + 1))
    requires RegionCarries(b, Offset(op, i), Kind(op, i), op.params[i], table, mem)
    ensures CarriesUpTo(b, op, i + 1, table, mem)
  {
    forall j | 0 <= j < i
      ensures RegionCarries(b, Offset(op, j), Kind(op, j), op.params[j], table, mem)
    {
      OffsetMonotone(op, j, i);
      CarriesKept(a, b, Offset(op, i), Offset(op, i + 1), Offset(op, j), Kind(op, j), op.params[j], table, mem);
    }
  }

  /** The first `n` parameters are in their regions, and nothing else of the buffer has changed. */
  ghost predicate EncodedTo(op: Operation, n: nat, was: seq<byte>, buf: seq<byte>, table: seq<ShareMem>, mem: seq<byte>)
    requires Mapped(op, |mem|) && n <= PARAM_NUM
  {
    Offset(op, n) <= |buf| && CarriesUpTo(buf, op, n, table, mem) && SameOutside(was, buf, 0, Offset(op, n))
  }

  lemma EncodedOneMore(op: Operation, i: nat, was: seq<byte>, a: seq<byte>, b: seq<byte>, table: seq<ShareMem>, mem: seq<byte>)
    requires Mapped(op, |mem|) && i < PARAM_NUM && EncodedTo(op, i, was, a, table, mem)
    requires Offset(op, i + 1) <= |b| && SameOutside(a, b, Offset(op, i), Offset(op, i + 1))
    requires RegionCarries(b, Offset(op, i), Kind(op, i), op.params[i], table, mem)
    ensures EncodedTo(op, i + 1, was, b, table, mem)
  {
    CarriesOneMore(a, b, op, i, table, mem);
  }

  /** One turn of the loop, at the cursor. */
  method EncodeTurn(op: Operation, i: nat, table: seq<ShareMem>, mem: array<byte>, ash: array<byte>, dataSize: nat, ghost was: seq<byte>)
    returns (r: Code, left: nat)
    requires ClientAccepts(op) && Mapped(op, mem.Length) && mem != ash && i < PARAM_NUM
    requires EncodedTo(op, i, was, ash[..], table, mem[..]) && dataSize == ash.Length - Offset(op, i)
    modifies ash
    ensures r.Success? <==> Offset(op, i + 1) <= ash.Length
    ensures r.Success? || r.Fail?
    ensures r.Success? ==> EncodedTo(op, i + 1, was, ash[..], table, mem[..]) && left == ash.Length - Offset(op, i + 1)
  {
    ghost var before := ash[..];
    assert ParamOk(Kind(op, i), op.params[i]);
    r, left := EncodeParam(Kind(op, i), op.params[i], table, mem, ash, dataSize);
    if r.Success? {
      EncodedOneMore(op, i, was, before, ash[..], table, mem[..]);
    }
  }

  /** Encodes a checked operation; it fits exactly when the exact size does, and then the buffer carries it. */
  method TeecOptEncode(op: Operation, table: seq<ShareMem>, mem: array<byte>, ash: array<byte>)
    returns (r: Code, left: nat)
    requires ClientAccepts(op) && Mapped(op, mem.Length) && mem != ash
    modifies ash
    ensures r.Success? <==> TotalSize(op) <= ash.Length
    ensures r.Success? || r.Fail?
    ensures r.Success? ==> left == ash.Length - TotalSize(op)
    ensures r.Success? ==> Carries(ash[..], op, table, mem[..])
    ensures r.Success? ==> SameOutside(old(ash[..]), ash[..], 0, TotalSize(op))
  {
    r, left := Success, ash.Length;
    ghost var was := ash[..];
    for i := 0 to PARAM_NUM
      invariant r.Success? && EncodedTo(op, i, was, ash[..], table, mem[..]) && left == ash.Length - Offset(op, i)
    {
      OffsetMonotone(op, i, PARAM_NUM);
      r, left := EncodeTurn(op, i, table, mem, ash, left, was);
      if r != Success {
        return;
      }
    }
  }
}
