/** What crosses from libteec to cadaemon: the two cursors agree, and every parameter keeps its meaning. */
module RequestRoundTrip {
  import opened Words
  import opened Wrappers
  import opened Operations
  import opened ClientCodec
  import opened DaemonCodec
  import opened VendorCheck
  import opened Meaning

  /** The daemon lists the block that the client's table names for this allocated parent. */
  predicate Resolvable(t: nat, p: Param, table: seq<ShareMem>, list: seq<ShmInner>) {
    IsPartial(t) && p.memref.parent.Some? && p.memref.parent.value.isAllocated ==>
      var k := FindByOffset(list, LookupOffset(table, p.memref.parent.value.buffer));
      k.Some? && list[k.value].buffer != NULL
  }

  /** `n` bytes at daemon address `a`, when the shared buffer is mapped at `base`. */
  predicate DaemonReads(buf: seq<byte>, base: Addr, a: Addr, n: nat, bytes: seq<byte>) {
    base <= a && a - base + n <= |buf| && buf[a - base..a - base + n] == bytes
  }

  /** The daemon's parameter denotes what the client's did. */
  predicate Preserved(t: nat, p: Param, q: Param, inner: Option<nat>, buf: seq<byte>, base: Addr,
                      table: seq<ShareMem>, list: seq<ShmInner>, mem: seq<byte>)
    requires ParamMapped(t, p, |mem|)
  {
    if IsTemp(t) then
      && q.tmpref.size == p.tmpref.size && q == p.(tmpref := q.tmpref) && inner.None?
      && (if p.tmpref.size == 0 then q.tmpref.buffer == NULL
          else DaemonReads(buf, base, q.tmpref.buffer, p.tmpref.size, ClientBytes(t, p, mem)))
    else if IsPartial(t) then
      && p.memref.parent.Some? && q.memref.parent.Some?
      && q == p.(memref := q.memref) && q.memref.size == p.memref.size
      && var shm, shm' := p.memref.parent.value, q.memref.parent.value;
      && shm' == shm.(buffer := shm'.buffer) && shm'.buffer != NULL
      && PayloadSize(t, q.memref) == PayloadSize(t, p.memref)
      && (if shm.isAllocated then
            && inner == FindByOffset(list, LookupOffset(table, shm.buffer)) && inner.Some?
            && shm'.buffer == list[inner.value].buffer
            && q.memref.offset == p.memref.offset
          else
            && inner.None? && q.memref.offset == 0
            && DaemonReads(buf, base, shm'.buffer, PayloadSize(t, p.memref), ClientBytes(t, p, mem)))
    else q == p && inner.None?
  }

  lemma SubSlice(s: seq<byte>, off: nat, n: nat, a: nat, b: nat)
    requires off + n <= |s| && a <= b <= n
    ensures s[off + a..off + b] == s[off..off + n][a..b]
  {
    var whole := s[off..off + n];
    assert forall k :: a <= k < b ==> whole[k] == s[off + k];
  }

  lemma HeaderRoundTrip(buf: seq<byte>, off: nat, shm: SharedMem, tableOffset: u32)
    requires off + HEADER_SIZE <= |buf| && buf[off..off + HEADER_SIZE] == Header(shm, tableOffset)
    ensures ReadHeader(buf, off) == (shm.(buffer := NULL), tableOffset)
  {
    var h := Header(shm, tableOffset);
    assert buf[off] == h[0];
    SubSlice(buf, off, HEADER_SIZE, 1, 5);
    assert h[1..5] == Le32(shm.flags);
    SubSlice(buf, off, HEADER_SIZE, 5, 9);
    assert h[5..9] == Le32(shm.opsCnt);
    SubSlice(buf, off, HEADER_SIZE, 9, 13);
    assert h[9..13] == Le32(tableOffset);
    SubSlice(buf, off, HEADER_SIZE, 13, 17);
    assert h[13..17] == Le32(shm.size);
    Le32RoundTrip(shm.flags);
    Le32RoundTrip(shm.opsCnt);
    Le32RoundTrip(tableOffset);
    Le32RoundTrip(shm.size);
  }

  /** One region: the daemon's cursor stops where the encoder's did. */
  lemma RegionRoundTrip(t: nat, p: Param, buf: seq<byte>, off: nat, base: Addr,
                        table: seq<ShareMem>, list: seq<ShmInner>, mem: seq<byte>)
    requires ParamOk(t, p) && ParamMapped(t, p, |mem|) && base != NULL
    requires RegionCarries(buf, off, t, p, table, mem)
    ensures var r := DecodeParam(t, p, buf, base, list, off);
      if Resolvable(t, p, table, list)
      then r.Ok? && r.value.off == off + RegionSize(t, p) &&
           Preserved(t, p, r.value.param, r.value.inner, buf, base, table, list, mem)
      else r == Err(BadParameters)
  {
    if IsPartial(t) {
      PartialRoundTrip(t, p, buf, off, base, table, list, mem);
    }
  }

  lemma PartialRoundTrip(t: nat, p: Param, buf: seq<byte>, off: nat, base: Addr,
                         table: seq<ShareMem>, list: seq<ShmInner>, mem: seq<byte>)
    requires ParamOk(t, p) && ParamMapped(t, p, |mem|) && base != NULL && IsPartial(t)
    requires RegionCarries(buf, off, t, p, table, mem)
    ensures var r := DecodeParam(t, p, buf, base, list, off);
      if Resolvable(t, p, table, list)
      then r.Ok? && r.value.off == off + RegionSize(t, p) &&
           Preserved(t, p, r.value.param, r.value.inner, buf, base, table, list, mem)
      else r == Err(BadParameters)
  {
    var shm := p.memref.parent.value;
    HeaderRoundTrip(buf, off, shm, LookupOffset(table, shm.buffer));
  }

  predicate AllResolvable(op: Operation, n: nat, table: seq<ShareMem>, list: seq<ShmInner>)
    requires n <= PARAM_NUM
  {
    forall j :: 0 <= j < n ==> Resolvable(Kind(op, j), op.params[j], table, list)
  }

  lemma RegionCursor(op: Operation, k: nat, buf: seq<byte>, base: Addr,
                     table: seq<ShareMem>, list: seq<ShmInner>, mem: seq<byte>)
    requires k < PARAM_NUM && base != NULL
    requires ClientAccepts(op) && Mapped(op, |mem|) && Carries(buf, op, table, mem)
    ensures Offset(op, k) <= |buf|
    ensures var r := DecodeParam(Kind(op, k), op.params[k], buf, base, list, Offset(op, k));
      if Resolvable(Kind(op, k), op.params[k], table, list) then r.Ok? && r.value.off == Offset(op, k + 1)
      else r == Err(BadParameters)
  {
    assert ParamOk(Kind(op, k), op.params[k]);
    RegionRoundTrip(Kind(op, k), op.params[k], buf, Offset(op, k), base, table, list, mem);
  }

  /** The daemon's cursor walks the encoder's region boundaries, up to the first block it cannot resolve. */
  lemma {:induction false} CursorIsOffset(op: Operation, i: nat, buf: seq<byte>, base: Addr,
                                          table: seq<ShareMem>, list: seq<ShmInner>, mem: seq<byte>)
    requires i <= PARAM_NUM && base != NULL
    requires ClientAccepts(op) && Mapped(op, |mem|) && Carries(buf, op, table, mem)
    ensures Cursor(op, i, buf, base, list) ==
            if AllResolvable(op, i, table, list) then Ok(Offset(op, i)) else Err(BadParameters)
  {
    if i > 0 {
      var k := i - 1;
      CursorIsOffset(op, k, buf, base, table, list, mem);
      assert AllResolvable(op, i, table, list) <==>
             AllResolvable(op, k, table, list) && Resolvable(Kind(op, k), op.params[k], table, list);
      RegionCursor(op, k, buf, base, table, list, mem);
    }
  }

  /** Decoding what was encoded consumes exactly the encoded bytes, exactly when every allocated block is one
      the daemon lists, and refuses the request otherwise; each parameter it yields means what the client meant. */
  lemma RequestRoundTrip(op: Operation, buf: seq<byte>, base: Addr,
                         table: seq<ShareMem>, list: seq<ShmInner>, mem: seq<byte>)
    requires base != NULL
    requires ClientAccepts(op) && Mapped(op, |mem|) && Carries(buf, op, table, mem)
    ensures Cursor(op, PARAM_NUM, buf, base, list) ==
            if AllResolvable(op, PARAM_NUM, table, list) then Ok(TotalSize(op)) else Err(BadParameters)
    ensures forall i, q, inner :: 0 <= i < PARAM_NUM && DecodesTo(op, i, buf, base, list, q, inner) ==>
      Preserved(Kind(op, i), op.params[i], q, inner, buf, base, table, list, mem)
  {
    CursorIsOffset(op, PARAM_NUM, buf, base, table, list, mem);
    forall i, q, inner | 0 <= i < PARAM_NUM && DecodesTo(op, i, buf, base, list, q, inner)
      ensures Preserved(Kind(op, i), op.params[i], q, inner, buf, base, table, list, mem)
    {
      CursorIsOffset(op, i, buf, base, table, list, mem);
      assert ParamOk(Kind(op, i), op.params[i]);
      RegionRoundTrip(Kind(op, i), op.params[i], buf, Offset(op, i), base, table, list, mem);
    }
  }

  /** The case GetTeecOptMem skips: with nothing to send, the parameters already mean what they should. */
  lemma EmptyRequest(op: Operation, base: Addr, table: seq<ShareMem>, list: seq<ShmInner>, mem: seq<byte>)
    requires ClientAccepts(op) && Mapped(op, |mem|) && TotalSize(op) == 0
    ensures AllResolvable(op, PARAM_NUM, table, list)
    ensures forall i :: 0 <= i < PARAM_NUM ==>
      Preserved(Kind(op, i), op.params[i], op.params[i], None, [], base, table, list, mem)
  {
    forall i | 0 <= i < PARAM_NUM
      ensures Resolvable(Kind(op, i), op.params[i], table, list)
      ensures Preserved(Kind(op, i), op.params[i], op.params[i], None, [], base, table, list, mem)
    {
      OffsetMonotone(op, i, PARAM_NUM);
      assert ParamOk(Kind(op, i), op.params[i]);
    }
  }

  predicate ParentsNonEmpty(op: Operation) {
    forall i :: 0 <= i < PARAM_NUM && IsPartial(Kind(op, i)) && op.params[i].memref.parent.Some? ==>
      op.params[i].memref.parent.value.size != 0
  }

  predicate NoIon(op: Operation) {
    forall i :: 0 <= i < PARAM_NUM ==> Kind(op, i) != ION_INPUT
  }

  ghost predicate AllPreserved(op: Operation, params: seq<Param>, inner: seq<Option<nat>>, buf: seq<byte>, base: Addr,
                               table: seq<ShareMem>, list: seq<ShmInner>, mem: seq<byte>)
    requires Mapped(op, |mem|)
  {
    && |params| == |inner| == PARAM_NUM
    && forall i :: 0 <= i < PARAM_NUM ==>
         Preserved(Kind(op, i), op.params[i], params[i], inner[i], buf, base, table, list, mem)
  }

  /** What the client accepted, the vendor check accepts after the crossing, exactly when no parent is empty. */
  lemma AcceptanceSurvives(op: Operation, params: seq<Param>, inner: seq<Option<nat>>, buf: seq<byte>, base: Addr,
                           table: seq<ShareMem>, list: seq<ShmInner>, mem: seq<byte>)
    requires ClientAccepts(op) && NoIon(op) && Mapped(op, |mem|)
    requires base != NULL && AllPreserved(op, params, inner, buf, base, table, list, mem)
    ensures VendorAccepts(op.(params := params), list) <==> ParentsNonEmpty(op)
  {
    var op' := op.(params := params);
    forall i | 0 <= i < PARAM_NUM
      ensures VendorParamOk(Kind(op', i), op'.params[i], list) <==>
              (IsPartial(Kind(op, i)) ==> op.params[i].memref.parent.value.size != 0)
    {
      var t, p, q := Kind(op, i), op.params[i], params[i];
      assert ParamOk(t, p);
      assert Preserved(t, p, q, inner[i], buf, base, table, list, mem);
    }
    if ParentsNonEmpty(op) {
      assert VendorAccepts(op', list);
    } else {
      var i :| 0 <= i < PARAM_NUM && IsPartial(Kind(op, i)) && op.params[i].memref.parent.Some? &&
               op.params[i].memref.parent.value.size == 0;
      assert !VendorParamOk(Kind(op', i), op'.params[i], list);
    }
  }

  /** Check, size and encode, as libteec does before it sends. */
  method CopyTeecOptMem(op: Operation, table: seq<ShareMem>, mem: array<byte>) returns (r: Code, ash: array<byte>)
    requires Mapped(op, mem.Length)
    ensures r.Success? <==> ClientAccepts(op) && TotalSize(op) <= PARAM_SIZE_LIMIT
    ensures fresh(ash)
    ensures r.Success? ==> ash.Length == TotalSize(op) && Carries(ash[..], op, table, mem[..])
  {
    ash := new byte[0];
    r := ClientCodec.CheckOperation(Some(op));
    if r != Success {
      return;
    }
    assert forall i :: 0 <= i < PARAM_NUM ==> ParamOk(Kind(op, i), op.params[i]);
    var size;
    r, size := GetOptMemSize(Some(op));
    if r != Success {
      return;
    }
    ash := new byte[size];
    var left;
    r, left := TeecOptEncode(op, table, mem, ash);
  }

  /** What the daemon makes of a buffer that carries the operation. */
  method ReceiveOperation(op: Operation, ash: array<byte>, base: Addr, list: seq<ShmInner>, ghost table: seq<ShareMem>, ghost mem: seq<byte>)
    returns (r: Code, params: array<Param>, inner: array<Option<nat>>)
    requires ClientAccepts(op) && Mapped(op, |mem|) && base != NULL
    requires ash.Length == TotalSize(op) <= PARAM_SIZE_LIMIT && Carries(ash[..], op, table, mem)
    ensures r.Success? <==> AllResolvable(op, PARAM_NUM, table, list)
    ensures r.Success? ==> AllPreserved(op, params[..], inner[..], ash[..], base, table, list, mem)
  {
    params := new Param[PARAM_NUM](i requires 0 <= i < PARAM_NUM => op.params[i]);
    inner := new Option<nat>[PARAM_NUM](i => None);
    RequestRoundTrip(op, ash[..], base, table, list, mem);
    if ash.Length == 0 {
      EmptyRequest(op, base, table, list, mem);
    }
    r := GetTeecOptMem(op, ash, base, list, params, inner);
  }

  /** The whole crossing as the two libraries perform it: encode in the client, decode in the daemon. */
  method SendOperation(op: Operation, table: seq<ShareMem>, mem: array<byte>, base: Addr, list: seq<ShmInner>)
    returns (r: Code, ash: array<byte>, params: array<Param>, inner: array<Option<nat>>)
    requires Mapped(op, mem.Length) && base != NULL
    ensures r.Success? <==>
      ClientAccepts(op) && TotalSize(op) <= PARAM_SIZE_LIMIT && AllResolvable(op, PARAM_NUM, table, list)
    ensures r.Success? ==> AllPreserved(op, params[..], inner[..], ash[..], base, table, list, mem[..])
  {
    r, ash := CopyTeecOptMem(op, table, mem);
    if r != Success {
      params, inner := new Param[0], new Option<nat>[0];
      return;
    }
    r, params, inner := ReceiveOperation(op, ash, base, list, table, mem[..]);
  }

  /** Byte `k` of the memory a parameter refers to, where the daemon's parameter refers to it. */
  predicate SeesByte(t: nat, p: Param, q: Param, buf: seq<byte>, base: Addr, mem: seq<byte>, k: nat) {
    && base <= WindowStart(t, q) && WindowStart(t, q) - base + k < |buf| && WindowStart(t, p) + k < |mem|
    && buf[WindowStart(t, q) - base + k] == mem[WindowStart(t, p) + k]
  }

  /** After the crossing the daemon's parameter refers to as much memory as the client's, and to the same bytes. */
  lemma DaemonSees(op: Operation, params: seq<Param>, inner: seq<Option<nat>>, buf: seq<byte>, base: Addr,
                   table: seq<ShareMem>, list: seq<ShmInner>, mem: seq<byte>, i: nat, k: nat)
    requires ClientAccepts(op) && Mapped(op, |mem|) && i < PARAM_NUM
    requires AllPreserved(op, params, inner, buf, base, table, list, mem)
    requires InBuffer(Kind(op, i), op.params[i]) && k < WindowSize(Kind(op, i), op.params[i])
    ensures WindowSize(Kind(op, i), params[i]) == WindowSize(Kind(op, i), op.params[i])
    ensures SeesByte(Kind(op, i), op.params[i], params[i], buf, base, mem, k)
  {
    assert ParamOk(Kind(op, i), op.params[i]);
    ByteSeen(Kind(op, i), op.params[i], params[i], inner[i], buf, base, table, list, mem, k);
  }

  lemma ByteSeen(t: nat, p: Param, q: Param, inner: Option<nat>, buf: seq<byte>, base: Addr,
                 table: seq<ShareMem>, list: seq<ShmInner>, mem: seq<byte>, k: nat)
    requires t < 16 && ParamOk(t, p) && ParamMapped(t, p, |mem|) && Preserved(t, p, q, inner, buf, base, table, list, mem)
    requires InBuffer(t, p) && k < WindowSize(t, p)
    ensures WindowSize(t, q) == WindowSize(t, p) && SeesByte(t, p, q, buf, base, mem, k)
  {
    KindsByBits(t);
    BytesOfWindow(t, p, mem);
    ReadByte(buf, base, WindowStart(t, q), WindowSize(t, p), mem, WindowStart(t, p), k);
  }

  lemma BytesOfWindow(t: nat, p: Param, mem: seq<byte>)
    requires t < 16 && ParamOk(t, p) && ParamMapped(t, p, |mem|) && InBuffer(t, p)
    ensures IsTemp(t) || (IsPartial(t) && p.memref.parent.Some? && !p.memref.parent.value.isAllocated)
    ensures WindowStart(t, p) + WindowSize(t, p) <= |mem|
    ensures ClientBytes(t, p, mem) == mem[WindowStart(t, p)..WindowStart(t, p) + WindowSize(t, p)]
  {
    KindsByBits(t);
  }

  lemma ReadByte(buf: seq<byte>, base: Addr, a: Addr, n: nat, mem: seq<byte>, from: nat, k: nat)
    requires from + n <= |mem| && DaemonReads(buf, base, a, n, mem[from..from + n]) && k < n
    ensures base <= a && a - base + k < |buf| && buf[a - base + k] == mem[from + k]
  {
    assert buf[a - base..a - base + n][k] == mem[from..from + n][k];
  }

  const NO_PARAM: Param := Param(TempRef(NULL, 0), MemRef(None, 0, 0), Value(0, 0), IonRef(0, 0))

  /** An operation with one partial reference to registered memory of size zero. */
  const EMPTY_PARENT: Operation := Operation(1, PARTIAL_INOUT,
    [NO_PARAM.(memref := MemRef(Some(SharedMem(4096, 0, MEM_INOUT, 1, false)), 0, 0)), NO_PARAM, NO_PARAM, NO_PARAM])

  lemma EmptyParentKinds()
    ensures Kind(EMPTY_PARENT, 0) == PARTIAL_INOUT
    ensures Kind(EMPTY_PARENT, 1) == NONE && Kind(EMPTY_PARENT, 2) == NONE && Kind(EMPTY_PARENT, 3) == NONE
  {
  }

  lemma EmptyParentSize()
    ensures TotalSize(EMPTY_PARENT) == HEADER_SIZE
  {
    EmptyParentKinds();
    var op := EMPTY_PARENT;
    assert Offset(op, 1) == HEADER_SIZE;
    assert Offset(op, 2) == HEADER_SIZE && Offset(op, 3) == HEADER_SIZE;
  }

  /** The client accepts it, it is sent and decoded whatever the table and the daemon's list, and the vendor check
      refuses every operation it is decoded to. */
  lemma EmptyParentRefused(params: seq<Param>, inner: seq<Option<nat>>, buf: seq<byte>, base: Addr,
                           table: seq<ShareMem>, list: seq<ShmInner>, mem: seq<byte>)
    requires base != NULL
    ensures ClientAccepts(EMPTY_PARENT) && TotalSize(EMPTY_PARENT) <= PARAM_SIZE_LIMIT
    ensures AllResolvable(EMPTY_PARENT, PARAM_NUM, table, list)
    ensures Mapped(EMPTY_PARENT, |mem|) && AllPreserved(EMPTY_PARENT, params, inner, buf, base, table, list, mem) ==>
      !VendorAccepts(EMPTY_PARENT.(params := params), list)
  {
    EmptyParentKinds();
    EmptyParentSize();
    assert ClientAccepts(EMPTY_PARENT);
    if Mapped(EMPTY_PARENT, |mem|) && AllPreserved(EMPTY_PARENT, params, inner, buf, base, table, list, mem) {
      AcceptanceSurvives(EMPTY_PARENT, params, inner, buf, base, table, list, mem);
    }
  }
}
