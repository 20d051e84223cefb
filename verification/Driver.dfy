/** The vendor library's last step: an operation turned into the words the driver reads. */
module Driver {
  import opened Words
  import opened Wrappers
  import opened Operations
  import opened DaemonCodec
  import opened VendorCheck
  import opened Meaning

  const ADDRESS_SPACE := 0x1_0000_0000_0000_0000
  const TYPE_DIFF := PARTIAL_INPUT - TEMP_INPUT

  // A TC_NS_ClientParam: 64-bit addresses are passed as a low and a high word.
  datatype DriverParam =
    | Untouched
    | MemRefParam(buffer: u32, bufferHigh: u32, offset: u32, sizeAddr: u32, sizeHigh: u32)
    | ValueParam(aAddr: u32, aHigh: u32, bAddr: u32, bHigh: u32)

  function Low(a: Addr): u32 {
    a % 0x1_0000_0000
  }

  function High(a: Addr): u32 {
    a / 0x1_0000_0000 % 0x1_0000_0000
  }

  /** The address the driver rebuilds from the two words. */
  function Join(low: u32, high: u32): Addr {
    low + 0x1_0000_0000 * high as int
  }

  lemma JoinSplit(a: Addr)
    ensures Join(Low(a), High(a)) == a % ADDRESS_SPACE
  {
    var h := a / 0x1_0000_0000;
    assert a == 0x1_0000_0000 * h + Low(a);
    assert h == 0x1_0000_0000 * (h / 0x1_0000_0000) + High(a);
    assert a == ADDRESS_SPACE * (h / 0x1_0000_0000) + Join(Low(a), High(a));
  }

  // Layout of TEEC_Operation on a 64-bit target: two words, then four 16-byte parameters.
  function ParamAddr(op: Addr, i: nat): Addr {
    op + 8 + 16 * i
  }

  function SizeAddr(op: Addr, i: nat): Addr {
    ParamAddr(op, i) + 8
  }

  function TranslateParamType(flags: u32): nat {
    if flags == MEM_INPUT then PARTIAL_INPUT
    else if flags == MEM_OUTPUT then PARTIAL_OUTPUT
    else PARTIAL_INOUT
  }

  predicate IsMemRef(t: nat) {
    IsPartial(t) || t == SHARED_INOUT
  }

  /** A memory reference is encoded through its parent, which the encoder does not look at first. */
  predicate HasParents(op: Operation) {
    forall i :: 0 <= i < PARAM_NUM && IsMemRef(Kind(op, i)) ==> op.params[i].memref.parent.Some?
  }

  function EncodePartialParam(t: nat, m: MemRef, op: Addr, i: nat): (MemRef, DriverParam)
    requires m.parent.Some?
  {
    var parent := m.parent.value;
    var m' := if t == WHOLE then m.(size := parent.size) else m;
    var offset := if t == WHOLE then 0 else m.offset;
    var size := SizeAddr(op, i);
    var d := if parent.isAllocated
      then MemRefParam(Low(parent.buffer), High(parent.buffer), offset, Low(size), High(size))
      else MemRefParam(Low(parent.buffer + m.offset), High(parent.buffer + m.offset), 0, Low(size), High(size));
    (m', d)
  }

  /** The type the driver is told. */
  function DriverType(t: nat, m: MemRef): (t': nat)
    requires IsMemRef(t) ==> m.parent.Some?
    requires t < 16
    ensures t' < 16
  {
    if IsMemRef(t) then
      var partial := if t == WHOLE then TranslateParamType(m.parent.value.flags) else t;
      if m.parent.value.isAllocated then partial else partial - TYPE_DIFF
    else t
  }

  function EncodeOne(t: nat, p: Param, op: Addr, i: nat): (Param, DriverParam)
    requires IsMemRef(t) ==> p.memref.parent.Some?
  {
    var a, b := ParamAddr(op, i), ParamAddr(op, i) + 4;
    if IsTemp(t) then
      var s := SizeAddr(op, i);
      (p, MemRefParam(Low(p.tmpref.buffer), High(p.tmpref.buffer), 0, Low(s), High(s)))
    else if IsMemRef(t) then
      var (m, d) := EncodePartialParam(t, p.memref, op, i);
      (p.(memref := m), d)
    else if IsValue(t) || t == ION_INPUT || t == ION_SGLIST_INPUT then
      (p, ValueParam(Low(a), High(a), Low(b), High(b)))
    else (p, Untouched)
  }

  /** TEEC_PARAM_TYPES: four nibbles, the fields of which do not overlap. */
  function Pack(t0: nat, t1: nat, t2: nat, t3: nat): u32
    requires t0 < 16 && t1 < 16 && t2 < 16 && t3 < 16
  {
    t3 * 0x1000 + t2 * 0x100 + t1 * 0x10 + t0
  }

  lemma PackedTypes(t0: nat, t1: nat, t2: nat, t3: nat)
    requires t0 < 16 && t1 < 16 && t2 < 16 && t3 < 16
    ensures var types := Pack(t0, t1, t2, t3);
      ParamType(types, 0) == t0 && ParamType(types, 1) == t1 && ParamType(types, 2) == t2 && ParamType(types, 3) == t3
  {
    var types := Pack(t0, t1, t2, t3);
    assert types / 0x10 == t3 * 0x100 + t2 * 0x10 + t1;
    assert types / 0x100 == t3 * 0x10 + t2;
    assert types / 0x1000 == t3;
  }

  /** The type's two rewrites, in the order the loop makes them. */
  method TranslateType(t: nat, m: MemRef) returns (paramType: nat)
    requires t < 16 && (IsMemRef(t) ==> m.parent.Some?)
    ensures paramType == DriverType(t, m)
  {
    paramType := t;
    if IsMemRef(t) {
      if paramType == WHOLE {
        paramType := TranslateParamType(m.parent.value.flags);
      }
      if !m.parent.value.isAllocated {
        paramType := paramType - TYPE_DIFF;
      }
    }
  }

  /** TEEC_EncodeTempParam: four words; the offset stays as the cleared structure has it. */
  method EncodeTempParam(buffer: Addr, sizeAddr: Addr) returns (d: DriverParam)
    ensures d == MemRefParam(Low(buffer), High(buffer), 0, Low(sizeAddr), High(sizeAddr))
  {
    d := MemRefParam(0, 0, 0, 0, 0);
    d := d.(buffer := Low(buffer));
    d := d.(bufferHigh := High(buffer));
    d := d.(sizeAddr := Low(sizeAddr));
    d := d.(sizeHigh := High(sizeAddr));
  }

  /** TEEC_EncodePartialParam: the offset is set first, and cleared again for memory that is not allocated. */
  method EncodePartialRef(t: nat, m: MemRef, at: Addr, i: nat) returns (m': MemRef, d: DriverParam)
    requires m.parent.Some?
    ensures (m', d) == EncodePartialParam(t, m, at, i)
  {
    var parent := m.parent.value;
    m', d := m, MemRefParam(0, 0, 0, 0, 0);
    if t == WHOLE {
      d := d.(offset := 0);
      m' := m'.(size := parent.size);
    } else {
      d := d.(offset := m.offset);
    }
    d := d.(sizeAddr := Low(SizeAddr(at, i)));
    d := d.(sizeHigh := High(SizeAddr(at, i)));
    if parent.isAllocated {
      d := d.(buffer := Low(parent.buffer));
      d := d.(bufferHigh := High(parent.buffer));
    } else {
      d := d.(buffer := Low(parent.buffer + m.offset));
      d := d.(bufferHigh := High(parent.buffer + m.offset));
      d := d.(offset := 0);
    }
  }

  /** TEEC_EncodeValueParam and TEEC_EncodeIonParam: the addresses of two words. */
  method EncodeWords(a: Addr, b: Addr) returns (d: DriverParam)
    ensures d == ValueParam(Low(a), High(a), Low(b), High(b))
  {
    d := ValueParam(0, 0, 0, 0);
    d := d.(aAddr := Low(a));
    d := d.(aHigh := High(a));
    d := d.(bAddr := Low(b));
    d := d.(bHigh := High(b));
  }

  /** One turn of the loop, but for the type. */
  method EncodeParam(t: nat, p: Param, at: Addr, i: nat) returns (p': Param, d: DriverParam)
    requires IsMemRef(t) ==> p.memref.parent.Some?
    ensures (p', d) == EncodeOne(t, p, at, i)
  {
    p', d := p, Untouched;
    if IsTemp(t) {
      d := EncodeTempParam(p.tmpref.buffer, SizeAddr(at, i));
    } else if IsPartial(t) || t == SHARED_INOUT {
      var m;
      m, d := EncodePartialRef(t, p.memref, at, i);
      p' := p.(memref := m);
    } else if IsValue(t) || t == ION_INPUT || t == ION_SGLIST_INPUT {
      d := EncodeWords(ParamAddr(at, i), ParamAddr(at, i) + 4);
    }
  }

  ghost predicate IsEncoded(op: Operation, at: Addr, j: nat, p: Param, d: DriverParam, t: nat)
    requires j < PARAM_NUM
  {
    && (IsMemRef(Kind(op, j)) ==> op.params[j].memref.parent.Some?)
    && (p, d) == EncodeOne(Kind(op, j), op.params[j], at, j) && t == DriverType(Kind(op, j), op.params[j].memref)
  }

  /** Parameters `0..i` are encoded, and the others as they were. */
  ghost predicate EncodedTo(op: Operation, at: Addr, i: nat, ps: seq<Param>, ds: seq<DriverParam>, ts: seq<nat>)
    requires i <= PARAM_NUM
  {
    && |ps| == |ds| == |ts| == PARAM_NUM
    && (forall j :: 0 <= j < i ==> IsEncoded(op, at, j, ps[j], ds[j], ts[j]))
    && (forall j :: i <= j < PARAM_NUM ==> ps[j] == op.params[j])
    && (forall j :: 0 <= j < i && IsMemRef(Kind(op, j)) ==> op.params[j].memref.parent.Some?)
  }

  lemma EncodedOneMore(op: Operation, at: Addr, i: nat, ps: seq<Param>, ds: seq<DriverParam>, ts: seq<nat>,
                       p: Param, d: DriverParam, t: nat)
    requires i < PARAM_NUM && EncodedTo(op, at, i, ps, ds, ts) && IsEncoded(op, at, i, p, d, t)
    ensures EncodedTo(op, at, i + 1, ps[i := p], ds[i := d], ts[i := t])
  {
  }

  // ------------------------------------------------ the operation as words in memory

  // What a TEEC_Operation takes up to the end of its parameters.
  const OPERATION_SIZE := 72

  /** The word at byte `at` of a parameter: each member of the union has its own fields. */
  function FieldAt(t: nat, p: Param, at: nat): Option<u32> {
    match ClassOf(t)
    case Nothing => None
    case ByValue => if at == 0 then Some(p.value.a) else if at == 4 then Some(p.value.b) else None
    case Temporary =>
      if at == 0 then Some(Low(p.tmpref.buffer)) else if at == 4 then Some(High(p.tmpref.buffer))
      else if at == 8 then Some(p.tmpref.size) else None
    case Registered => if at == 8 then Some(p.memref.size) else if at == 12 then Some(p.memref.offset) else None
    case Other =>
      if t != ION_INPUT && t != ION_SGLIST_INPUT then None
      else if at == 0 then Some(Wrap32(p.ionref.shareFd)) else if at == 4 then Some(p.ionref.size) else None
  }

  /** The word at address `a` when the operation lies at `at`: two words, then the parameters, sixteen bytes each. */
  function WordOf(op: Operation, at: Addr, a: Addr): Option<u32> {
    if a == at then Some(op.started)
    else if a == at + 4 then Some(op.paramTypes)
    else if a < at + 8 || a >= at + OPERATION_SIZE then None
    else
      var i, k := (a - at - 8) / 16, (a - at - 8) % 16;
      FieldAt(Kind(op, i), op.params[i], k)
  }

  /** A value or ION parameter: the driver gets the addresses of its two words, in order. Nothing stays nothing. */
  predicate WordsTold(op: Operation, at: Addr, i: nat, p: Param, d: DriverParam)
    requires i < PARAM_NUM
  {
    var t, own := Kind(op, i), op.params[i];
    match ClassOf(t)
    case Nothing => p == own && d == Untouched
    case ByValue =>
      && p == own && d.ValueParam?
      && WordOf(op, at, Join(d.aAddr, d.aHigh)) == Some(own.value.a)
      && WordOf(op, at, Join(d.bAddr, d.bHigh)) == Some(own.value.b)
    case Other =>
      p == own &&
      if t == ION_INPUT || t == ION_SGLIST_INPUT then
        && d.ValueParam?
        && WordOf(op, at, Join(d.aAddr, d.aHigh)) == Some(Wrap32(own.ionref.shareFd))
        && WordOf(op, at, Join(d.bAddr, d.bHigh)) == Some(own.ionref.size)
      else if t == SHARED_INOUT then d.MemRefParam? else d == Untouched
    case Temporary => p == own && d.MemRefParam?
    case Registered =>
      // the caller's structure changes in the size of a whole reference alone
      && d.MemRefParam? && own.memref.parent.Some?
      && p == own.(memref := own.memref.(size := if IsWhole(t) then own.memref.parent.value.size else own.memref.size))
  }

  lemma WordOfParam(op: Operation, at: Addr, i: nat, k: nat)
    requires i < PARAM_NUM && k < 16
    ensures WordOf(op, at, at + 8 + 16 * i + k) == FieldAt(Kind(op, i), op.params[i], k)
  {
    InParam(i, k);
    var a := at + 8 + 16 * i + k;
    assert a - at - 8 == 16 * i + k;
  }

  lemma InParam(i: nat, k: nat)
    requires i < PARAM_NUM && k < 16
    ensures (16 * i + k) / 16 == i && (16 * i + k) % 16 == k
  {
  }

  lemma Rejoined(a: Addr)
    requires a < ADDRESS_SPACE
    ensures Join(Low(a), High(a)) == a
  {
    JoinSplit(a);
  }

  lemma TwoWords(op: Operation, at: Addr, i: nat)
    requires i < PARAM_NUM && at + OPERATION_SIZE <= ADDRESS_SPACE
    ensures var a, b := ParamAddr(at, i), ParamAddr(at, i) + 4;
      && WordOf(op, at, Join(Low(a), High(a))) == FieldAt(Kind(op, i), op.params[i], 0)
      && WordOf(op, at, Join(Low(b), High(b))) == FieldAt(Kind(op, i), op.params[i], 4)
  {
    Rejoined(ParamAddr(at, i));
    Rejoined(ParamAddr(at, i) + 4);
    WordOfParam(op, at, i, 0);
    WordOfParam(op, at, i, 4);
  }

  lemma ToldWords(op: Operation, at: Addr, i: nat)
    requires i < PARAM_NUM && at + OPERATION_SIZE <= ADDRESS_SPACE
    requires IsMemRef(Kind(op, i)) ==> op.params[i].memref.parent.Some?
    ensures var (p, d) := EncodeOne(Kind(op, i), op.params[i], at, i); WordsTold(op, at, i, p, d)
  {
    KindsByBits(Kind(op, i));
    TwoWords(op, at, i);
  }

  lemma AllTold(op: Operation, at: Addr, ps: seq<Param>, ds: seq<DriverParam>, ts: seq<nat>)
    requires EncodedTo(op, at, PARAM_NUM, ps, ds, ts) && at + OPERATION_SIZE <= ADDRESS_SPACE
    ensures forall i :: 0 <= i < PARAM_NUM ==> WordsTold(op, at, i, ps[i], ds[i])
  {
    forall i | 0 <= i < PARAM_NUM
      ensures WordsTold(op, at, i, ps[i], ds[i])
    {
      assert IsEncoded(op, at, i, ps[i], ds[i], ts[i]);
      ToldWords(op, at, i);
    }
  }

  /** The size pointer of a memory parameter leads to the word that holds its size, once the operation is encoded. */
  lemma DriverReadsSize(op: Operation, at: Addr, i: nat, list: seq<ShmInner>)
    requires i < PARAM_NUM && at + OPERATION_SIZE <= ADDRESS_SPACE && VendorAccepts(op, list)
    requires IsTemp(Kind(op, i)) || IsPartial(Kind(op, i))
    ensures op.params[i].memref.parent.Some? || IsTemp(Kind(op, i))
    ensures var (p, d) := EncodeOne(Kind(op, i), op.params[i], at, i);
      && d.MemRefParam?
      && WordOf(op.(params := op.params[i := p]), at, Join(d.sizeAddr, d.sizeHigh)) == Some(WindowSize(Kind(op, i), op.params[i]))
  {
    var t := Kind(op, i);
    assert VendorParamOk(t, op.params[i], list);
    KindsByBits(t);
    var (p, d) := EncodeOne(t, op.params[i], at, i);
    Rejoined(SizeAddr(at, i));
    WordOfParam(op.(params := op.params[i := p]), at, i, 8);
  }

  /** None stands for the fault when a memory reference has no parent. */
  method EncodeParams(op: Operation, at: Addr, params: array<Param>, cli: array<DriverParam>) returns (types: Option<u32>)
    requires cli.Length == params.Length == PARAM_NUM && params[..] == op.params
    modifies params, cli
    ensures types.Some? <==> HasParents(op)
    ensures types.Some? ==> forall i :: 0 <= i < PARAM_NUM ==>
      (params[i], cli[i]) == EncodeOne(Kind(op, i), op.params[i], at, i)
    ensures types.Some? ==> forall i :: 0 <= i < PARAM_NUM ==>
      ParamType(types.value, i) == DriverType(Kind(op, i), op.params[i].memref)
    ensures types.Some? ==> forall i :: 0 <= i < PARAM_NUM && !IsMemRef(Kind(op, i)) ==> ParamType(types.value, i) == Kind(op, i)
    ensures types.Some? && at + OPERATION_SIZE <= ADDRESS_SPACE ==>
      forall i :: 0 <= i < PARAM_NUM ==> WordsTold(op, at, i, params[i], cli[i])
  {
    var paramType: array<nat> := new nat[PARAM_NUM](i => 0);
    for i := 0 to PARAM_NUM
      invariant EncodedTo(op, at, i, params[..], cli[..], paramType[..])
    {
      assert params[..][i] == op.params[i];
      if IsMemRef(Kind(op, i)) && params[i].memref.parent.None? {
        return None;
      }
      var p', d := EncodeParam(Kind(op, i), params[i], at, i);
      var t' := TranslateType(Kind(op, i), params[i].memref);
      EncodedOneMore(op, at, i, params[..], cli[..], paramType[..], p', d, t');
      paramType[i] := t';
      params[i], cli[i] := p', d;
    }
    var packed := PackTypes(paramType);
    if at + OPERATION_SIZE <= ADDRESS_SPACE {
      AllTold(op, at, params[..], cli[..], paramType[..]);
    }
    return Some(packed);
  }

  method PackTypes(paramType: array<nat>) returns (types: u32)
    requires paramType.Length == PARAM_NUM && forall j :: 0 <= j < PARAM_NUM ==> paramType[j] < 16
    ensures forall i :: 0 <= i < PARAM_NUM ==> ParamType(types, i) == paramType[i]
  {
    PackedTypes(paramType[0], paramType[1], paramType[2], paramType[3]);
    types := Pack(paramType[0], paramType[1], paramType[2], paramType[3]);
  }

  // ---------------------------------------------------------------- what the driver is told

  /** Buffers end inside the 64-bit address space. */
  predicate Placed(t: nat, p: Param) {
    && (IsTemp(t) ==> p.tmpref.buffer < ADDRESS_SPACE)
    && (IsMemRef(t) && p.memref.parent.Some? ==>
          p.memref.parent.value.buffer + p.memref.parent.value.size < ADDRESS_SPACE)
  }

  /** The denoted window lies inside the parent. */
  lemma WindowInsideParent(t: nat, p: Param, list: seq<ShmInner>)
    requires IsPartial(t) && VendorParamOk(t, p, list)
    ensures var parent := p.memref.parent.value;
      parent.buffer <= WindowStart(t, p) && WindowStart(t, p) + WindowSize(t, p) <= parent.buffer + parent.size
  {
    KindsByBits(t);
  }

  /** Address and offset name the start of the denoted window; the one exception is an unallocated whole
      reference whose offset field is not zero. */
  lemma DriverWindow(t: nat, p: Param, list: seq<ShmInner>, at: Addr, i: nat)
    requires IsTemp(t) || IsPartial(t)
    requires VendorParamOk(t, p, list) && Placed(t, p) && i < PARAM_NUM
    ensures var d := EncodeOne(t, p, at, i).1;
      && d.MemRefParam?
      && (Join(d.buffer, d.bufferHigh) + d.offset == WindowStart(t, p) <==>
            (t == WHOLE && !p.memref.parent.value.isAllocated ==> p.memref.offset == 0))
  {
    KindsByBits(t);
    if IsTemp(t) {
      Rejoined(p.tmpref.buffer);
    } else if p.memref.parent.value.isAllocated {
      Rejoined(p.memref.parent.value.buffer);
    } else {
      PlainWindow(t, p, list, at, i);
    }
  }

  /** Memory that is not allocated: the offset is in the address, whatever the type. */
  lemma PlainWindow(t: nat, p: Param, list: seq<ShmInner>, at: Addr, i: nat)
    requires IsPartial(t) && VendorParamOk(t, p, list) && Placed(t, p) && i < PARAM_NUM
    requires !p.memref.parent.value.isAllocated
    ensures var d := EncodeOne(t, p, at, i).1;
      && d.MemRefParam?
      && (Join(d.buffer, d.bufferHigh) + d.offset == WindowStart(t, p) <==> (t == WHOLE ==> p.memref.offset == 0))
  {
    KindsByBits(t);
    JoinSplit(p.memref.parent.value.buffer + p.memref.offset);
    WrapsAway(p.memref.parent.value.buffer, p.memref.offset);
  }

  /** The size pointer is the parameter's own size field, which by then holds the size of the window. */
  lemma DriverSize(t: nat, p: Param, list: seq<ShmInner>, at: Addr, i: nat)
    requires IsTemp(t) || IsPartial(t)
    requires VendorParamOk(t, p, list) && i < PARAM_NUM && SizeAddr(at, i) < ADDRESS_SPACE
    ensures var (p', d) := EncodeOne(t, p, at, i);
      && d.MemRefParam?
      && Join(d.sizeAddr, d.sizeHigh) == SizeAddr(at, i)
      && (if IsTemp(t) then p'.tmpref.size else p'.memref.size) == WindowSize(t, p)
  {
    KindsByBits(t);
    JoinSplit(SizeAddr(at, i));
  }

  lemma WrapsAway(b: Addr, o: u32)
    requires b < ADDRESS_SPACE
    ensures (b + o) % ADDRESS_SPACE == b <==> o == 0
    ensures b + o < ADDRESS_SPACE ==> (b + o) % ADDRESS_SPACE == b + o
  {
    if b + o >= ADDRESS_SPACE {
      assert (b + o) % ADDRESS_SPACE == b + o - ADDRESS_SPACE;
    }
  }

  /** The driver's type keeps the direction, and is a partial one exactly for allocated parents, else a temporary one. */
  lemma DriverTypeKeepsDirection(t: nat, p: Param, list: seq<ShmInner>)
    requires IsPartial(t) && VendorParamOk(t, p, list)
    ensures var t' := DriverType(t, p.memref);
      && DirectionOf(t', 0) == DirectionOf(t, p.memref.parent.value.flags)
      && t' != WHOLE
      && (if p.memref.parent.value.isAllocated then IsPartial(t') else IsTemp(t'))
  {
  }

  /** A no-copy parameter reaches the driver as one exactly when its parent is allocated;
      otherwise the subtraction turns it into an output value. */
  lemma SharedInOutType(m: MemRef)
    requires m.parent.Some?
    ensures DriverType(SHARED_INOUT, m) == if m.parent.value.isAllocated then SHARED_INOUT else VALUE_OUTPUT
  {
  }

  // ---------------------------------------------------------------- inputs that show the exceptions

  /** A checked operation is encoded without a fault if and only if its no-copy parameters have parents, which the
      check does not ask. */
  lemma CheckedHasParents(op: Operation, list: seq<ShmInner>)
    requires VendorAccepts(op, list)
    ensures HasParents(op) <==>
      forall i :: 0 <= i < PARAM_NUM && Kind(op, i) == SHARED_INOUT ==> op.params[i].memref.parent.Some?
  {
    forall i | 0 <= i < PARAM_NUM && IsPartial(Kind(op, i))
      ensures op.params[i].memref.parent.Some?
    {
      assert VendorParamOk(Kind(op, i), op.params[i], list);
    }
  }

  const NO_PARAM := Param(TempRef(NULL, 0), MemRef(None, 0, 0), Value(0, 0), IonRef(0, 0))

  /** One no-copy parameter without a parent: accepted, and a fault when encoded. */
  lemma NullSharedParent()
    ensures var op := Operation(1, SHARED_INOUT, [NO_PARAM, NO_PARAM, NO_PARAM, NO_PARAM]);
      VendorAccepts(op, []) && !HasParents(op)
  {
    var op := Operation(1, SHARED_INOUT, [NO_PARAM, NO_PARAM, NO_PARAM, NO_PARAM]);
    assert Kind(op, 0) == SHARED_INOUT && Kind(op, 1) == NONE && Kind(op, 2) == NONE && Kind(op, 3) == NONE;
    assert op.params[0] == NO_PARAM;
  }

  const WHOLE_PARAM := NO_PARAM.(memref := MemRef(Some(SharedMem(4096, 8, MEM_INOUT, 1, false)), 0, 4))

  /** Registered memory of eight bytes at 4096, referenced whole with offset 4: the check accepts it, and the driver
      is given the window four bytes further on. */
  lemma WholeOffsetMisplacesWindow()
    ensures VendorParamOk(WHOLE, WHOLE_PARAM, []) && WindowStart(WHOLE, WHOLE_PARAM) == 4096
    ensures var d := EncodeOne(WHOLE, WHOLE_PARAM, 0, 0).1;
      d.MemRefParam? && Join(d.buffer, d.bufferHigh) + d.offset == 4100
  {
    var d := EncodeOne(WHOLE, WHOLE_PARAM, 0, 0).1;
    assert d == EncodePartialParam(WHOLE, WHOLE_PARAM.memref, 0, 0).1;
    assert Low(4100) == 4100 && High(4100) == 0;
  }
}
