/** `TEEC_Operation` and what its parameters mean, as libteec, cadaemon and the vendor library see it. */
module Operations {
  import opened Words
  import opened Wrappers

  // Addresses in a process. Address 0 is the null pointer.
  type Addr = nat

  const NULL: Addr := 0
  const PARAM_NUM := 4
  const PARAM_SIZE_LIMIT := 0x40_0000 + 0x100
  // Four `uint32_t` and one `bool` precede the payload of a registered memory reference.
  const HEADER_SIZE := 17

  const MEM_INPUT: u32 := 1
  const MEM_OUTPUT: u32 := 2
  const MEM_INOUT: u32 := 3

  const NONE := 0x0
  const VALUE_INPUT := 0x1
  const VALUE_OUTPUT := 0x2
  const VALUE_INOUT := 0x3
  const TEMP_INPUT := 0x5
  const TEMP_OUTPUT := 0x6
  const TEMP_INOUT := 0x7
  const ION_INPUT := 0x8
  const ION_SGLIST_INPUT := 0x9
  const SHARED_INOUT := 0xa
  const WHOLE := 0xc
  const PARTIAL_INPUT := 0xd
  const PARTIAL_OUTPUT := 0xe
  const PARTIAL_INOUT := 0xf

  datatype Code = Success | BadParameters | NotImplemented | Fail

  datatype SharedMem = SharedMem(buffer: Addr, size: u32, flags: u32, opsCnt: u32, isAllocated: bool)
  datatype TempRef = TempRef(buffer: Addr, size: u32)
  datatype MemRef = MemRef(parent: Option<SharedMem>, size: u32, offset: u32)
  datatype Value = Value(a: u32, b: u32)
  datatype IonRef = IonRef(shareFd: int, size: u32)

  // The members of the `TEEC_Parameter` union; a parameter's type nibble selects the one in use.
  datatype Param = Param(tmpref: TempRef, memref: MemRef, value: Value, ionref: IonRef)

  type Params = ps: seq<Param> | |ps| == PARAM_NUM
    witness var p := Param(TempRef(0, 0), MemRef(None, 0, 0), Value(0, 0), IonRef(0, 0)); [p, p, p, p]

  datatype Operation = Operation(started: u32, paramTypes: u32, params: Params)

  /** TEEC_PARAM_TYPE_GET: the i-th nibble of the packed types. */
  function ParamType(types: u32, i: nat): (t: nat)
    requires i < PARAM_NUM
    ensures t < 16
  {
    if i == 0 then types % 0x10
    else if i == 1 then types / 0x10 % 0x10
    else if i == 2 then types / 0x100 % 0x10
    else types / 0x1000 % 0x10
  }

  function Kind(op: Operation, i: nat): nat
    requires i < PARAM_NUM
  {
    ParamType(op.paramTypes, i)
  }

  predicate IsTemp(t: nat) {
    t == TEMP_INPUT || t == TEMP_OUTPUT || t == TEMP_INOUT
  }

  predicate IsPartial(t: nat) {
    t == WHOLE || t == PARTIAL_INPUT || t == PARTIAL_OUTPUT || t == PARTIAL_INOUT
  }

  predicate IsValue(t: nat) {
    t == VALUE_INPUT || t == VALUE_OUTPUT || t == VALUE_INOUT
  }

  /** Bytes a registered memory reference denotes: the whole parent, or the window it names. */
  function PayloadSize(t: nat, m: MemRef): u32 {
    if t == WHOLE then (if m.parent.Some? then m.parent.value.size else 0) else m.size
  }

  /** Where in the parent those bytes start: a whole reference ignores its offset field. */
  function PayloadOffset(t: nat, m: MemRef): u32 {
    if t == WHOLE then 0 else m.offset
  }

  /** Bytes parameter `p` of type `t` occupies in the shared buffer. */
  function RegionSize(t: nat, p: Param): nat {
    if IsTemp(t) then p.tmpref.size
    else if IsPartial(t) then HEADER_SIZE + PayloadSize(t, p.memref)
    else 0
  }

  /** Where parameter `i` starts in the shared buffer, in unbounded integers. */
  function Offset(op: Operation, i: nat): nat
    requires i <= PARAM_NUM
  {
    if i == 0 then 0 else Offset(op, i - 1) + RegionSize(Kind(op, i - 1), op.params[i - 1])
  }

  function TotalSize(op: Operation): nat {
    Offset(op, PARAM_NUM)
  }

  lemma {:induction false} OffsetMonotone(op: Operation, i: nat, j: nat)
    requires i < j <= PARAM_NUM
    ensures Offset(op, i) + RegionSize(Kind(op, i), op.params[i]) <= Offset(op, j)
  {
    if i + 1 < j {
      OffsetMonotone(op, i, j - 1);
    }
  }

  predicate TempOk(t: TempRef) {
    (t.buffer == NULL) == (t.size == 0)
  }

  predicate HasFlag(flags: u32, flag: u32)
    requires flag == MEM_INPUT || flag == MEM_OUTPUT
  {
    flags / flag % 2 == 1
  }

  /** The direction of a partial reference is one its parent was shared for. */
  predicate FlagsAllow(t: nat, flags: u32) {
    && ((t == PARTIAL_INPUT || t == PARTIAL_INOUT) ==> HasFlag(flags, MEM_INPUT))
    && ((t == PARTIAL_OUTPUT || t == PARTIAL_INOUT) ==> HasFlag(flags, MEM_OUTPUT))
  }
}
