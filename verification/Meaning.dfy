/** What an operation means by the GlobalPlatform TEE Client API, said of bits, flags and addresses alone, and that the
    checks, the request and the reply of both libraries mean just that. */
module Meaning {
  import opened Words
  import opened Wrappers
  import opened Operations
  import opened ClientCodec
  import opened DaemonCodec
  import opened VendorCheck

  // ---------------------------------------------------------------- parameter types

  // The upper two bits of a type's nibble select the kind of parameter, the lower two its directions; a registered
  // reference without a direction is a whole one.
  datatype Class = Nothing | ByValue | Temporary | Registered | Other

  function ClassOf(t: nat): Class {
    if t == 0 then Nothing
    else if t / 4 == 0 then ByValue
    else if t / 4 == 1 && t % 4 != 0 then Temporary
    else if t / 4 == 3 then Registered
    else Other
  }

  /** The trusted application reads the parameter; it writes it. */
  predicate IsIn(t: nat) {
    t % 2 == 1
  }

  predicate IsOut(t: nat) {
    t / 2 % 2 == 1
  }

  predicate IsWhole(t: nat) {
    ClassOf(t) == Registered && t % 4 == 0
  }

  /** The constants of the two libraries are these bit patterns. */
  lemma KindsByBits(t: nat)
    requires t < 16
    ensures IsValue(t) <==> ClassOf(t) == ByValue
    ensures IsTemp(t) <==> ClassOf(t) == Temporary
    ensures IsPartial(t) <==> ClassOf(t) == Registered
    ensures t == WHOLE <==> IsWhole(t)
  {
  }

  /** Parameter `i`'s type is the i-th hexadecimal digit from below. */
  lemma TypeIsNibble(high: nat, d3: nat, d2: nat, d1: nat, d0: nat, types: u32)
    requires d3 < 16 && d2 < 16 && d1 < 16 && d0 < 16
    requires types == 0x1_0000 * high + 0x1000 * d3 + 0x100 * d2 + 0x10 * d1 + d0
    ensures ParamType(types, 0) == d0 && ParamType(types, 1) == d1 && ParamType(types, 2) == d2 && ParamType(types, 3) == d3
  {
    assert types / 0x10 == 16 * (0x100 * high + 0x10 * d3 + d2) + d1 by {
      Shift4(0x1000 * high + 0x100 * d3 + 0x10 * d2 + d1, d0);
    }
    assert types / 0x100 == 16 * (0x10 * high + d3) + d2 by {
      Shift8(0x100 * high + 0x10 * d3 + d2, 0x10 * d1 + d0);
    }
    assert types / 0x1000 == 16 * high + d3 by {
      Shift12(0x10 * high + d3, 0x100 * d2 + 0x10 * d1 + d0);
    }
    LowDigit(0x1000 * high + 0x100 * d3 + 0x10 * d2 + d1, d0);
    LowDigit(0x100 * high + 0x10 * d3 + d2, d1);
    LowDigit(0x10 * high + d3, d2);
    LowDigit(high, d3);
  }

  lemma LowDigit(q: nat, d: nat)
    requires d < 16
    ensures (16 * q + d) % 16 == d
  {
  }

  lemma Shift4(q: nat, low: nat)
    requires low < 0x10
    ensures (0x10 * q + low) / 0x10 == q
  {
  }

  lemma Shift8(q: nat, low: nat)
    requires low < 0x100
    ensures (0x100 * q + low) / 0x100 == q
  {
  }

  lemma Shift12(q: nat, low: nat)
    requires low < 0x1000
    ensures (0x1000 * q + low) / 0x1000 == q
  {
  }

  // ---------------------------------------------------------------- flags

  datatype Direction = In | Out | InOut

  /** The direction a memory parameter's type gives; a whole reference takes its parent's flags. */
  function DirectionOf(t: nat, flags: u32): Direction {
    if t == TEMP_INPUT || t == PARTIAL_INPUT || (t == WHOLE && flags == MEM_INPUT) then In
    else if t == TEMP_OUTPUT || t == PARTIAL_OUTPUT || (t == WHOLE && flags == MEM_OUTPUT) then Out
    else InOut
  }

  /** Memory shared in one direction may be referenced in that direction alone; memory shared in both, in any. */
  lemma FlagsAllowDirection(t: nat, f: u32)
    requires IsPartial(t) && t != WHOLE && 1 <= f <= 3
    ensures FlagsAllow(t, f) <==> f == MEM_INOUT || DirectionOf(t, 0) == DirectionOf(WHOLE, f)
  {
  }

  /** The flag tests are tests of one bit. */
  lemma FlagIsBit(f: u32)
    ensures HasFlag(f, MEM_INPUT) <==> (f as bv32) & 1 != 0
    ensures HasFlag(f, MEM_OUTPUT) <==> (f as bv32) & 2 != 0
  {
  }

  // ---------------------------------------------------------------- what the checks accept

  /** The reference asks of its parent only what that was shared for, and stays inside it. */
  predicate InsideParent(t: nat, m: MemRef)
    requires m.parent.Some?
  {
    IsWhole(t) ||
    (&& (IsIn(t) ==> (m.parent.value.flags as bv32) & 1 != 0)
     && (IsOut(t) ==> (m.parent.value.flags as bv32) & 2 != 0)
     && m.offset + m.size <= m.parent.value.size)
  }

  predicate ClientLegal(t: nat, p: Param) {
    match ClassOf(t)
    case Nothing => true
    case ByValue => true
    case Temporary => p.tmpref.buffer == 0 <==> p.tmpref.size == 0
    case Registered => p.memref.parent.Some? && p.memref.parent.value.buffer != 0 && InsideParent(t, p.memref)
    case Other => t == 8
  }

  lemma FlagsByBits(t: nat, flags: u32)
    requires ClassOf(t) == Registered && t < 16
    ensures FlagsAllow(t, flags) <==>
      IsWhole(t) || ((IsIn(t) ==> (flags as bv32) & 1 != 0) && (IsOut(t) ==> (flags as bv32) & 2 != 0))
  {
    FlagIsBit(flags);
  }

  /** The client's check of an operation accepts exactly the started ones each of whose parameters is legal. */
  lemma ClientAcceptsExactly(op: Operation)
    ensures ClientAccepts(op) <==> op.started != 0 && forall i :: 0 <= i < PARAM_NUM ==> ClientLegal(Kind(op, i), op.params[i])
  {
    forall i | 0 <= i < PARAM_NUM
      ensures ParamOk(Kind(op, i), op.params[i]) <==> ClientLegal(Kind(op, i), op.params[i])
    {
      LegalForClient(Kind(op, i), op.params[i]);
    }
  }

  lemma LegalForClient(t: nat, p: Param)
    requires t < 16
    ensures ParamOk(t, p) <==> ClientLegal(t, p)
  {
    KindsByBits(t);
    if IsPartial(t) && p.memref.parent.Some? {
      FlagsByBits(t, p.memref.parent.value.flags);
    }
  }

  predicate VendorLegal(t: nat, p: Param, list: seq<ShmInner>) {
    match ClassOf(t)
    case Nothing => true
    case ByValue => true
    case Temporary => p.tmpref.buffer == 0 <==> p.tmpref.size == 0
    case Registered =>
      && p.memref.parent.Some? && p.memref.parent.value.buffer != 0 && p.memref.parent.value.size > 0
      && InsideParent(t, p.memref)
      && (p.memref.parent.value.isAllocated ==> exists b :: b in list && b.buffer == p.memref.parent.value.buffer)
    case Other => t == 10 || ((t == 8 || t == 9) && p.ionref.shareFd >= 0 && p.ionref.size > 0)
  }

  /** The vendor library's check likewise, for its own reading of legal. */
  lemma VendorAcceptsExactly(op: Operation, list: seq<ShmInner>)
    ensures VendorAccepts(op, list) <==>
      op.started != 0 && forall i :: 0 <= i < PARAM_NUM ==> VendorLegal(Kind(op, i), op.params[i], list)
  {
    forall i | 0 <= i < PARAM_NUM
      ensures VendorParamOk(Kind(op, i), op.params[i], list) <==> VendorLegal(Kind(op, i), op.params[i], list)
    {
      LegalForVendor(Kind(op, i), op.params[i], list);
    }
  }

  lemma LegalForVendor(t: nat, p: Param, list: seq<ShmInner>)
    requires t < 16
    ensures VendorParamOk(t, p, list) <==> VendorLegal(t, p, list)
  {
    KindsByBits(t);
    if IsPartial(t) && p.memref.parent.Some? {
      FlagsByBits(t, p.memref.parent.value.flags);
      ListedByMember(list, p.memref.parent.value.buffer);
    }
  }

  lemma ListedByMember(list: seq<ShmInner>, buffer: Addr)
    ensures BufferListed(list, buffer) <==> exists b :: b in list && b.buffer == buffer
  {
    if b :| b in list && b.buffer == buffer {
      var k :| 0 <= k < |list| && list[k] == b;
    }
  }

  // ---------------------------------------------------------------- what the request carries

  /** The memory a parameter refers to: where it starts, and how long it is. */
  function WindowStart(t: nat, p: Param): Addr {
    if ClassOf(t) == Temporary then p.tmpref.buffer
    else if p.memref.parent.None? then 0
    else p.memref.parent.value.buffer + if IsWhole(t) then 0 else p.memref.offset
  }

  function WindowSize(t: nat, p: Param): u32 {
    if ClassOf(t) == Temporary then p.tmpref.size
    else if !IsWhole(t) then p.memref.size
    else if p.memref.parent.None? then 0
    else p.memref.parent.value.size
  }

  /** Bytes that a parameter takes in the shared buffer, and how many of them stand in front of its memory. */
  function Room(t: nat, p: Param): nat {
    match ClassOf(t)
    case Temporary => WindowSize(t, p)
    case Registered => 17 + WindowSize(t, p)
    case _ => 0
  }

  function Front(t: nat): nat {
    if ClassOf(t) == Registered then 17 else 0
  }

  /** Each parameter's region follows the one before it. */
  lemma RegionsFollow(op: Operation, i: nat)
    requires i < PARAM_NUM
    ensures Offset(op, 0) == 0 && Offset(op, i + 1) == Offset(op, i) + Room(Kind(op, i), op.params[i])
  {
    KindsByBits(Kind(op, i));
  }

  /** The parameter's memory travels in the shared buffer: it is not shared with the daemon already. */
  predicate InBuffer(t: nat, p: Param) {
    || ClassOf(t) == Temporary
    || (ClassOf(t) == Registered && p.memref.parent.Some? && !p.memref.parent.value.isAllocated)
  }

  /** Byte `k` of the parameter's memory is byte `k` behind the front of its region. */
  predicate HoldsByte(buf: seq<byte>, off: nat, t: nat, p: Param, mem: seq<byte>, k: nat) {
    && off + Front(t) + k < |buf| && WindowStart(t, p) + k < |mem|
    && buf[off + Front(t) + k] == mem[WindowStart(t, p) + k]
  }

  /** The shared buffer holds byte `k` of the memory a parameter refers to, unless the daemon shares that memory. */
  lemma RequestCarries(buf: seq<byte>, op: Operation, table: seq<ShareMem>, mem: seq<byte>, i: nat, k: nat)
    requires ClientAccepts(op) && Mapped(op, |mem|) && Carries(buf, op, table, mem) && i < PARAM_NUM
    requires InBuffer(Kind(op, i), op.params[i])
    requires k < WindowSize(Kind(op, i), op.params[i])
    ensures HoldsByte(buf, Offset(op, i), Kind(op, i), op.params[i], mem, k)
  {
    var t, p := Kind(op, i), op.params[i];
    RegionOf(buf, op, table, mem, i);
    RegionByte(buf, Offset(op, i), t, p, table, mem, k);
  }

  lemma RegionOf(buf: seq<byte>, op: Operation, table: seq<ShareMem>, mem: seq<byte>, i: nat)
    requires ClientAccepts(op) && Mapped(op, |mem|) && Carries(buf, op, table, mem) && i < PARAM_NUM
    ensures ParamOk(Kind(op, i), op.params[i]) && ParamMapped(Kind(op, i), op.params[i], |mem|)
    ensures RegionCarries(buf, Offset(op, i), Kind(op, i), op.params[i], table, mem)
    ensures ClassOf(Kind(op, i)) == Registered ==> op.params[i].memref.parent.Some?
  {
    KindsByBits(Kind(op, i));
  }

  lemma RegionByte(buf: seq<byte>, off: nat, t: nat, p: Param, table: seq<ShareMem>, mem: seq<byte>, k: nat)
    requires t < 16 && ParamOk(t, p) && ParamMapped(t, p, |mem|) && RegionCarries(buf, off, t, p, table, mem)
    requires InBuffer(t, p)
    requires k < WindowSize(t, p)
    ensures HoldsByte(buf, off, t, p, mem, k)
  {
    KindsByBits(t);
    var from, n := off + Front(t), WindowSize(t, p);
    assert ClientBytes(t, p, mem) == mem[WindowStart(t, p)..WindowStart(t, p) + n];
    assert buf[from..from + n] == ClientBytes(t, p, mem);
    assert buf[from..from + n][k] == ClientBytes(t, p, mem)[k];
  }

  /** In front of a registered reference's bytes: whether the parent is allocated, its flags, its count, the slot its
      buffer has in the table, and its size, in this order, each word with its low byte first. */
  lemma HeaderLayout(shm: SharedMem, tableOffset: u32)
    ensures var h := Header(shm, tableOffset);
      && (h[0] != 0 <==> shm.isAllocated)
      && WordAt(h, 1) == shm.flags && WordAt(h, 5) == shm.opsCnt && WordAt(h, 9) == tableOffset && WordAt(h, 13) == shm.size
  {
    LowByteFirst(shm.flags);
    LowByteFirst(shm.opsCnt);
    LowByteFirst(tableOffset);
    LowByteFirst(shm.size);
  }

  function WordAt(b: seq<byte>, at: nat): int
    requires at + 4 <= |b|
  {
    b[at] as int + 256 * (b[at + 1] as int + 256 * (b[at + 2] as int + 256 * b[at + 3] as int))
  }

  lemma LowByteFirst(x: u32)
    ensures WordAt(Le32(x), 0) == x
  {
    Le32RoundTrip(x);
  }

  // ---------------------------------------------------------------- what the daemon refuses

  /** Whatever bytes arrive: a parameter is refused for lack of bytes exactly if its region, of the size that the caller's
      structure or, for a whole reference, the bytes themselves give, goes beyond them; and otherwise for a bad parameter
      exactly if it names an allocated block that is not listed, or has no memory. */
  lemma DaemonRefusesExactly(t: nat, p: Param, data: seq<byte>, base: Addr, list: seq<ShmInner>, off: nat)
    requires t < 16 && off <= |data|
    ensures var r := DecodeParam(t, p, data, base, list, off);
      match ClassOf(t)
      case Temporary => r.Err? <==> off + p.tmpref.size > |data|
      case Registered =>
        if off + 17 > |data| then r == Err(Fail)
        else
          var size := if IsWhole(t) then WordAt(data, off + 13) else p.memref.size;
          && (r == Err(Fail) <==> off + 17 + size > |data|)
          && (r == Err(BadParameters) <==>
                off + 17 + size <= |data| && data[off] != 0 && !Backed(list, WordAt(data, off + 9)))
      case _ => r == Ok(Step(p, None, off))
  {
    KindsByBits(t);
    if IsPartial(t) && off + 17 <= |data| {
      WordRead(data, off + 9);
      WordRead(data, off + 13);
      BackedExactly(list, WordAt(data, off + 9));
    }
  }

  /** The first block listed with this slot has memory. */
  predicate Backed(list: seq<ShmInner>, slot: int) {
    list != [] && if list[0].offset == slot then list[0].buffer != 0 else Backed(list[1..], slot)
  }

  lemma {:induction false} BackedExactly(list: seq<ShmInner>, slot: u32)
    ensures Backed(list, slot) <==> FindByOffset(list, slot).Some? && list[FindByOffset(list, slot).value].buffer != 0
  {
    if list != [] {
      BackedExactly(list[1..], slot);
    }
  }

  lemma WordRead(data: seq<byte>, at: nat)
    requires at + 4 <= |data|
    ensures FromLe32(data[at..at + 4]) == WordAt(data, at)
  {
  }
}
