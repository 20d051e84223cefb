/** cadaemon: parsing the shared buffer back into an operation whose pointers are the daemon's own. */
module DaemonCodec {
  import opened Words
  import opened Wrappers
  import opened Operations

  // A block on the daemon context's shared-memory list.
  datatype ShmInner = ShmInner(buffer: Addr, size: u32, isAllocated: bool, offset: u32)

  /** True when the next `refSize` bytes do NOT fit, in wrapping 32-bit arithmetic. */
  predicate CheckSizeStatus(off: u32, refSize: u32, totalSize: u32, memSize: u32) {
    || Wrap32(off + refSize) < off
    || Wrap32(off + refSize) < refSize
    || Wrap32(off + refSize) > totalSize
    || refSize > memSize
  }

  lemma CheckSizeStatusExact(off: u32, refSize: u32, totalSize: u32, memSize: u32)
    ensures CheckSizeStatus(off, refSize, totalSize, memSize) <==> off + refSize > totalSize || refSize > memSize
  {
    if off + refSize <= U32_MAX {
      assert Wrap32(off + refSize) == off + refSize;
    } else {
      assert Wrap32(off + refSize) == off + refSize - 0x1_0000_0000;
    }
  }

  /** GetBnShmByOffset: the first listed block with this offset. */
  function FindByOffset(list: seq<ShmInner>, offset: u32): (k: Option<nat>)
    ensures k.Some? ==> k.value < |list| && list[k.value].offset == offset
    ensures k.Some? ==> forall j :: 0 <= j < k.value ==> list[j].offset != offset
    ensures k.None? ==> forall j :: 0 <= j < |list| ==> list[j].offset != offset
  {
    if list == [] then None
    else if list[0].offset == offset then Some(0)
    else
      var k := FindByOffset(list[1..], offset);
      assert forall j :: 1 <= j < |list| ==> list[j] == list[1..][j - 1];
      if k.None? then None else Some(k.value + 1)
  }

  /** CopyToShareMemory: the header fields, and the offset that names an allocated block. */
  function ReadHeader(data: seq<byte>, off: nat): (SharedMem, u32)
    requires off + HEADER_SIZE <= |data|
  {
    (SharedMem(NULL, FromLe32(data[off + 13..off + 17]), FromLe32(data[off + 1..off + 5]),
               FromLe32(data[off + 5..off + 9]), data[off] != 0),
     FromLe32(data[off + 9..off + 13]))
  }

  // A decoded parameter, the listed block it took a reference on, and the cursor after it.
  datatype Step = Step(param: Param, inner: Option<nat>, off: nat)

  function DecodePartial(t: nat, p: Param, data: seq<byte>, base: Addr, list: seq<ShmInner>, off: nat)
    : (r: Result<Step, Code>)
    requires off <= |data|
    ensures r.Ok? ==> off <= r.value.off <= |data|
    ensures r.Err? ==> r.error.Fail? || r.error.BadParameters?
  {
    if off + HEADER_SIZE > |data| then Err(Fail)
    else
      var (shm, shmOffset) := ReadHeader(data, off);
      var start := off + HEADER_SIZE;
      var refSize := if t == WHOLE then shm.size else p.memref.size;
      if start + refSize > |data| then Err(Fail)
      else if !shm.isAllocated then
        var m := p.memref.(parent := Some(shm.(buffer := base + start)), offset := 0);
        Ok(Step(p.(memref := m), None, start + refSize))
      else
        var k := FindByOffset(list, shmOffset);
        if k.None? || list[k.value].buffer == NULL then Err(BadParameters)
        else
          var m := p.memref.(parent := Some(shm.(buffer := list[k.value].buffer)));
          Ok(Step(p.(memref := m), k, start + refSize))
  }

  function DecodeParam(t: nat, p: Param, data: seq<byte>, base: Addr, list: seq<ShmInner>, off: nat)
    : (r: Result<Step, Code>)
    requires off <= |data|
    ensures r.Ok? ==> off <= r.value.off <= |data|
    ensures r.Err? ==> r.error.Fail? || r.error.BadParameters?
  {
    if IsTemp(t) then
      if off + p.tmpref.size > |data| then Err(Fail)
      else
        var p' := if p.tmpref.size == 0 then p else p.(tmpref := p.tmpref.(buffer := base + off));
        Ok(Step(p', None, off + p.tmpref.size))
    else if IsPartial(t) then DecodePartial(t, p, data, base, list, off)
    else Ok(Step(p, None, off))
  }

  /** The cursor in front of parameter `i`, or the error of an earlier parameter. */
  function Cursor(op: Operation, i: nat, data: seq<byte>, base: Addr, list: seq<ShmInner>): (r: Result<nat, Code>)
    requires i <= PARAM_NUM
    ensures r.Ok? ==> r.value <= |data|
    ensures r.Err? ==> r.error.Fail? || r.error.BadParameters?
  {
    if i == 0 then Ok(0)
    else
      match Cursor(op, i - 1, data, base, list)
      case Err(e) => Err(e)
      case Ok(off) =>
        match DecodeParam(Kind(op, i - 1), op.params[i - 1], data, base, list, off)
        case Err(e) => Err(e)
        case Ok(s) => Ok(s.off)
  }

  /** Parameter `i` decodes to `q`, holding `inner`. */
  predicate DecodesTo(op: Operation, i: nat, data: seq<byte>, base: Addr, list: seq<ShmInner>,
                      q: Param, inner: Option<nat>)
    requires i < PARAM_NUM
  {
    && Cursor(op, i, data, base, list).Ok?
    && var r := DecodeParam(Kind(op, i), op.params[i], data, base, list, Cursor(op, i, data, base, list).value);
    r.Ok? && r.value.param == q && r.value.inner == inner
  }

  lemma {:induction false} CursorErrorStays(op: Operation, i: nat, j: nat, data: seq<byte>, base: Addr,
                                            list: seq<ShmInner>)
    requires i <= j <= PARAM_NUM && Cursor(op, i, data, base, list).Err?
    ensures Cursor(op, j, data, base, list) == Cursor(op, i, data, base, list)
  {
    if i < j {
      CursorErrorStays(op, i, j - 1, data, base, list);
    }
  }

  method TeecOptDecodePartialMem(t: nat, p: Param, data: array<byte>, base: Addr, list: seq<ShmInner>,
                                 off: u32, memSize: u32, totalSize: u32)
    returns (r: Result<Step, Code>)
    requires totalSize == data.Length && off <= totalSize && memSize == totalSize - off
    ensures r == DecodePartial(t, p, data[..], base, list, off)
  {
    CheckSizeStatusExact(off, HEADER_SIZE, totalSize, memSize);
    if CheckSizeStatus(off, HEADER_SIZE, totalSize, memSize) {
      return Err(Fail);
    }
    var (shm, shmOffset) := ReadHeader(data[..], off);
    var left: u32 := memSize - HEADER_SIZE;
    var start: u32 := off + HEADER_SIZE;
    var refSize := p.memref.size;
    if t == WHOLE {
      refSize := shm.size;
    }
    CheckSizeStatusExact(start, refSize, totalSize, left);
    if CheckSizeStatus(start, refSize, totalSize, left) {
      return Err(Fail);
    }
    if !shm.isAllocated {
      var m := p.memref.(parent := Some(shm.(buffer := base + start)), offset := 0);
      return Ok(Step(p.(memref := m), None, start + refSize));
    }
    var k := FindByOffset(list, shmOffset);
    if k.None? || list[k.value].buffer == NULL {
      return Err(BadParameters);
    }
    return Ok(Step(p.(memref := p.memref.(parent := Some(shm.(buffer := list[k.value].buffer)))), k, start + refSize));
  }

  /** One turn of the daemon's loop. */
  method DecodeOne(t: nat, p: Param, data: array<byte>, base: Addr, list: seq<ShmInner>, off: u32, sizeLeft: u32)
    returns (r: Result<Step, Code>)
    requires data.Length <= U32_MAX && off + sizeLeft == data.Length
    ensures r == DecodeParam(t, p, data[..], base, list, off)
  {
    var optMemSize: u32 := data.Length;
    if IsTemp(t) {
      var refSize := p.tmpref.size;
      CheckSizeStatusExact(off, refSize, optMemSize, sizeLeft);
      if CheckSizeStatus(off, refSize, optMemSize, sizeLeft) {
        return Err(Fail);
      }
      if refSize != 0 {
        return Ok(Step(p.(tmpref := p.tmpref.(buffer := base + off)), None, off + refSize));
      }
      return Ok(Step(p, None, off + refSize));
    } else if IsPartial(t) {
      r := TeecOptDecodePartialMem(t, p, data, base, list, off, sizeLeft, optMemSize);
    } else {
      return Ok(Step(p, None, off));
    }
  }

  /** The turn for parameter `i`, and what it means for the whole walk. */
  method DecodeTurn(op: Operation, i: nat, data: array<byte>, base: Addr, list: seq<ShmInner>, off: u32, sizeLeft: u32)
    returns (r: Result<Step, Code>)
    requires i < PARAM_NUM && data.Length <= U32_MAX && off + sizeLeft == data.Length
    requires Cursor(op, i, data[..], base, list) == Ok(off)
    ensures r.Ok? ==> off <= r.value.off <= data.Length && Cursor(op, i + 1, data[..], base, list) == Ok(r.value.off)
    ensures r.Ok? ==> DecodesTo(op, i, data[..], base, list, r.value.param, r.value.inner)
    ensures r.Err? ==> !r.error.Success? && Cursor(op, PARAM_NUM, data[..], base, list) == Err(r.error)
  {
    r := DecodeOne(Kind(op, i), op.params[i], data, base, list, off, sizeLeft);
    if r.Err? {
      CursorErrorStays(op, i + 1, PARAM_NUM, data[..], base, list);
    }
  }

  /** Parameters `0..i` are decoded, and the others as they were. */
  ghost predicate FilledTo(op: Operation, i: nat, data: seq<byte>, base: Addr, list: seq<ShmInner>,
                           params: seq<Param>, inner: seq<Option<nat>>)
    requires i <= PARAM_NUM
  {
    && |params| == |inner| == PARAM_NUM
    && (forall j :: 0 <= j < i ==> DecodesTo(op, j, data, base, list, params[j], inner[j]))
    && (forall j :: i <= j < PARAM_NUM ==> params[j] == op.params[j] && inner[j] == None)
  }

  lemma FilledOneMore(op: Operation, i: nat, data: seq<byte>, base: Addr, list: seq<ShmInner>,
                      params: seq<Param>, inner: seq<Option<nat>>, q: Param, k: Option<nat>)
    requires i < PARAM_NUM && FilledTo(op, i, data, base, list, params, inner) && DecodesTo(op, i, data, base, list, q, k)
    ensures FilledTo(op, i + 1, data, base, list, params[i := q], inner[i := k])
  {
  }

  /** The daemon's loop: fills the operation's pointers in place and keeps the blocks it took references on.
      An empty shared buffer leaves the operation as it came. */
  method GetTeecOptMem(op: Operation, data: array<byte>, base: Addr, list: seq<ShmInner>,
                       params: array<Param>, inner: array<Option<nat>>)
    returns (r: Code)
    requires data.Length <= U32_MAX && params.Length == inner.Length == PARAM_NUM
    requires forall j :: 0 <= j < PARAM_NUM ==> params[j] == op.params[j] && inner[j] == None
    modifies params, inner
    ensures data.Length == 0 ==> r.Success?
    ensures data.Length == 0 ==> forall j :: 0 <= j < PARAM_NUM ==> params[j] == op.params[j] && inner[j] == None
    ensures data.Length > 0 ==> (r.Success? <==> Cursor(op, PARAM_NUM, data[..], base, list).Ok?)
    ensures data.Length > 0 && !r.Success? ==> Cursor(op, PARAM_NUM, data[..], base, list) == Err(r)
    ensures data.Length > 0 && r.Success? ==> forall j :: 0 <= j < PARAM_NUM ==>
      DecodesTo(op, j, data[..], base, list, params[j], inner[j])
  {
    if data.Length == 0 {
      return Success;
    }
    ghost var d := data[..];
    var off: u32, sizeLeft: u32 := 0, data.Length;
    for i := 0 to PARAM_NUM
      invariant off + sizeLeft == data.Length && data[..] == d
      invariant Cursor(op, i, d, base, list) == Ok(off)
      invariant FilledTo(op, i, d, base, list, params[..], inner[..])
    {
      var step := DecodeTurn(op, i, data, base, list, off, sizeLeft);
      if step.Err? {
        return step.error;
      }
      FilledOneMore(op, i, d, base, list, params[..], inner[..], step.value.param, step.value.inner);
      params[i], inner[i] := step.value.param, step.value.inner;
      off := step.value.off;
      sizeLeft := data.Length - off;
    }
    return Success;
  }
}
