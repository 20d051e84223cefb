/** The vendor library's own check of an operation, run in the daemon before the driver sees it. */
module VendorCheck {
  import opened Words
  import opened Wrappers
  import opened Operations
  import opened DaemonCodec

  /** CheckSharedBufferExist */
  predicate BufferListed(list: seq<ShmInner>, buffer: Addr) {
    exists k :: 0 <= k < |list| && list[k].buffer == buffer
  }

  /** The vendor's test of a registered reference, in unbounded integers. */
  predicate VendorMemRefOk(t: nat, m: MemRef, list: seq<ShmInner>) {
    && m.parent.Some? && m.parent.value.buffer != NULL && m.parent.value.size != 0
    && FlagsAllow(t, m.parent.value.flags)
    && (t != WHOLE ==> m.offset + m.size <= m.parent.value.size)
    && (m.parent.value.isAllocated ==> BufferListed(list, m.parent.value.buffer))
  }

  predicate VendorParamOk(t: nat, p: Param, list: seq<ShmInner>) {
    if IsTemp(t) then TempOk(p.tmpref)
    else if IsPartial(t) then VendorMemRefOk(t, p.memref, list)
    else if t == ION_INPUT || t == ION_SGLIST_INPUT then p.ionref.shareFd >= 0 && p.ionref.size != 0
    else IsValue(t) || t == NONE || t == SHARED_INOUT
  }

  predicate VendorAccepts(op: Operation, list: seq<ShmInner>) {
    op.started != 0 && forall i :: 0 <= i < PARAM_NUM ==> VendorParamOk(Kind(op, i), op.params[i], list)
  }

  method CheckSharedBufferExist(list: seq<ShmInner>, buffer: Addr) returns (found: bool)
    ensures found <==> BufferListed(list, buffer)
  {
    for k := 0 to |list|
      invariant forall j :: 0 <= j < k ==> list[j].buffer != buffer
    {
      if list[k].buffer == buffer {
        return true;
      }
    }
    return false;
  }

  /** Subtracts where the client adds, and still refuses exactly the windows that leave the parent. */
  method CheckMemRef(m: MemRef, t: nat, list: seq<ShmInner>) returns (r: Code)
    requires IsPartial(t)
    ensures r.Success? <==> VendorMemRefOk(t, m, list)
    ensures r.Success? || r.BadParameters?
  {
    if m.parent.None? || m.parent.value.buffer == NULL {
      return BadParameters;
    }
    var parent := m.parent.value;
    if parent.size == 0 {
      return BadParameters;
    }
    if t == PARTIAL_INPUT && !HasFlag(parent.flags, MEM_INPUT) {
      return BadParameters;
    }
    if t == PARTIAL_OUTPUT && !HasFlag(parent.flags, MEM_OUTPUT) {
      return BadParameters;
    }
    if t == PARTIAL_INOUT && !(HasFlag(parent.flags, MEM_INPUT) && HasFlag(parent.flags, MEM_OUTPUT)) {
      return BadParameters;
    }
    if t != WHOLE && (parent.size < m.size || parent.size - m.size < m.offset) {
      return BadParameters;
    }
    if parent.isAllocated {
      var listed := CheckSharedBufferExist(list, parent.buffer);
      return if listed then Success else BadParameters;
    }
    return Success;
  }

  method CheckOperation(op: Option<Operation>, list: seq<ShmInner>) returns (r: Code)
    ensures r.Success? <==> op.None? || VendorAccepts(op.value, list)
    ensures r.NotImplemented? <==> op.Some? && op.value.started == 0
    ensures !r.Fail?
  {
    r := Success;
    if op.None? {
      return;
    }
    if op.value.started == 0 {
      return NotImplemented;
    }
    for i := 0 to PARAM_NUM
      invariant r.Success?
      invariant forall j :: 0 <= j < i ==> VendorParamOk(Kind(op.value, j), op.value.params[j], list)
    {
      var t, p := Kind(op.value, i), op.value.params[i];
      if IsTemp(t) {
        r := if TempOk(p.tmpref) then Success else BadParameters;
      } else if IsPartial(t) {
        r := CheckMemRef(p.memref, t, list);
      } else if t == ION_INPUT || t == ION_SGLIST_INPUT {
        r := if p.ionref.shareFd < 0 || p.ionref.size == 0 then BadParameters else Success;
      } else if !(IsValue(t) || t == NONE || t == SHARED_INOUT) {
        r := BadParameters;
      }
      if r != Success {
        assert !VendorParamOk(Kind(op.value, i), op.value.params[i], list);
        return;
      }
    }
  }
}
