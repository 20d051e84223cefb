/** The page slots of a context's shared memory, seen as a set of taken numbers. */
module Slots {
  import opened Words
  import opened Wrappers
  import opened Operations
  import Bitmap

  const SLOTS := 64
  const ZERO_SIZE_PTR: Addr := 16

  /** The flags a client may register or allocate shared memory with. */
  predicate CheckFlags(flags: u32) {
    flags == MEM_INPUT || flags == MEM_OUTPUT || flags == MEM_INOUT
  }

  /** The least slot from `k` on that is not taken. */
  function FirstFree(bits: set<nat>, k: nat): (r: Option<nat>)
    requires k <= SLOTS
    ensures r.Some? ==> k <= r.value < SLOTS && r.value !in bits && forall j :: k <= j < r.value ==> j in bits
    ensures r.None? ==> forall j :: k <= j < SLOTS ==> j in bits
    decreases SLOTS - k
  {
    if k == SLOTS then None else if k !in bits then Some(k) else FirstFree(bits, k + 1)
  }

  /** The slot chosen is the one GetAndSetBit hands out from a bitmap with these bits, and there is none exactly
      when it answers -1. */
  lemma FirstFreeIsLeastBit(bits: set<nat>, k: nat)
    ensures FirstFree(bits, 0) == Some(k) <==> Bitmap.IsLeastAbsent(bits, SLOTS, k)
    ensures FirstFree(bits, 0).None? <==> Bitmap.Full(bits, SLOTS)
  {
    var r := FirstFree(bits, 0);
    if r.Some? && Bitmap.IsLeastAbsent(bits, SLOTS, k) {
      assert !(r.value < k) && !(k < r.value);
    }
  }
}
