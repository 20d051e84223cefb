/** The byte bitmap that hands out mmap page offsets, refined to a finite set of bit numbers. */
module Bitmap {

  const BYTE_BIT := 8
  const INT32_MAX := 0x7FFF_FFFF

  /** 1U << j */
  function Mask(j: nat): bv8
    requires j < BYTE_BIT
  {
    if j == 0 then 0x01 else if j == 1 then 0x02 else if j == 2 then 0x04 else if j == 3 then 0x08
    else if j == 4 then 0x10 else if j == 5 then 0x20 else if j == 6 then 0x40 else 0x80
  }

  /** CheckBit: bit `i` is on, and in range. */
  predicate CheckBit(i: nat, bm: seq<bv8>) {
    i / BYTE_BIT < |bm| && bm[i / BYTE_BIT] & Mask(i % BYTE_BIT) != 0
  }

  /** The set a bitmap stands for. */
  ghost function Bits(bm: seq<bv8>): set<nat> {
    set i: nat | i < BYTE_BIT * |bm| && CheckBit(i, bm)
  }

  /** Bit `j` of a byte is the one that a shift by `j` gives. */
  lemma MaskIsShift(j: nat)
    requires j < BYTE_BIT
    ensures Mask(j) == (1 as bv8) << j
  {
    if j == 0 {
    } else if j == 1 {
    } else if j == 2 {
    } else if j == 3 {
    } else if j == 4 {
    } else if j == 5 {
    } else if j == 6 {
    }
  }

  lemma MaskOr(b: bv8, j: nat, k: nat)
    requires j < BYTE_BIT && k < BYTE_BIT
    ensures (b | Mask(j)) & Mask(k) != 0 <==> j == k || b & Mask(k) != 0
  {
    if j != k {
      assert Mask(j) & Mask(k) == 0;
    }
    assert (b | Mask(j)) & Mask(k) == (b & Mask(k)) | (Mask(j) & Mask(k));
  }

  lemma MaskClear(b: bv8, j: nat, k: nat)
    requires j < BYTE_BIT && k < BYTE_BIT
    ensures (b & !Mask(j)) & Mask(k) != 0 <==> j != k && b & Mask(k) != 0
  {
    if j != k {
      assert !Mask(j) & Mask(k) == Mask(k);
    }
    assert (b & !Mask(j)) & Mask(k) == b & (!Mask(j) & Mask(k));
  }

  lemma FullByte(b: bv8)
    ensures b == 0xFF <==> forall j :: 0 <= j < BYTE_BIT ==> b & Mask(j) != 0
  {
    if forall j :: 0 <= j < BYTE_BIT ==> b & Mask(j) != 0 {
      assert b & Mask(0) != 0 && b & Mask(1) != 0 && b & Mask(2) != 0 && b & Mask(3) != 0;
      assert b & Mask(4) != 0 && b & Mask(5) != 0 && b & Mask(6) != 0 && b & Mask(7) != 0;
    }
  }

  lemma EmptyByte(b: bv8)
    ensures b == 0 <==> forall j :: 0 <= j < BYTE_BIT ==> b & Mask(j) == 0
  {
    if forall j :: 0 <= j < BYTE_BIT ==> b & Mask(j) == 0 {
      assert b & Mask(0) == 0 && b & Mask(1) == 0 && b & Mask(2) == 0 && b & Mask(3) == 0;
      assert b & Mask(4) == 0 && b & Mask(5) == 0 && b & Mask(6) == 0 && b & Mask(7) == 0;
    }
  }

  lemma BitInRange(i: nat, n: nat)
    ensures i / BYTE_BIT < n <==> i < BYTE_BIT * n
  {
  }

  lemma SetAt(s: seq<bv8>, i: nat, k: nat)
    requires i / BYTE_BIT < |s|
    ensures CheckBit(k, s[i / BYTE_BIT := s[i / BYTE_BIT] | Mask(i % BYTE_BIT)]) <==> k == i || CheckBit(k, s)
  {
    if k / BYTE_BIT == i / BYTE_BIT {
      MaskOr(s[i / BYTE_BIT], i % BYTE_BIT, k % BYTE_BIT);
    }
  }

  lemma ClearAt(s: seq<bv8>, i: nat, k: nat)
    requires i / BYTE_BIT < |s|
    ensures CheckBit(k, s[i / BYTE_BIT := s[i / BYTE_BIT] & !Mask(i % BYTE_BIT)]) <==> k != i && CheckBit(k, s)
  {
    if k / BYTE_BIT == i / BYTE_BIT {
      MaskClear(s[i / BYTE_BIT], i % BYTE_BIT, k % BYTE_BIT);
    }
  }

  lemma SetBits(s: seq<bv8>, i: nat)
    requires i / BYTE_BIT < |s|
    ensures Bits(s[i / BYTE_BIT := s[i / BYTE_BIT] | Mask(i % BYTE_BIT)]) == Bits(s) + {i}
  {
    BitInRange(i, |s|);
    forall k: nat {
      SetAt(s, i, k);
    }
  }

  lemma ClearBits(s: seq<bv8>, i: nat)
    requires i / BYTE_BIT < |s|
    ensures Bits(s[i / BYTE_BIT := s[i / BYTE_BIT] & !Mask(i % BYTE_BIT)]) == Bits(s) - {i}
  {
    forall k: nat {
      ClearAt(s, i, k);
    }
  }

  /** Adds an in-range bit and ignores any other. */
  method SetBit(i: nat, bm: array<bv8>)
    modifies bm
    ensures Bits(bm[..]) == old(Bits(bm[..])) + if i < BYTE_BIT * bm.Length then {i} else {}
  {
    BitInRange(i, bm.Length);
    if i / BYTE_BIT >= bm.Length {
      return;
    }
    ghost var was := bm[..];
    SetBits(was, i);
    bm[i / BYTE_BIT] := bm[i / BYTE_BIT] | Mask(i % BYTE_BIT);
    assert bm[..] == was[i / BYTE_BIT := was[i / BYTE_BIT] | Mask(i % BYTE_BIT)];
  }

  /** Removes a bit; out of range there is nothing to remove. */
  method ClearBit(i: nat, bm: array<bv8>)
    modifies bm
    ensures Bits(bm[..]) == old(Bits(bm[..])) - {i}
  {
    BitInRange(i, bm.Length);
    if i / BYTE_BIT >= bm.Length {
      return;
    }
    ghost var was := bm[..];
    ClearBits(was, i);
    bm[i / BYTE_BIT] := bm[i / BYTE_BIT] & !Mask(i % BYTE_BIT);
    assert bm[..] == was[i / BYTE_BIT := was[i / BYTE_BIT] & !Mask(i % BYTE_BIT)];
  }

  lemma AtByte(k: nat, s: seq<bv8>, i: nat)
    requires i < |s| && BYTE_BIT * i <= k < BYTE_BIT * (i + 1)
    ensures CheckBit(k, s) == (s[i] & Mask(k - BYTE_BIT * i) != 0)
  {
    assert k / BYTE_BIT == i;
  }

  /** The byte test of the outer loop: a byte is skipped exactly when none of its bits has the wanted value. */
  lemma SkippedByte(s: seq<bv8>, i: nat, on: bool)
    requires i < |s|
    ensures s[i] == (if on then 0 else 0xFF) <==>
            forall k: nat :: BYTE_BIT * i <= k < BYTE_BIT * (i + 1) ==> CheckBit(k, s) != on
  {
    FullByte(s[i]);
    EmptyByte(s[i]);
    if s[i] == if on then 0 else 0xFF {
      forall k: nat | BYTE_BIT * i <= k < BYTE_BIT * (i + 1)
        ensures CheckBit(k, s) != on
      {
        AtByte(k, s, i);
      }
    } else {
      var j :| 0 <= j < BYTE_BIT && (s[i] & Mask(j) != 0) == on;
      AtByte(BYTE_BIT * i + j, s, i);
    }
  }

  lemma WantedBit(s: seq<bv8>, i: nat, on: bool) returns (w: nat)
    requires i < |s| && s[i] != if on then 0 else 0xFF
    ensures BYTE_BIT * i <= w < BYTE_BIT * (i + 1) && CheckBit(w, s) == on
  {
    SkippedByte(s, i, on);
    w :| BYTE_BIT * i <= w < BYTE_BIT * (i + 1) && CheckBit(w, s) == on;
  }

  method TestBit(bm: array<bv8>, i: nat, j: nat) returns (on: bool)
    requires i < bm.Length && j < BYTE_BIT
    ensures on == CheckBit(BYTE_BIT * i + j, bm[..])
  {
    AtByte(BYTE_BIT * i + j, bm[..], i);
    on := bm[i] & Mask(j) != 0;
  }

  method FirstBitOfByte(bm: array<bv8>, i: nat, on: bool) returns (validBit: nat)
    requires i < bm.Length && bm[i] != if on then 0 else 0xFF
    ensures BYTE_BIT * i <= validBit < BYTE_BIT * (i + 1) && CheckBit(validBit, bm[..]) == on
    ensures forall k: nat :: BYTE_BIT * i <= k < validBit ==> CheckBit(k, bm[..]) != on
  {
    ghost var w := WantedBit(bm[..], i, on);
    validBit := BYTE_BIT * i;
    while true
      invariant BYTE_BIT * i <= validBit <= w
      invariant forall k: nat :: BYTE_BIT * i <= k < validBit ==> CheckBit(k, bm[..]) != on
      decreases w - validBit
    {
      var bit := TestBit(bm, i, validBit - BYTE_BIT * i);
      if bit == on {
        return;
      }
      validBit := validBit + 1;
    }
  }

  /** The lowest bit with value `on`, or -1; whole bytes without one are skipped. */
  method FindBit(bm: array<bv8>, on: bool) returns (validBit: int)
    requires BYTE_BIT * bm.Length <= INT32_MAX
    ensures -1 <= validBit < BYTE_BIT * bm.Length
    ensures validBit == -1 ==> forall k: nat :: k < BYTE_BIT * bm.Length ==> CheckBit(k, bm[..]) != on
    ensures validBit >= 0 ==> CheckBit(validBit, bm[..]) == on
    ensures validBit >= 0 ==> forall k: nat :: k < validBit ==> CheckBit(k, bm[..]) != on
  {
    for i := 0 to bm.Length
      invariant forall k: nat :: k < BYTE_BIT * i ==> CheckBit(k, bm[..]) != on
    {
      if bm[i] != if on then 0 else 0xFF {
        validBit := FirstBitOfByte(bm, i, on);
        return;
      }
      SkippedByte(bm[..], i, on);
    }
    return -1;
  }

  /** The least number that is not in `s`, below `limit`. */
  ghost predicate IsLeastAbsent(s: set<nat>, limit: nat, k: nat) {
    k < limit && k !in s && forall j: nat :: j < k ==> j in s
  }

  ghost predicate IsLeast(s: set<nat>, k: nat) {
    k in s && forall j: nat :: j < k ==> j !in s
  }

  ghost predicate Full(s: set<nat>, limit: nat) {
    forall j: nat :: j < limit ==> j in s
  }

  /** Hands out the least free bit, and fails exactly when every bit is taken. */
  method GetAndSetBit(bm: array<bv8>) returns (validBit: int)
    requires BYTE_BIT * bm.Length <= INT32_MAX
    modifies bm
    ensures validBit == -1 <==> Full(old(Bits(bm[..])), BYTE_BIT * bm.Length)
    ensures validBit == -1 ==> Bits(bm[..]) == old(Bits(bm[..]))
    ensures validBit != -1 ==> validBit >= 0 && IsLeastAbsent(old(Bits(bm[..])), BYTE_BIT * bm.Length, validBit)
    ensures validBit != -1 ==> Bits(bm[..]) == old(Bits(bm[..])) + {validBit}
  {
    validBit := FindBit(bm, false);
    assert forall k: nat :: k < BYTE_BIT * bm.Length ==> (k in Bits(bm[..]) <==> CheckBit(k, bm[..]));
    if validBit != -1 {
      SetBit(validBit, bm);
    }
  }

  /** The dual: takes back the least bit that is set. */
  method GetAndClearBit(bm: array<bv8>) returns (validBit: int)
    requires BYTE_BIT * bm.Length <= INT32_MAX
    modifies bm
    ensures validBit == -1 <==> old(Bits(bm[..])) == {}
    ensures validBit == -1 ==> Bits(bm[..]) == old(Bits(bm[..]))
    ensures validBit != -1 ==> validBit >= 0 && IsLeast(old(Bits(bm[..])), validBit)
    ensures validBit != -1 ==> Bits(bm[..]) == old(Bits(bm[..])) - {validBit}
  {
    validBit := FindBit(bm, true);
    assert forall k: nat :: k < BYTE_BIT * bm.Length ==> (k in Bits(bm[..]) <==> CheckBit(k, bm[..]));
    if validBit != -1 {
      assert validBit in Bits(bm[..]);
      ClearBit(validBit, bm);
    } else {
      assert forall k: nat :: k !in Bits(bm[..]);
    }
  }
}
