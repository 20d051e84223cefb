/** tlogcat: cutting the buffer read from the log device into log items. */
module LogParser {
  import opened Words
  import opened Sequences

  const HEADER := 64
  const ITEM_MAX_LEN := 1024
  const LEN_ALIGN := 64
  const MAGIC := 0x5A5A

  // Offsets of the fields of struct LogItem that the parser reads.
  const MAGIC_AT := 32
  const REAL_LEN_AT := 40
  const BUFFER_LEN_AT := 42

  // An item found at `off`: `text` bytes of log in `len` bytes of payload behind the header.
  datatype Item = Item(off: nat, text: nat, len: nat)

  function U16(b: seq<byte>, at: nat): nat
    requires at + 2 <= |b|
  {
    b[at] as int + 0x100 * b[at + 1] as int
  }

  /** LogItemGetNext: the header at `off` describes an item that fits in `scope` bytes. */
  predicate ValidAt(b: seq<byte>, off: nat, scope: nat)
    requires off + HEADER <= |b|
  {
    var text, len := U16(b, off + REAL_LEN_AT), U16(b, off + BUFFER_LEN_AT);
    && U16(b, off + MAGIC_AT) == MAGIC
    && len > 0 && text > 0 && len % LEN_ALIGN == 0 && text <= len && len - text < LEN_ALIGN
    && len + HEADER <= if scope > ITEM_MAX_LEN then ITEM_MAX_LEN else scope
  }

  function ItemAt(b: seq<byte>, off: nat): Item
    requires off + HEADER <= |b|
  {
    Item(off, U16(b, off + REAL_LEN_AT), U16(b, off + BUFFER_LEN_AT))
  }

  /** The device buffer is a whole number of header-sized lines, and so is every cursor position. */
  predicate Aligned(b: seq<byte>, off: nat, readLen: nat) {
    |b| % HEADER == 0 && readLen <= |b| && off % HEADER == 0 && off < readLen
  }

  lemma HeaderInside(b: seq<byte>, off: nat, readLen: nat)
    requires Aligned(b, off, readLen)
    ensures off + HEADER <= |b|
  {
    assert off / HEADER < |b| / HEADER;
  }

  /** The items from `off` on, up to the first header that is not valid. */
  function Parse(b: seq<byte>, off: nat, readLen: nat): (r: seq<Item>)
    requires Aligned(b, off, readLen)
    decreases readLen - off
  {
    HeaderInside(b, off, readLen);
    if !ValidAt(b, off, readLen - off) then []
    else
      var i := ItemAt(b, off);
      var next := off + HEADER + i.len;
      if next >= readLen then [i] else [i] + Parse(b, next, readLen)
  }

  /** The items are consecutive from `off`, start with a valid header, and lie inside the bytes that were read. */
  predicate Tiles(b: seq<byte>, items: seq<Item>, off: nat, readLen: nat) {
    && off <= readLen
    && (items != [] ==>
          && items[0].off == off && off + HEADER <= |b| && items[0] == ItemAt(b, off)
          && 0 < items[0].text <= items[0].len && off + HEADER + items[0].len <= readLen
          && Tiles(b, items[1..], off + HEADER + items[0].len, readLen))
  }

  /** On any bytes at all: what is emitted are consecutive, disjoint, in-bounds items. */
  lemma {:induction false} ParseTiles(b: seq<byte>, off: nat, readLen: nat)
    requires Aligned(b, off, readLen)
    ensures Tiles(b, Parse(b, off, readLen), off, readLen)
    decreases readLen - off
  {
    HeaderInside(b, off, readLen);
    if ValidAt(b, off, readLen - off) {
      ParseUnfolds(b, off, readLen);
      var next := off + HEADER + ItemAt(b, off).len;
      if next < readLen {
        ParseTiles(b, next, readLen);
        assert ([ItemAt(b, off)] + Parse(b, next, readLen))[1..] == Parse(b, next, readLen);
      }
    }
  }

  /** One well-formed item on its own. */
  predicate WellFormed(x: seq<byte>) {
    |x| >= HEADER && ValidAt(x, 0, |x|) && |x| == HEADER + U16(x, BUFFER_LEN_AT)
  }

  function Concat(xs: seq<seq<byte>>): seq<byte> {
    if xs == [] then [] else xs[0] + Concat(xs[1..])
  }

  lemma HeaderMoves(b: seq<byte>, off: nat, x: seq<byte>, scope: nat)
    requires off + |x| <= |b| && b[off..off + |x|] == x && WellFormed(x) && |x| <= scope
    ensures ValidAt(b, off, scope) && ItemAt(b, off) == ItemAt(x, 0).(off := off)
  {
    assert forall k :: 0 <= k < |x| ==> b[off + k] == x[k];
  }

  lemma ItemAligned(off: nat, x: seq<byte>)
    requires off % HEADER == 0 && WellFormed(x)
    ensures (off + |x|) % HEADER == 0
  {
    var len := U16(x, BUFFER_LEN_AT);
    assert off + |x| == HEADER * (off / HEADER + 1 + len / HEADER);
  }

  /** Item `i` is the slice `x` of the buffer. */
  predicate Matches(b: seq<byte>, i: Item, x: seq<byte>) {
    |x| >= HEADER && i.off + |x| <= |b| && b[i.off..i.off + |x|] == x && i == ItemAt(x, 0).(off := i.off)
  }

  /** The first of several well-formed items is found, and the cursor moves to the second. */
  lemma ParseFindsFirst(b: seq<byte>, off: nat, readLen: nat, xs: seq<seq<byte>>)
    requires Aligned(b, off, readLen) && b[off..readLen] == Concat(xs)
    requires xs != [] && WellFormed(xs[0])
    ensures off + HEADER <= |b| && ValidAt(b, off, readLen - off) && Matches(b, ItemAt(b, off), xs[0])
    ensures off + |xs[0]| <= readLen && off + HEADER + ItemAt(b, off).len == off + |xs[0]|
    ensures b[off + |xs[0]|..readLen] == Concat(xs[1..]) && (off + |xs[0]|) % HEADER == 0
  {
    HeaderInside(b, off, readLen);
    SliceOfTwo(b, off, readLen, xs[0], Concat(xs[1..]));
    HeaderMoves(b, off, xs[0], readLen - off);
    ItemAligned(off, xs[0]);
  }

  predicate AllMatch(b: seq<byte>, items: seq<Item>, xs: seq<seq<byte>>) {
    |items| == |xs| && forall k :: 0 <= k < |xs| ==> Matches(b, items[k], xs[k])
  }

  lemma AllMatchCons(b: seq<byte>, i: Item, items: seq<Item>, xs: seq<seq<byte>>)
    requires xs != [] && Matches(b, i, xs[0]) && AllMatch(b, items, xs[1..])
    ensures AllMatch(b, [i] + items, xs)
  {
    forall k | 0 <= k < |xs|
      ensures Matches(b, ([i] + items)[k], xs[k])
    {
      if k > 0 {
        assert xs[k] == xs[1..][k - 1];
      }
    }
  }

  lemma ParseUnfolds(b: seq<byte>, off: nat, readLen: nat)
    requires Aligned(b, off, readLen) && off + HEADER <= |b| && ValidAt(b, off, readLen - off)
    ensures var i := ItemAt(b, off);
      var next := off + HEADER + i.len;
      && 0 < i.text <= i.len && next <= readLen && next % HEADER == 0
      && Parse(b, off, readLen) == if next < readLen then [i] + Parse(b, next, readLen) else [i]
  {
    var len := ItemAt(b, off).len;
    assert off + HEADER + len == HEADER * (off / HEADER + 1 + len / HEADER);
  }

  lemma SomeItem(b: seq<byte>, off: nat, readLen: nat, xs: seq<seq<byte>>)
    requires Aligned(b, off, readLen) && b[off..readLen] == Concat(xs)
    ensures xs != []
  {
    assert |b[off..readLen]| == readLen - off;
  }

  lemma ConcatNonEmpty(xs: seq<seq<byte>>)
    requires xs != [] ==> |xs[0]| >= HEADER
    ensures xs != [] ==> Concat(xs) != []
  {
    if xs != [] {
      assert |Concat(xs)| >= |xs[0]|;
    }
  }

  /** On a concatenation of well-formed items the parser emits exactly those items, in order. */
  lemma {:induction false} ParseFindsAll(b: seq<byte>, off: nat, readLen: nat, xs: seq<seq<byte>>)
    requires Aligned(b, off, readLen) && b[off..readLen] == Concat(xs)
    requires forall k :: 0 <= k < |xs| ==> WellFormed(xs[k])
    ensures AllMatch(b, Parse(b, off, readLen), xs)
    decreases |xs|
  {
    SomeItem(b, off, readLen, xs);
    ParseFindsFirst(b, off, readLen, xs);
    var next := off + |xs[0]|;
    if next < readLen {
      ParseFindsAll(b, next, readLen, xs[1..]);
    } else {
      ConcatNonEmpty(xs[1..]);
    }
    ParseCons(b, off, readLen, xs);
  }

  lemma ParseCons(b: seq<byte>, off: nat, readLen: nat, xs: seq<seq<byte>>)
    requires Aligned(b, off, readLen) && off + HEADER <= |b| && ValidAt(b, off, readLen - off)
    requires xs != [] && Matches(b, ItemAt(b, off), xs[0])
    requires var next := off + HEADER + ItemAt(b, off).len;
      if next < readLen then Aligned(b, next, readLen) && AllMatch(b, Parse(b, next, readLen), xs[1..]) else xs[1..] == []
    ensures AllMatch(b, Parse(b, off, readLen), xs)
  {
    ParseUnfolds(b, off, readLen);
    var i := ItemAt(b, off);
    var next := off + HEADER + i.len;
    if next < readLen {
      AllMatchCons(b, i, Parse(b, next, readLen), xs);
    } else {
      AllMatchCons(b, i, [], xs);
      NothingBehind([i]);
    }
  }

  // ---------------------------------------------------------------- items, as the log device writes them

  /** The least multiple of 64 that is not below `n`. */
  function RoundedUp(n: nat): nat {
    64 * ((n + 63) / 64)
  }

  /** A 16-bit number, low byte first, stands at `at`. */
  predicate Holds16(b: seq<byte>, at: nat, n: nat) {
    at + 2 <= |b| && n < 0x1_0000 && b[at] == n % 0x100 && b[at + 1] == n / 0x100
  }

  /** One item with this text: a header of 64 bytes with the magic number, the text's length and the length it is
      filled up to, the text, and the filling; at most 1024 bytes in all. */
  predicate IsItem(x: seq<byte>, text: seq<byte>) {
    && |text| > 0 && |x| == 64 + RoundedUp(|text|) <= 1024
    && Holds16(x, 32, 0x5A5A) && Holds16(x, 40, |text|) && Holds16(x, 42, RoundedUp(|text|))
    && text <= x[64..]
  }

  lemma RoundsUp(n: nat, len: nat)
    requires 0 < n
    ensures len == RoundedUp(n) <==> len % LEN_ALIGN == 0 && n <= len && len - n < LEN_ALIGN
  {
    var q := (n + 63) / 64;
    if len % 64 == 0 && n <= len && len - n < 64 {
      assert len == 64 * (len / 64) && len / 64 == q;
    }
  }

  lemma Holds16Exactly(b: seq<byte>, at: nat, n: nat)
    requires at + 2 <= |b|
    ensures Holds16(b, at, n) <==> U16(b, at) == n
  {
  }

  /** The parser's own tests accept a slice as one item exactly if it is an item of some text. */
  lemma WellFormedExactly(x: seq<byte>)
    ensures WellFormed(x) <==> exists text :: IsItem(x, text)
  {
    if text :| IsItem(x, text) {
      ItemIsWellFormed(x, text);
    }
    if WellFormed(x) {
      WellFormedIsItem(x);
    }
  }

  lemma WellFormedIsItem(x: seq<byte>)
    requires WellFormed(x)
    ensures IsItem(x, x[HEADER..HEADER + U16(x, REAL_LEN_AT)])
  {
    var n, len := U16(x, REAL_LEN_AT), U16(x, BUFFER_LEN_AT);
    RoundsUp(n, len);
    Holds16Exactly(x, MAGIC_AT, MAGIC);
    Holds16Exactly(x, REAL_LEN_AT, n);
    Holds16Exactly(x, BUFFER_LEN_AT, len);
    assert x[64..][..n] == x[HEADER..HEADER + n];
  }

  lemma ItemIsWellFormed(x: seq<byte>, text: seq<byte>)
    requires IsItem(x, text)
    ensures WellFormed(x) && U16(x, REAL_LEN_AT) == |text| && x[HEADER..HEADER + |text|] == text
  {
    Holds16Exactly(x, MAGIC_AT, MAGIC);
    Holds16Exactly(x, REAL_LEN_AT, |text|);
    Holds16Exactly(x, BUFFER_LEN_AT, RoundedUp(|text|));
    RoundsUp(|text|, RoundedUp(|text|));
    assert x[64..][..|text|] == x[64..64 + |text|];
  }

  /** The text of a found item. */
  function TextAt(b: seq<byte>, i: Item): seq<byte>
    requires i.off + HEADER + i.text <= |b|
  {
    b[i.off + HEADER..i.off + HEADER + i.text]
  }

  ghost predicate AreItems(xs: seq<seq<byte>>, texts: seq<seq<byte>>) {
    |xs| == |texts| && forall k :: 0 <= k < |xs| ==> IsItem(xs[k], texts[k])
  }

  /** From the items that the device writes one after the other, the parser gets back their texts, in order. */
  lemma TextsComeBack(b: seq<byte>, off: nat, readLen: nat, xs: seq<seq<byte>>, texts: seq<seq<byte>>)
    requires Aligned(b, off, readLen) && b[off..readLen] == Concat(xs) && AreItems(xs, texts)
    ensures var items := Parse(b, off, readLen);
      && |items| == |texts|
      && forall k :: 0 <= k < |texts| ==> items[k].off + HEADER + items[k].text <= |b| && TextAt(b, items[k]) == texts[k]
  {
    forall k | 0 <= k < |xs|
      ensures WellFormed(xs[k])
    {
      ItemIsWellFormed(xs[k], texts[k]);
    }
    ParseFindsAll(b, off, readLen, xs);
    var items := Parse(b, off, readLen);
    forall k | 0 <= k < |texts|
      ensures items[k].off + HEADER + items[k].text <= |b| && TextAt(b, items[k]) == texts[k]
    {
      assert Matches(b, items[k], xs[k]);
      TextOfMatch(b, items[k], xs[k], texts[k]);
    }
  }

  lemma TextOfMatch(b: seq<byte>, i: Item, x: seq<byte>, text: seq<byte>)
    requires Matches(b, i, x) && IsItem(x, text)
    ensures i.off + HEADER + i.text <= |b| && TextAt(b, i) == text
  {
    ItemIsWellFormed(x, text);
    assert b[i.off..i.off + |x|][HEADER..HEADER + |text|] == b[i.off + HEADER..i.off + HEADER + |text|];
  }

  // ---------------------------------------------------------------- the reader

  /** Showing an item terminates its text inside its own payload; writing it to a file changes nothing. */
  method OutputLog(buf: array<byte>, i: Item, writeFile: bool)
    requires 0 < i.text <= i.len && i.off + HEADER + i.len <= buf.Length
    modifies buf
    ensures forall k :: 0 <= k < buf.Length && !(i.off + HEADER <= k < i.off + HEADER + i.len) ==> buf[k] == old(buf[k])
    ensures writeFile ==> buf[..] == old(buf[..])
    ensures !writeFile ==> buf[..] == old(buf[..])[i.off + HEADER + (if i.text < i.len then i.text else i.len - 1) := 0]
  {
    if writeFile {
      return;
    }
    if i.text < i.len {
      buf[i.off + HEADER + i.text] := 0;
    } else {
      buf[i.off + HEADER + i.text - 1] := 0;
    }
  }

  lemma SameHeader(a: seq<byte>, b: seq<byte>, off: nat, scope: nat)
    requires off + HEADER <= |a| == |b| && forall k :: off <= k < |a| ==> a[k] == b[k]
    ensures ValidAt(a, off, scope) == ValidAt(b, off, scope) && ItemAt(a, off) == ItemAt(b, off)
  {
  }

  /** `items` are those before `off`. */
  ghost predicate FoundSoFar(b: seq<byte>, off: nat, readLen: nat, items: seq<Item>) {
    Aligned(b, 0, readLen) && Aligned(b, off, readLen) && Parse(b, 0, readLen) == items + Parse(b, off, readLen)
  }

  lemma ParseStep(b: seq<byte>, off: nat, readLen: nat, items: seq<Item>)
    requires FoundSoFar(b, off, readLen, items) && off + HEADER <= |b| && ValidAt(b, off, readLen - off)
    ensures var i := ItemAt(b, off);
      var next := off + HEADER + i.len;
      && 0 < i.text <= i.len && next <= readLen
      && if next < readLen then FoundSoFar(b, next, readLen, items + [i]) else Parse(b, 0, readLen) == items + [i]
  {
    ParseUnfolds(b, off, readLen);
    var i := ItemAt(b, off);
    var next := off + HEADER + i.len;
    if next < readLen {
      Assoc(items, [i], Parse(b, next, readLen));
    }
  }

  /** From `off` on the buffer is as it was read. */
  ghost predicate SameFrom(buf: seq<byte>, was: seq<byte>, off: nat) {
    |buf| == |was| && forall k :: off <= k < |buf| ==> buf[k] == was[k]
  }

  /** The item at the cursor is shown; what lies behind it is not touched. */
  method ShowItem(buf: array<byte>, total: nat, readLen: nat, writeFile: bool, ghost was: seq<byte>, ghost items: seq<Item>)
    returns (i: Item)
    requires SameFrom(buf[..], was, total) && total + HEADER <= buf.Length
    requires FoundSoFar(was, total, readLen, items) && ValidAt(was, total, readLen - total)
    modifies buf
    ensures i == ItemAt(was, total) && SameFrom(buf[..], was, total + HEADER + i.len)
    ensures if total + HEADER + i.len < readLen then FoundSoFar(was, total + HEADER + i.len, readLen, items + [i])
            else Parse(was, 0, readLen) == items + [i]
    ensures writeFile ==> buf[..] == old(buf[..])
  {
    SameHeader(buf[..], was, total, readLen - total);
    i := ItemAt(buf[..], total);
    ParseStep(was, total, readLen, items);
    OutputLog(buf, i, writeFile);
  }

  /** The reader's loop: although it writes into each item it shows, it emits what parsing the untouched buffer gives. */
  method ReadLogBuffer(buf: array<byte>, readLen: nat, writeFile: bool) returns (items: seq<Item>)
    requires Aligned(buf[..], 0, readLen)
    modifies buf
    ensures items == Parse(old(buf[..]), 0, readLen)
    ensures writeFile ==> buf[..] == old(buf[..])
  {
    items := [];
    ghost var was := buf[..];
    var total := 0;
    HeaderInside(was, 0, readLen);
    assert FoundSoFar(was, 0, readLen, []);
    var more := ValidAt(buf[..], 0, readLen);
    while more
      invariant total < readLen && total + HEADER <= buf.Length
      invariant more == ValidAt(was, total, readLen - total)
      invariant FoundSoFar(was, total, readLen, items) && SameFrom(buf[..], was, total)
      invariant writeFile ==> buf[..] == was
      decreases readLen - total
    {
      var i := ShowItem(buf, total, readLen, writeFile, was, items);
      items := items + [i];
      total := total + HEADER + i.len;
      if total >= readLen {
        return;
      }
      HeaderInside(was, total, readLen);
      SameHeader(buf[..], was, total, readLen - total);
      more := ValidAt(buf[..], total, readLen - total);
    }
  }
}
