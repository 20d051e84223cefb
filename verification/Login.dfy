/** The length-prefixed login records that identify a client to the TEE. */
module Login {
  import opened Words
  import opened Wrappers

  const CERTS_SIZE := 4096
  const MAX_PATH_LENGTH := 256

  // ---------------------------------------------------------------- writing at an advancing offset

  /** `b` is `was` with `done` written over its front. */
  ghost predicate Over(was: seq<byte>, b: seq<byte>, done: seq<byte>) {
    && |b| == |was| && |done| <= |b|
    && (forall k :: 0 <= k < |done| ==> b[k] == done[k])
    && (forall k :: |done| <= k < |b| ==> b[k] == was[k])
  }

  /** memcpy_s refuses an empty destination even when there is nothing to copy. No caller asks for more than fits. */
  method MemcpyS(buf: array<byte>, at: nat, destMax: nat, src: seq<byte>) returns (ok: bool)
    requires at + destMax <= buf.Length && |src| <= destMax
    modifies buf
    ensures ok <==> destMax > 0
    ensures forall k :: 0 <= k < buf.Length ==> buf[k] == if at <= k < at + |src| then src[k - at] else old(buf[k])
  {
    for i := 0 to |src|
      invariant forall k :: 0 <= k < buf.Length ==> buf[k] == if at <= k < at + i then src[k - at] else old(buf[k])
    {
      buf[at + i] := src[i];
    }
    ok := destMax > 0;
  }

  /** The next field of a record. */
  method Append(buf: array<byte>, ghost was: seq<byte>, ghost done: seq<byte>, offset: nat, destMax: nat, data: seq<byte>)
    returns (ok: bool)
    requires offset == |done| && offset + destMax <= buf.Length && |data| <= destMax && Over(was, buf[..], done)
    modifies buf
    ensures ok <==> destMax > 0
    ensures Over(was, buf[..], done + data)
  {
    ok := MemcpyS(buf, offset, destMax, data);
  }

  // ---------------------------------------------------------------- native clients

  /** The record of a native client: its name and its uid, each behind its length. */
  function NativeRecord(name: seq<byte>, uid: u32): seq<byte>
    requires |name| <= U32_MAX
  {
    Le32(|name|) + name + Le32(4) + Le32(uid)
  }

  /** strnlen */
  function StrLen(s: seq<byte>): (n: nat)
    ensures n <= |s| && (n < |s| ==> s[n] == 0) && forall k :: 0 <= k < n ==> s[k] != 0
  {
    if s == [] || s[0] == 0 then 0 else
      var n := 1 + StrLen(s[1..]);
      assert forall k :: 1 <= k < n ==> s[k] == s[1..][k - 1];
      n
  }

  /** A name that ends at its first NUL is the name both writers record. */
  lemma CertsName(certs: seq<byte>, name: seq<byte>)
    requires |name| < |certs| && certs[..|name|] == name && certs[|name|] == 0
    requires forall k :: 0 <= k < |name| ==> name[k] != 0
    ensures certs[..StrLen(certs)] == name
  {
    assert forall k :: 0 <= k < |name| ==> certs[k] == name[k];
  }

  /** Two buffers that started alike and were written by either writer end alike. */
  lemma WritersAgree(was: seq<byte>, a: seq<byte>, b: seq<byte>, name: seq<byte>, uid: u32)
    requires |name| <= U32_MAX && Over(was, a, NativeRecord(name, uid)) && Over(was, b, NativeRecord(name, uid))
    ensures a == b && ParseNative(a) == Some((name, uid))
  {
    var r := NativeRecord(name, uid);
    assert a == r + a[|r|..];
    NativeReadsBack(name, uid, a[|r|..]);
  }

  /** libteec's writer: one size test up front, then the four fields. */
  method TEEGetNativeSACaInfo(certs: seq<byte>, uid: u32, buf: array<byte>) returns (ok: bool)
    requires |certs| == CERTS_SIZE && buf.Length <= U32_MAX
    modifies buf
    ensures ok <==> |NativeRecord(certs[..StrLen(certs)], uid)| <= buf.Length
    ensures ok ==> Over(old(buf[..]), buf[..], NativeRecord(certs[..StrLen(certs)], uid))
    ensures !ok ==> buf[..] == old(buf[..])
  {
    if buf.Length == 0 {
      return false;
    }
    var n := StrLen(certs);
    if buf.Length < 4 + n + 4 + 4 {
      return false;
    }
    ghost var was := buf[..];
    var name := certs[..n];
    ok := Append(buf, was, [], 0, buf.Length, Le32(n));
    ok := Append(buf, was, [] + Le32(n), 4, buf.Length - 4, name);
    ok := Append(buf, was, [] + Le32(n) + name, 4 + n, buf.Length - 4 - n, Le32(4));
    ok := Append(buf, was, [] + Le32(n) + name + Le32(4), 8 + n, buf.Length - 8 - n, Le32(uid));
    assert [] + Le32(n) == Le32(n);
  }

  /** teecd's writer: the space left is counted down field by field. */
  method SetPathToBuf(buf: array<byte>, ghost was: seq<byte>, inputLen: u32, path: seq<byte>)
    returns (ok: bool, len: u32, left: u32)
    requires |path| < MAX_PATH_LENGTH && inputLen == buf.Length && Over(was, buf[..], [])
    modifies buf
    ensures ok ==> 4 + |path| <= buf.Length && len == 4 + |path| && left == inputLen - len
    ensures ok ==> Over(was, buf[..], Le32(|path|) + path)
    ensures 4 + |path| < buf.Length ==> ok
  {
    len, left := 0, inputLen;
    if inputLen < 4 {
      return false, len, left;
    }
    ok := Append(buf, was, [], 0, inputLen, Le32(|path|));
    assert [] + Le32(|path|) == Le32(|path|);
    len, left := 4, inputLen - 4;
    if |path| > left {
      return false, len, left;
    }
    ok := Append(buf, was, Le32(|path|), 4, left, path);
    if ok {
      len, left := len + |path|, left - |path|;
    }
  }

  method SetUidToBuf(buf: array<byte>, ghost was: seq<byte>, ghost done: seq<byte>, at: nat, len: u32, inputLen: u32, uid: u32)
    returns (ok: bool, len': u32)
    requires at == len == |done| && at + inputLen == buf.Length <= U32_MAX && Over(was, buf[..], done)
    modifies buf
    ensures ok <==> 8 <= inputLen
    ensures ok ==> Over(was, buf[..], done + Le32(4) + Le32(uid)) && len' == len + 8
  {
    len' := len;
    if inputLen < 4 {
      return false, len';
    }
    ok := Append(buf, was, done, at, inputLen, Le32(4));
    len' := len' + 4;
    if 4 > inputLen - 4 {
      return false, len';
    }
    ok := Append(buf, was, done + Le32(4), at + 4, inputLen - 4, Le32(uid));
    len' := len' + 4;
  }

  /** Both writers accept the same buffers and leave the same bytes in them. */
  method TeeGetNativeCert(pkgName: Option<seq<byte>>, uid: u32, buf: array<byte>) returns (ok: bool, len: u32)
    requires buf.Length <= U32_MAX && (pkgName.Some? ==> |pkgName.value| < MAX_PATH_LENGTH)
    modifies buf
    ensures ok <==> pkgName.Some? && |NativeRecord(pkgName.value, uid)| <= buf.Length
    ensures ok ==> Over(old(buf[..]), buf[..], NativeRecord(pkgName.value, uid)) && len == |NativeRecord(pkgName.value, uid)|
  {
    if pkgName.None? {
      return false, buf.Length;
    }
    var path := pkgName.value;
    ghost var was := buf[..];
    var left;
    ok, len, left := SetPathToBuf(buf, was, buf.Length, path);
    if ok {
      ok, len := SetUidToBuf(buf, was, Le32(|path|) + path, 4 + |path|, len, left, uid);
    }
  }

  // ---------------------------------------------------------------- installed applications

  /** Package name, then the two halves of an ECC key inside an outer length. */
  function HapRecord(name: seq<byte>, key: seq<byte>): seq<byte>
    requires |name| + |key| <= CERTS_SIZE
  {
    var half := |key| / 2;
    Le32(|name|) + name + Le32(|key| + 8) + Le32(half) + key[..half] + Le32(half) + key[half..2 * half]
  }

  method FillEccHapCaInfo(name: seq<byte>, key: seq<byte>, certs: array<byte>) returns (ok: bool)
    requires certs.Length == CERTS_SIZE && |key| <= U32_MAX
    modifies certs
    ensures ok <==> 16 + |name| + |key| <= CERTS_SIZE && !(key == [] && |name| == CERTS_SIZE - 16)
    ensures ok ==> Over(old(certs[..]), certs[..], HapRecord(name, key))
  {
    if 4 + |name| + 4 + 8 + |key| > CERTS_SIZE {
      return false;
    }
    ghost var was := certs[..];
    var half := |key| / 2;
    var x, y := key[..half], key[half..2 * half];
    ghost var done := HapHead(name, key);
    WriteHapHead(certs, name, key);
    var offset := 12 + |name|;
    ok := Append(certs, was, done, offset, CERTS_SIZE - offset, x);
    if !ok {
      return;
    }
    offset := offset + half;
    ok := Append(certs, was, done + x, offset, CERTS_SIZE - offset, Le32(half));
    offset := offset + 4;
    ok := Append(certs, was, done + x + Le32(half), offset, CERTS_SIZE - offset, y);
  }

  function HapHead(name: seq<byte>, key: seq<byte>): (s: seq<byte>)
    requires |name| + |key| <= CERTS_SIZE
    ensures |s| == 12 + |name|
  {
    Le32(|name|) + name + Le32(|key| + 8) + Le32(|key| / 2)
  }

  method WriteHapHead(certs: array<byte>, name: seq<byte>, key: seq<byte>)
    requires certs.Length == CERTS_SIZE && 16 + |name| + |key| <= CERTS_SIZE
    modifies certs
    ensures Over(old(certs[..]), certs[..], HapHead(name, key))
  {
    ghost var was := certs[..];
    var n := |name|;
    var _ := Append(certs, was, [], 0, 4, Le32(n));
    var _ := Append(certs, was, [] + Le32(n), 4, CERTS_SIZE - 4, name);
    var _ := Append(certs, was, [] + Le32(n) + name, 4 + n, 4, Le32(|key| + 8));
    var _ := Append(certs, was, [] + Le32(n) + name + Le32(|key| + 8), 8 + n, 4, Le32(|key| / 2));
    assert [] + Le32(n) == Le32(n);
  }

  // ---------------------------------------------------------------- reading them back

  /** A length and that many bytes, and what follows them. */
  function Field(s: seq<byte>): (r: Option<(seq<byte>, seq<byte>)>) {
    if |s| < 4 || |s| < 4 + FromLe32(s[..4]) then None
    else
      var n := FromLe32(s[..4]);
      Some((s[4..4 + n], s[4 + n..]))
  }

  function WithField(f: seq<byte>, rest: seq<byte>): seq<byte>
    requires |f| <= U32_MAX
  {
    Le32(|f|) + f + rest
  }

  lemma FieldReadsBack(f: seq<byte>, rest: seq<byte>)
    requires |f| <= U32_MAX
    ensures Field(WithField(f, rest)) == Some((f, rest))
  {
    var s := WithField(f, rest);
    assert s[..4] == Le32(|f|);
    Le32RoundTrip(|f|);
  }

  function ParseNative(s: seq<byte>): Option<(seq<byte>, u32)> {
    var name := Field(s);
    if name.None? then None
    else
      var uid := Field(name.value.1);
      if uid.None? || |uid.value.0| != 4 then None else Some((name.value.0, FromLe32(uid.value.0)))
  }

  /** The name and the uid come back from the record, so no two clients share one. */
  lemma NativeReadsBack(name: seq<byte>, uid: u32, rest: seq<byte>)
    requires |name| <= U32_MAX
    ensures ParseNative(NativeRecord(name, uid) + rest) == Some((name, uid))
  {
    var tail := Le32(4) + Le32(uid) + rest;
    assert NativeRecord(name, uid) + rest == WithField(name, tail);
    FieldReadsBack(name, tail);
    FieldReadsBack(Le32(uid), rest);
    Le32RoundTrip(uid);
  }

  // A key, as its lengths say.
  datatype Key = Key(x: seq<byte>, y: seq<byte>, keyLen: u32)

  function ParseKey(s: seq<byte>): Option<Key> {
    if |s| < 4 then None
    else
      var x := Field(s[4..]);
      if x.None? then None
      else
        var y := Field(x.value.1);
        if y.None? then None else Some(Key(x.value.0, y.value.0, FromLe32(s[..4])))
  }

  function ParseHap(s: seq<byte>): Option<(seq<byte>, Key)> {
    var name := Field(s);
    if name.None? || ParseKey(name.value.1).None? then None
    else Some((name.value.0, ParseKey(name.value.1).value))
  }

  function KeyPart(keyLen: u32, x: seq<byte>, y: seq<byte>, rest: seq<byte>): seq<byte>
    requires |x| <= U32_MAX && |y| <= U32_MAX
  {
    Le32(keyLen) + WithField(x, WithField(y, rest))
  }

  lemma KeyReadsBack(keyLen: u32, x: seq<byte>, y: seq<byte>, rest: seq<byte>)
    requires |x| <= U32_MAX && |y| <= U32_MAX
    ensures ParseKey(KeyPart(keyLen, x, y, rest)) == Some(Key(x, y, keyLen))
  {
    var s := KeyPart(keyLen, x, y, rest);
    assert s[..4] == Le32(keyLen) && s[4..] == WithField(x, WithField(y, rest));
    Le32RoundTrip(keyLen);
    FieldReadsBack(x, WithField(y, rest));
    FieldReadsBack(y, rest);
  }

  lemma HapParses(name: seq<byte>, tail: seq<byte>, key: Key)
    requires |name| <= U32_MAX && ParseKey(tail) == Some(key)
    ensures ParseHap(WithField(name, tail)) == Some((name, key))
  {
    FieldReadsBack(name, tail);
  }

  lemma HapShape(name: seq<byte>, key: seq<byte>, rest: seq<byte>, x: seq<byte>, y: seq<byte>)
    requires |name| + |key| <= CERTS_SIZE && |x| == |y| == |key| / 2
    requires x == key[..|x|] && y == key[|x|..2 * |x|]
    ensures HapRecord(name, key) + rest == WithField(name, KeyPart(|key| + 8, x, y, rest))
  {
  }

  /** The record gives back the name and both halves; the halves make up the key, and its outer length covers
      exactly the two inner fields, when the key's length is even; an odd key loses its last byte. */
  lemma HapReadsBack(name: seq<byte>, key: seq<byte>, rest: seq<byte>, x: seq<byte>, y: seq<byte>)
    requires 16 + |name| + |key| <= CERTS_SIZE && |x| == |y| == |key| / 2
    requires x == key[..|x|] && y == key[|x|..2 * |x|]
    ensures ParseHap(HapRecord(name, key) + rest) == Some((name, Key(x, y, |key| + 8)))
    ensures |key| % 2 == 0 <==> x + y == key
    ensures |key| % 2 == 0 <==> 4 + |x| + 4 + |y| == |key| + 8
  {
    assert x + y == key[..2 * |x|];
    assert |key| % 2 == 0 ==> key[..2 * |x|] == key;
    var tail := KeyPart(|key| + 8, x, y, rest);
    HapShape(name, key, rest, x, y);
    assert ParseKey(tail) == Some(Key(x, y, |key| + 8)) by {
      KeyReadsBack(|key| + 8, x, y, rest);
    }
    HapParses(name, tail, Key(x, y, |key| + 8));
  }

  /** A key of three bytes comes back as its first two. */
  lemma OddKeyLosesLastByte(name: seq<byte>, rest: seq<byte>)
    requires |name| <= CERTS_SIZE - 19
    ensures ParseHap(HapRecord(name, [1, 2, 3]) + rest) == Some((name, Key([1], [2], 11)))
  {
    HapReadsBack(name, [1, 2, 3], rest, [1], [2]);
  }
}
