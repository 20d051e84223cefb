/** The tar writer behind tlogcat's archives: ustar headers written in place, file content in blocks of 512. */
module Tar {
  import opened Words
  import opened Wrappers
  import opened Sequences

  const HEADER_NUM := 512
  const CHECK_SUM_APPEND := 256
  const NAME_LEN := 100
  const FILE_SIZE := 12
  const CHECK_SUM_LEN := 8
  const LOG_FILE_INDEX_MAX := 4
  const FILE_NAME_INVALID_LEN := 8
  const SLASH: byte := 0x2F
  const SPACE: byte := 0x20

  const FILE_MODE: seq<byte> := [0x31, 0x30, 0x30, 0x36, 0x36, 0x36, 0x20, 0]
  const ID_BYTE: seq<byte> := [0x20, 0x20, 0x20, 0x20, 0x20, 0x30, 0x20, 0x00, 0x20, 0x20, 0x20, 0x20, 0x20, 0x30, 0x20, 0x00]

  // One of the names handed to the archiver: whether it is a regular file, and what reading it gives.
  datatype Input = Input(path: seq<byte>, regular: bool, content: seq<byte>)

  // A file as it is read back from an archive.
  datatype File = File(name: seq<byte>, content: seq<byte>)

  // ---------------------------------------------------------------- sums and octal numbers

  function Sum(s: seq<byte>): nat {
    if s == [] then 0 else Sum(s[..|s| - 1]) + s[|s| - 1] as int
  }

  function Zeros(n: nat): seq<byte> {
    seq(n, _ => 0)
  }

  /** The digits `%o` prints. */
  function Octal(n: nat): (d: seq<byte>)
    ensures |d| > 0 && forall i :: 0 <= i < |d| ==> IsDigit(d[i])
  {
    if n < 8 then [0x30 + n] else Octal(n / 8) + [0x30 + n % 8]
  }

  predicate IsDigit(b: byte) {
    0x30 <= b <= 0x37
  }

  function Pow8(k: nat): nat {
    if k == 0 then 1 else 8 * Pow8(k - 1)
  }

  lemma {:induction false} OctalLength(n: nat, k: nat)
    requires k > 0 && n < Pow8(k)
    ensures |Octal(n)| <= k
  {
    if n >= 8 {
      OctalLength(n / 8, k - 1);
    }
  }

  /** The number a run of octal digits stands for. */
  function Value(d: seq<byte>): int {
    if d == [] then 0 else 8 * Value(d[..|d| - 1]) + d[|d| - 1] as int - 0x30
  }

  lemma {:induction false} OctalValue(n: nat)
    ensures Value(Octal(n)) == n
  {
    if n >= 8 {
      OctalValue(n / 8);
      assert Octal(n)[..|Octal(n)| - 1] == Octal(n / 8);
    } else {
      assert Octal(n)[..0] == [];
    }
  }

  /** The digits at the front of a header field. */
  function Digits(f: seq<byte>): seq<byte> {
    if f == [] || !IsDigit(f[0]) then [] else [f[0]] + Digits(f[1..])
  }

  lemma {:induction false} DigitsOf(d: seq<byte>, f: seq<byte>)
    requires |d| < |f| && d == f[..|d|] && !IsDigit(f[|d|])
    requires forall i :: 0 <= i < |d| ==> IsDigit(d[i])
    ensures Digits(f) == d
  {
    if d != [] {
      assert f[0] == d[0];
      DigitsOf(d[1..], f[1..]);
    }
  }

  lemma {:induction false} SumConcat(a: seq<byte>, b: seq<byte>)
    ensures Sum(a + b) == Sum(a) + Sum(b)
  {
    if b == [] {
      assert a + b == a;
    } else {
      var n := |b| - 1;
      SumConcat(a, b[..n]);
      assert (a + b)[..|a + b| - 1] == a + b[..n];
    }
  }

  lemma {:induction false} SumZeros(n: nat)
    ensures Sum(Zeros(n)) == 0
  {
    if n > 0 {
      SumZeros(n - 1);
      assert Zeros(n)[..n - 1] == Zeros(n - 1);
    }
  }

  lemma {:induction false} SumBound(s: seq<byte>)
    ensures Sum(s) <= 255 * |s|
  {
    if s != [] {
      SumBound(s[..|s| - 1]);
    }
  }

  // ---------------------------------------------------------------- the header

  function NameField(name: seq<byte>): seq<byte> {
    if |name| >= NAME_LEN then name[..NAME_LEN - 1] else name
  }

  /** snprintf_s of a number into a buffer: its digits, a NUL, and what the buffer held before. */
  function Print(buf: seq<byte>, n: nat): seq<byte>
    requires |Octal(n)| < |buf|
  {
    Octal(n) + [0] + buf[|Octal(n)| + 1..]
  }

  function SizeField(size: nat): (f: seq<byte>)
    ensures |f| == FILE_SIZE
  {
    SizeFits(size);
    Print(Zeros(FILE_SIZE), Wrap32(size))
  }

  lemma SizeFits(size: nat)
    ensures |Octal(Wrap32(size))| < FILE_SIZE
  {
    assert Pow8(11) == 0x2_0000_0000;
    OctalLength(Wrap32(size), 11);
  }

  /** The running sum of what is written, and 256 for a checksum field of spaces. */
  function CheckSum(name: seq<byte>, size: nat): nat {
    Sum(NameField(name)) + Sum(FILE_MODE) + Sum(ID_BYTE) + Sum(SizeField(size)) + CHECK_SUM_APPEND
  }

  lemma CheckSumFits(name: seq<byte>, size: nat)
    ensures |Octal(CheckSum(name, size))| < CHECK_SUM_LEN
  {
    SumBound(NameField(name));
    SumBound(FILE_MODE);
    SumBound(ID_BYTE);
    SumBound(SizeField(size));
    assert Pow8(6) == 0x4_0000;
    OctalLength(CheckSum(name, size), 6);
  }

  /** The first eight bytes of the print buffer, which still holds what is left of the size's digits. */
  function CheckField(name: seq<byte>, size: nat): (f: seq<byte>)
    ensures |f| == CHECK_SUM_LEN
  {
    CheckSumFits(name, size);
    Print(SizeField(size), CheckSum(name, size))[..CHECK_SUM_LEN]
  }

  function NamePart(name: seq<byte>): (f: seq<byte>)
    ensures |f| == NAME_LEN
  {
    NameField(name) + Zeros(NAME_LEN - |NameField(name)|)
  }

  function Owners(name: seq<byte>): (f: seq<byte>)
    ensures |f| == 124
  {
    NamePart(name) + FILE_MODE + ID_BYTE
  }

  function BeforeCheck(name: seq<byte>, size: nat): (f: seq<byte>)
    ensures |f| == 148
  {
    Owners(name) + SizeField(size) + Zeros(12)
  }

  /** The block in front of a file; all zero when the file is empty. */
  function HeaderBytes(name: seq<byte>, size: nat): (h: seq<byte>)
    ensures |h| == HEADER_NUM
  {
    if size == 0 then Zeros(HEADER_NUM) else BeforeCheck(name, size) + CheckField(name, size) + Zeros(356)
  }

  method WriteOneUint(startIndex: nat, unitLen: nat, input: seq<byte>, output: array<byte>) returns (sum: nat)
    requires unitLen <= |input| && startIndex + unitLen <= output.Length
    modifies output
    ensures Spliced(old(output[..]), output[..], startIndex, input[..unitLen])
    ensures sum == Sum(input[..unitLen])
  {
    sum := 0;
    for i := 0 to unitLen
      invariant sum == Sum(input[..i])
      invariant forall k :: startIndex <= k < startIndex + i ==> output[k] == input[k - startIndex]
      invariant forall k :: 0 <= k < startIndex || startIndex + i <= k < output.Length ==> output[k] == old(output[k])
    {
      output[i + startIndex] := input[i];
      sum := sum + input[i] as int;
      assert input[..i + 1][..i] == input[..i];
    }
  }

  /** A header of which only the front is written. */
  ghost predicate Filled(h: seq<byte>, done: seq<byte>) {
    && |h| == HEADER_NUM && |done| <= HEADER_NUM && h[..|done|] == done
    && forall k :: |done| <= k < HEADER_NUM ==> h[k] == 0
  }

  lemma FilledMore(h: seq<byte>, h': seq<byte>, done: seq<byte>, data: seq<byte>, pad: nat)
    requires Filled(h, done) && Spliced(h, h', |done|, data) && |done| + |data| + pad <= HEADER_NUM
    ensures Filled(h', done + data + Zeros(pad))
  {
    var done' := done + data + Zeros(pad);
    forall k | 0 <= k < |done'|
      ensures h'[k] == done'[k]
    {
      assert k < |done| ==> h[..|done|][k] == h[k];
    }
  }

  /** One field of the header, and the zeros that pad it. */
  method WriteField(header: array<byte>, ghost done: seq<byte>, j: nat, len: nat, input: seq<byte>, ghost pad: nat,
                    ghost data: seq<byte>, ghost done': seq<byte>)
    returns (sum: nat)
    requires Filled(header[..], done) && j == |done| && len <= |input| && j + len + pad <= HEADER_NUM
    requires header.Length == HEADER_NUM && data == input[..len] && done' == done + data + Zeros(pad)
    modifies header
    ensures Filled(header[..], done') && sum == Sum(data)
  {
    ghost var was := header[..];
    sum := WriteOneUint(j, len, input, header);
    FilledMore(was, header[..], done, input[..len], pad);
  }

  /** Name, mode and owners. */
  method WriteOwners(header: array<byte>, fileName: seq<byte>) returns (sum: nat)
    requires header.Length == HEADER_NUM && header[..] == Zeros(HEADER_NUM)
    modifies header
    ensures Filled(header[..], Owners(fileName))
    ensures sum == Sum(NameField(fileName)) + Sum(FILE_MODE) + Sum(ID_BYTE)
  {
    var nameLen := if |fileName| >= NAME_LEN then NAME_LEN - 1 else |fileName|;
    sum := WriteField(header, [], 0, nameLen, fileName, NAME_LEN - nameLen, NameField(fileName), NamePart(fileName));
    var n := WriteField(header, NamePart(fileName), 100, 8, FILE_MODE, 0, FILE_MODE, NamePart(fileName) + FILE_MODE);
    sum := sum + n;
    n := WriteField(header, NamePart(fileName) + FILE_MODE, 108, 16, ID_BYTE, 0, ID_BYTE, Owners(fileName));
    sum := sum + n;
  }

  method WriteHeader(header: array<byte>, fileName: seq<byte>, fileSize: nat)
    requires header.Length == HEADER_NUM && header[..] == Zeros(HEADER_NUM)
    modifies header
    ensures header[..] == HeaderBytes(fileName, fileSize)
  {
    if fileSize == 0 {
      return;
    }
    var sum := WriteOwners(header, fileName);
    SizeFits(fileSize);
    var buf := Print(Zeros(FILE_SIZE), Wrap32(fileSize));
    var n := WriteField(header, Owners(fileName), 124, FILE_SIZE, buf, 12, buf, BeforeCheck(fileName, fileSize));
    sum := sum + n + CHECK_SUM_APPEND;
    CheckSumFits(fileName, fileSize);
    buf := Print(buf, sum);
    ghost var h := BeforeCheck(fileName, fileSize) + CheckField(fileName, fileSize) + Zeros(356);
    n := WriteField(header, BeforeCheck(fileName, fileSize), 148, CHECK_SUM_LEN, buf, 356, CheckField(fileName, fileSize), h);
    assert header[..] == h;
  }

  // ---------------------------------------------------------------- the archive

  function Blocks(size: nat): nat {
    (size + HEADER_NUM - 1) / HEADER_NUM
  }

  /** `content` cut or filled up with zeros to `len` bytes. */
  function Fit(content: seq<byte>, len: nat): (s: seq<byte>)
    ensures |s| == len
  {
    if len <= |content| then content[..len] else content + Zeros(len - |content|)
  }

  function Padded(content: seq<byte>): (s: seq<byte>)
    ensures |s| == HEADER_NUM * Blocks(|content|) && |content| <= |s| && s[..|content|] == content
  {
    Fit(content, HEADER_NUM * Blocks(|content|))
  }

  lemma NextBlock(content: seq<byte>, pos: nat, block: seq<byte>)
    requires pos < |content|
    requires var n := if |content| - pos < HEADER_NUM then |content| - pos else HEADER_NUM;
      block == content[pos..pos + n] + Zeros(HEADER_NUM - n)
    ensures Fit(content, pos + HEADER_NUM) == Fit(content, pos) + block
  {
  }

  lemma BlocksEnd(len: nat, pos: nat)
    requires pos % HEADER_NUM == 0 && len <= pos < len + HEADER_NUM
    ensures pos == HEADER_NUM * Blocks(len)
  {
  }

  /** Each block is zeroed, then read over from the file. */
  method WriteZipContent(gz: seq<byte>, content: seq<byte>) returns (out: seq<byte>)
    ensures out == gz + Padded(content)
  {
    out := gz;
    var fileSize: int := |content|;
    var pos := 0;
    while fileSize > 0
      invariant fileSize == |content| - pos && pos % HEADER_NUM == 0 && fileSize > -HEADER_NUM
      invariant out == gz + Fit(content, pos)
      decreases fileSize
    {
      var n := if |content| - pos < HEADER_NUM then |content| - pos else HEADER_NUM;
      var block := content[pos..pos + n] + Zeros(HEADER_NUM - n);
      NextBlock(content, pos, block);
      Assoc(gz, Fit(content, pos), block);
      out := out + block;
      pos := pos + HEADER_NUM;
      fileSize := fileSize - HEADER_NUM;
    }
    BlocksEnd(|content|, pos);
  }

  /** strrchr: the last slash. */
  function LastSlash(path: seq<byte>): (r: Option<nat>)
    ensures r.Some? ==> r.value < |path| && path[r.value] == SLASH
    ensures forall k :: (if r.Some? then r.value < k else 0 <= k) && k < |path| ==> path[k] != SLASH
  {
    if path == [] then None
    else if path[|path| - 1] == SLASH then Some(|path| - 1)
    else LastSlash(path[..|path| - 1])
  }

  predicate Skipped(i: Option<Input>) {
    i.None? || !i.value.regular
  }

  predicate Named(i: Input) {
    LastSlash(i.path).Some? && |i.path| - LastSlash(i.path).value >= FILE_NAME_INVALID_LEN
  }

  /** A path is one to archive exactly if what follows its last slash has at least seven characters. */
  lemma NamedExactly(i: Input, dir: seq<byte>, base: seq<byte>)
    requires i.path == dir + [SLASH] + base && SLASH !in base
    ensures (Named(i) <==> |base| >= 7) && (Named(i) ==> BaseName(i) == base)
  {
    var p := i.path;
    assert p[|dir|] == SLASH && forall k :: |dir| < k < |p| ==> p[k] == base[k - |dir| - 1];
    assert LastSlash(p) == Some(|dir|);
    assert p[|dir| + 1..] == base;
  }

  lemma UnnamedExactly(i: Input)
    requires SLASH !in i.path
    ensures !Named(i)
  {
  }

  function BaseName(i: Input): seq<byte>
    requires Named(i)
  {
    i.path[LastSlash(i.path).value + 1..]
  }

  function Single(f: File): seq<byte> {
    HeaderBytes(f.name, |f.content|) + Padded(f.content)
  }

  method WriteHeaderAndContent(name: seq<byte>, content: seq<byte>, gz: seq<byte>) returns (out: seq<byte>)
    ensures out == gz + Single(File(name, content))
  {
    var header := new byte[HEADER_NUM](_ => 0);
    assert header[..] == Zeros(HEADER_NUM);
    WriteHeader(header, name, |content|);
    var h := header[..];
    out := WriteZipContent(gz + h, content);
    Assoc(gz, h, Padded(content));
  }

  /** None where the archive must stop. */
  function AfterOne(i: Input, gz: seq<byte>): Option<seq<byte>> {
    if !i.regular then Some(gz)
    else if !Named(i) then None
    else Some(gz + Single(File(BaseName(i), i.content)))
  }

  method WriteSingleFile(i: Input, gz: seq<byte>) returns (ok: bool, out: seq<byte>)
    ensures ok <==> AfterOne(i, gz).Some?
    ensures out == if ok then AfterOne(i, gz).value else gz
  {
    if !i.regular {
      return true, gz;
    }
    var s1 := LastSlash(i.path);
    if s1.None? || |i.path| - s1.value < FILE_NAME_INVALID_LEN {
      return false, gz;
    }
    out := WriteHeaderAndContent(BaseName(i), i.content, gz);
    return true, out;
  }

  /** The files that get written: all regular ones, until a name is refused. */
  function Taken(inputs: seq<Option<Input>>): seq<File> {
    if inputs == [] then []
    else if Skipped(inputs[0]) then Taken(inputs[1..])
    else if !Named(inputs[0].value) then []
    else [File(BaseName(inputs[0].value), inputs[0].value.content)] + Taken(inputs[1..])
  }

  predicate AllNamed(inputs: seq<Option<Input>>) {
    forall k :: 0 <= k < |inputs| && !Skipped(inputs[k]) ==> Named(inputs[k].value)
  }

  function Archive(files: seq<File>): seq<byte> {
    if files == [] then [] else Single(files[0]) + Archive(files[1..])
  }

  /** The stream once the remaining inputs are written too. */
  function Finished(out: seq<byte>, inputs: seq<Option<Input>>): seq<byte> {
    out + Archive(Taken(inputs)) + if AllNamed(inputs) then Zeros(HEADER_NUM) else []
  }

  lemma SkippedStep(out: seq<byte>, inputs: seq<Option<Input>>)
    requires inputs != [] && Skipped(inputs[0])
    ensures Finished(out, inputs) == Finished(out, inputs[1..])
  {
    assert inputs == [inputs[0]] + inputs[1..];
    assert AllNamed(inputs) <==> AllNamed(inputs[1..]);
  }

  lemma TakenStep(out: seq<byte>, inputs: seq<Option<Input>>)
    requires inputs != [] && !Skipped(inputs[0])
    ensures Named(inputs[0].value) ==>
      Finished(out, inputs) == Finished(AfterOne(inputs[0].value, out).value, inputs[1..])
    ensures !Named(inputs[0].value) ==> Finished(out, inputs) == out
  {
    var i := inputs[0].value;
    assert inputs == [inputs[0]] + inputs[1..];
    assert AllNamed(inputs) <==> Named(i) && AllNamed(inputs[1..]);
    if Named(i) {
      var f := File(BaseName(i), i.content);
      var one, rest := Single(f), Taken(inputs[1..]);
      assert Taken(inputs) == [f] + rest && ([f] + rest)[1..] == rest;
      Assoc(out, one, Archive(rest));
    }
  }

  /** Files one after the other, and one zero block at the end unless a name was refused. */
  method TarZipFiles(inputs: seq<Option<Input>>) returns (out: seq<byte>)
    ensures out == if |inputs| == LOG_FILE_INDEX_MAX then Finished([], inputs) else []
  {
    out := [];
    if |inputs| != LOG_FILE_INDEX_MAX {
      return;
    }
    for i := 0 to |inputs|
      invariant Finished(out, inputs[i..]) == Finished([], inputs)
    {
      var rest := inputs[i..];
      assert rest[1..] == inputs[i + 1..];
      if Skipped(inputs[i]) {
        SkippedStep(out, rest);
      } else {
        TakenStep(out, rest);
      }
      if inputs[i].None? {
        continue;
      }
      var ok;
      ok, out := WriteSingleFile(inputs[i].value, out);
      if !ok {
        return;
      }
    }
    out := out + Zeros(HEADER_NUM);
  }

  // ---------------------------------------------------------------- reading it back

  function ParseOctal(f: seq<byte>): (n: nat) {
    DigitsAreDigits(f);
    ValueOfDigits(Digits(f));
    Value(Digits(f))
  }

  lemma DigitsAreDigits(f: seq<byte>)
    ensures forall i :: 0 <= i < |Digits(f)| ==> IsDigit(Digits(f)[i])
  {
  }

  lemma ValueOfDigits(d: seq<byte>)
    requires forall i :: 0 <= i < |d| ==> IsDigit(d[i])
    ensures Value(d) >= 0
  {
  }

  function UpToNul(s: seq<byte>): seq<byte> {
    if s == [] || s[0] == 0 then [] else [s[0]] + UpToNul(s[1..])
  }

  const SPACES: seq<byte> := [SPACE, SPACE, SPACE, SPACE, SPACE, SPACE, SPACE, SPACE]

  /** The ustar rule: the sum of the header's bytes, the checksum field taken as spaces. */
  predicate CheckSumHolds(h: seq<byte>)
    requires |h| == HEADER_NUM
  {
    ParseOctal(h[148..156]) == Sum(h[..148] + SPACES + h[156..])
  }

  /** The file at the front of a ustar stream and what follows it; None where it is cut short or its checksum is wrong. */
  function FirstMember(s: seq<byte>): (r: Option<(File, seq<byte>)>)
    requires |s| >= HEADER_NUM
    ensures r.Some? ==> |r.value.1| < |s|
  {
    var h := s[..HEADER_NUM];
    var size := ParseOctal(h[124..136]);
    var end := HEADER_NUM + HEADER_NUM * Blocks(size);
    if !CheckSumHolds(h) || |s| < end then None
    else Some((File(UpToNul(h[..NAME_LEN]), s[HEADER_NUM..HEADER_NUM + size]), s[end..]))
  }

  /** A reader of ustar streams, up to an all-zero block. */
  function Parse(s: seq<byte>): Option<seq<File>>
    decreases |s|
  {
    if s == [] then Some([])
    else if |s| < HEADER_NUM then None
    else if s[..HEADER_NUM] == Zeros(HEADER_NUM) then Some([])
    else
      var m := FirstMember(s);
      if m.None? || Parse(m.value.1).None? then None else Some([m.value.0] + Parse(m.value.1).value)
  }

  predicate NoNul(s: seq<byte>) {
    forall i :: 0 <= i < |s| ==> s[i] != 0
  }

  lemma {:induction false} UpToNulOf(s: seq<byte>, n: nat)
    requires n < |s| && s[n] == 0 && NoNul(s[..n])
    ensures UpToNul(s) == s[..n]
  {
    if n > 0 {
      assert s[0] == s[..n][0];
      assert s[1..][..n - 1] == s[..n][1..];
      UpToNulOf(s[1..], n - 1);
      assert s[..n] == [s[0]] + s[..n][1..];
    }
  }

  lemma PrintParses(buf: seq<byte>, n: nat, f: seq<byte>)
    requires |Octal(n)| < |f| <= |buf| && f == Print(buf, n)[..|f|]
    ensures ParseOctal(f) == n
  {
    assert f[..|Octal(n)|] == Octal(n);
    DigitsOf(Octal(n), f);
    OctalValue(n);
  }

  /** The checksum written is the one the ustar rule asks for. */
  lemma CheckSumRight(name: seq<byte>, size: nat)
    requires size > 0
    ensures CheckSumHolds(HeaderBytes(name, size))
  {
    var h := HeaderBytes(name, size);
    CheckSumFits(name, size);
    assert h[148..156] == CheckField(name, size);
    PrintParses(SizeField(size), CheckSum(name, size), h[148..156]);
    assert h[..148] == BeforeCheck(name, size) && h[156..] == Zeros(356);
    HeaderSum(name, size);
  }

  lemma OwnersSum(name: seq<byte>)
    ensures Sum(Owners(name)) == Sum(NameField(name)) + Sum(FILE_MODE) + Sum(ID_BYTE)
  {
    SumConcat(NamePart(name) + FILE_MODE, ID_BYTE);
    SumConcat(NamePart(name), FILE_MODE);
    SumConcat(NameField(name), Zeros(NAME_LEN - |NameField(name)|));
    SumZeros(NAME_LEN - |NameField(name)|);
  }

  lemma HeaderSum(name: seq<byte>, size: nat)
    ensures Sum(BeforeCheck(name, size) + SPACES + Zeros(356)) == CheckSum(name, size)
  {
    SumConcat(BeforeCheck(name, size) + SPACES, Zeros(356));
    SumConcat(BeforeCheck(name, size), SPACES);
    SumConcat(Owners(name) + SizeField(size), Zeros(12));
    SumConcat(Owners(name), SizeField(size));
    OwnersSum(name);
    SumZeros(12);
    SumZeros(356);
    SumSpaces(8);
  }

  lemma {:induction false} SumSpaces(n: nat)
    requires n <= 8
    ensures Sum(SPACES[..n]) == 32 * n
    ensures n == 8 ==> Sum(SPACES) == CHECK_SUM_APPEND
  {
    if n > 0 {
      SumSpaces(n - 1);
      assert SPACES[..n][..n - 1] == SPACES[..n - 1];
    }
    if n == 8 {
      assert SPACES[..8] == SPACES;
    }
  }

  lemma NameReadsBack(name: seq<byte>, size: nat)
    requires size > 0 && NoNul(name)
    ensures UpToNul(HeaderBytes(name, size)[..NAME_LEN]) == NameField(name)
  {
    var h, n := HeaderBytes(name, size), NameField(name);
    assert h[..NAME_LEN] == NamePart(name);
    assert NamePart(name)[..|n|] == n;
    UpToNulOf(h[..NAME_LEN], |n|);
  }

  lemma SizeReadsBack(name: seq<byte>, size: nat)
    requires size > 0
    ensures ParseOctal(HeaderBytes(name, size)[124..136]) == Wrap32(size)
  {
    var h := HeaderBytes(name, size);
    SizeFits(size);
    assert h[124..136] == SizeField(size);
    PrintParses(Zeros(FILE_SIZE), Wrap32(size), h[124..136]);
  }

  /** A field that holds the number 0: blanks, the digit, a blank and a NUL. */
  predicate BlankZero(f: seq<byte>) {
    |f| == 8 && (forall k :: 0 <= k < 5 ==> f[k] == 0x20) && f[5] == 0x30 && f[6] == 0x20 && f[7] == 0
  }

  /** In ustar's places: a regular file of mode 0666, user and group 0, no time, and nothing behind the sum. */
  predicate Attributes(h: seq<byte>) {
    && |h| == HEADER_NUM
    && ParseOctal(h[100..108]) == 0x8000 + 6 * 64 + 6 * 8 + 6 && BlankZero(h[108..116]) && BlankZero(h[116..124])
    && (forall k :: 136 <= k < 148 ==> h[k] == 0) && (forall k :: 156 <= k < HEADER_NUM ==> h[k] == 0)
  }

  lemma AttributesReadBack(name: seq<byte>, size: nat)
    requires size > 0
    ensures Attributes(HeaderBytes(name, size))
  {
    ModeReadsBack();
    OwnerFields(name);
    ZeroFields(name, size);
    FrontOfHeader(name, size, 100, 108);
    FrontOfHeader(name, size, 108, 116);
    FrontOfHeader(name, size, 116, 124);
  }

  lemma ZeroFields(name: seq<byte>, size: nat)
    requires size > 0
    ensures var h := HeaderBytes(name, size);
      (forall k :: 136 <= k < 148 ==> h[k] == 0) && (forall k :: 156 <= k < HEADER_NUM ==> h[k] == 0)
  {
    var a, b, c := BeforeCheck(name, size), CheckField(name, size), Owners(name) + SizeField(size);
    forall k | 136 <= k < 148
      ensures HeaderBytes(name, size)[k] == 0
    {
      assert (a + b)[k] == a[k] == (c + Zeros(12))[k];
    }
  }

  lemma OwnerFields(name: seq<byte>)
    ensures Owners(name)[100..108] == FILE_MODE
    ensures BlankZero(Owners(name)[108..116]) && BlankZero(Owners(name)[116..124])
  {
    ThreeParts(NamePart(name), FILE_MODE, ID_BYTE, 8);
    var f := Owners(name);
    assert f[108..][..8] == f[108..116] && f[108..][8..] == f[116..124];
    assert FILE_MODE[..8] == FILE_MODE;
  }

  /** What stands in front of the size field. */
  lemma FrontOfHeader(name: seq<byte>, size: nat, i: nat, j: nat)
    requires size > 0 && i <= j <= 124
    ensures HeaderBytes(name, size)[i..j] == Owners(name)[i..j]
  {
    SliceOfFront(Owners(name), SizeField(size) + Zeros(12), i, j);
    Assoc(Owners(name), SizeField(size), Zeros(12));
    SliceOfFront(BeforeCheck(name, size), CheckField(name, size) + Zeros(356), i, j);
    Assoc(BeforeCheck(name, size), CheckField(name, size), Zeros(356));
  }

  lemma ValueMore(d: seq<byte>, x: byte)
    ensures Value(d + [x]) == 8 * Value(d) + x - 0x30
  {
    assert (d + [x])[..|d|] == d;
  }

  lemma ValueOfThree(a: byte, b: byte, c: byte)
    ensures Value([a, b, c]) == 64 * (a - 0x30) + 8 * (b - 0x30) + (c - 0x30)
  {
    ValueMore([], a);
    ValueMore([] + [a], b);
    ValueMore([] + [a] + [b], c);
    assert [] + [a] + [b] + [c] == [a, b, c];
  }

  /** Six digits are three digits and three more. */
  lemma ValueOfSix(d: seq<byte>, a: byte, b: byte, c: byte)
    ensures Value(d + [a] + [b] + [c]) == 512 * Value(d) + 64 * (a - 0x30) + 8 * (b - 0x30) + (c - 0x30)
  {
    ValueMore(d, a);
    ValueMore(d + [a], b);
    ValueMore(d + [a] + [b], c);
  }

  lemma ModeDigits()
    ensures Digits(FILE_MODE) == [0x31, 0x30, 0x30] + [0x36] + [0x36] + [0x36]
  {
    var d: seq<byte> := [0x31, 0x30, 0x30] + [0x36] + [0x36] + [0x36];
    assert FILE_MODE[..6] == d;
    DigitsOf(d, FILE_MODE);
  }

  lemma ModeReadsBack()
    ensures ParseOctal(FILE_MODE) == 0x8000 + 6 * 64 + 6 * 8 + 6
  {
    ModeDigits();
    ValueOfThree(0x31, 0x30, 0x30);
    ValueOfSix([0x31, 0x30, 0x30], 0x36, 0x36, 0x36);
  }

  /** A header reads back: the name, cut to 99 bytes, and the size, cut to 32 bits. */
  lemma HeaderReadsBack(name: seq<byte>, size: nat)
    requires size > 0 && NoNul(name)
    ensures var h := HeaderBytes(name, size);
      && h != Zeros(HEADER_NUM) && CheckSumHolds(h)
      && UpToNul(h[..NAME_LEN]) == NameField(name) && ParseOctal(h[124..136]) == Wrap32(size)
      && Attributes(h)
  {
    AttributesReadBack(name, size);
    assert HeaderBytes(name, size)[100] == FILE_MODE[0];
    CheckSumRight(name, size);
    NameReadsBack(name, size);
    SizeReadsBack(name, size);
  }

  predicate Writable(f: File) {
    NoNul(f.name) && |f.content| <= U32_MAX
  }

  /** What a reader finds: names cut to 99 bytes, and nothing from the first empty file on. */
  function ReadBack(files: seq<File>): seq<File> {
    if files == [] || files[0].content == [] then []
    else [File(NameField(files[0].name), files[0].content)] + ReadBack(files[1..])
  }

  lemma MemberParses(h: seq<byte>, data: seq<byte>, rest: seq<byte>)
    requires |h| == HEADER_NUM && h != Zeros(HEADER_NUM) && CheckSumHolds(h)
    requires |data| == HEADER_NUM * Blocks(ParseOctal(h[124..136]))
    ensures var file := File(UpToNul(h[..NAME_LEN]), data[..ParseOctal(h[124..136])]);
      Parse(h + data + rest) == if Parse(rest).None? then None else Some([file] + Parse(rest).value)
  {
    var size := ParseOctal(h[124..136]);
    ThreeParts(h, data, rest, size);
    var s := h + data + rest;
    assert FirstMember(s) == Some((File(UpToNul(h[..NAME_LEN]), data[..size]), rest)) by {
      FirstMemberIs(s, h, size, data, rest);
    }
  }

  lemma FirstMemberIs(s: seq<byte>, h: seq<byte>, size: nat, data: seq<byte>, rest: seq<byte>)
    requires s == h + data + rest && |h| == HEADER_NUM && |data| == HEADER_NUM * Blocks(size)
    requires CheckSumHolds(h) && size == ParseOctal(h[124..136])
    requires s[..HEADER_NUM] == h && s[HEADER_NUM..HEADER_NUM + size] == data[..size] && s[HEADER_NUM + |data|..] == rest
    ensures FirstMember(s) == Some((File(UpToNul(h[..NAME_LEN]), data[..size]), rest))
  {
  }

  lemma SingleReadsBack(f: File, rest: seq<byte>)
    requires Writable(f) && f.content != []
    ensures var s := Single(f) + rest;
      Parse(s) == if Parse(rest).None? then None else Some([File(NameField(f.name), f.content)] + Parse(rest).value)
  {
    HeaderReadsBack(f.name, |f.content|);
    assert Wrap32(|f.content|) == |f.content|;
    MemberParses(HeaderBytes(f.name, |f.content|), Padded(f.content), rest);
  }

  lemma {:induction false} ArchiveReadsBack(files: seq<File>, tail: seq<byte>)
    requires forall k :: 0 <= k < |files| ==> Writable(files[k])
    requires tail == [] || tail == Zeros(HEADER_NUM)
    ensures Parse(Archive(files) + tail) == Some(ReadBack(files))
  {
    if files == [] {
      assert Archive(files) + tail == tail;
      assert tail != [] ==> tail[..HEADER_NUM] == tail;
    } else {
      var rest := Archive(files[1..]) + tail;
      assert Archive(files) + tail == Single(files[0]) + rest;
      if files[0].content == [] {
        assert (Single(files[0]) + rest)[..HEADER_NUM] == Zeros(HEADER_NUM);
      } else {
        ArchiveReadsBack(files[1..], tail);
        SingleReadsBack(files[0], rest);
      }
    }
  }

  /** The files come back as they were exactly when none is empty and every name is under 100 bytes. */
  lemma {:induction false} ReadBackIsExact(files: seq<File>)
    ensures ReadBack(files) == files <==>
      forall k :: 0 <= k < |files| ==> files[k].content != [] && |files[k].name| < NAME_LEN
  {
    if files != [] {
      ReadBackIsExact(files[1..]);
      assert forall k :: 1 <= k < |files| ==> files[k] == files[1..][k - 1];
      if ReadBack(files) == files {
        assert ReadBack(files[1..]) == ReadBack(files)[1..];
      } else if files[0].content != [] && |files[0].name| < NAME_LEN {
        assert ReadBack(files) == [files[0]] + ReadBack(files[1..]);
        assert files == [files[0]] + files[1..];
      }
    }
  }

  /** The archive of the four log files reads back, whatever their names and contents. */
  lemma ArchivesReadBack(inputs: seq<Option<Input>>)
    requires forall k :: 0 <= k < |inputs| && inputs[k].Some? ==>
      NoNul(inputs[k].value.path) && |inputs[k].value.content| <= U32_MAX
    ensures Parse(Finished([], inputs)) == Some(ReadBack(Taken(inputs)))
  {
    TakenWritable(inputs);
    var tail := if AllNamed(inputs) then Zeros(HEADER_NUM) else [];
    assert [] + Archive(Taken(inputs)) == Archive(Taken(inputs));
    ArchiveReadsBack(Taken(inputs), tail);
  }

  lemma {:induction false} TakenWritable(inputs: seq<Option<Input>>)
    requires forall k :: 0 <= k < |inputs| && inputs[k].Some? ==>
      NoNul(inputs[k].value.path) && |inputs[k].value.content| <= U32_MAX
    ensures forall k :: 0 <= k < |Taken(inputs)| ==> Writable(Taken(inputs)[k])
  {
    if inputs != [] {
      assert forall k :: 0 <= k < |inputs[1..]| ==> inputs[1..][k] == inputs[k + 1];
      TakenWritable(inputs[1..]);
    }
  }

  /** An empty file hides the ones behind it: its header block is all zero, which ends the archive for a reader. */
  lemma EmptyFileEndsArchive()
    ensures var path := [SLASH, 0x4C, 0x4F, 0x47, 0x40, 0x61, 0x2D, 0x30];
      var empty, full := Some(Input(path, true, [])), Some(Input(path, true, [7]));
      && Taken([empty, full, full, full]) != []
      && Parse(Finished([], [empty, full, full, full])) == Some([])
  {
    var path := [SLASH, 0x4C, 0x4F, 0x47, 0x40, 0x61, 0x2D, 0x30];
    assert LastSlash(path) == Some(0) by {
      assert path[0] == SLASH;
    }
    var empty, full := Some(Input(path, true, [])), Some(Input(path, true, [7]));
    ArchivesReadBack([empty, full, full, full]);
    assert Taken([empty, full, full, full])[0].content == [];
  }
}
