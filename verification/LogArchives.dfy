/** From log items to tar streams: the archives tlogcat makes of its own files read back as those files. */
module LogArchives {
  import opened Words
  import opened Wrappers
  import opened LogStore
  import Tar
  import LogParser

  const VERSION_MAX := 256
  const ITEM_MAX := LogParser.ITEM_MAX_LEN

  // ---------------------------------------------------------------- how long the files are

  /** Below this, whatever is written last. */
  function MaxLen(versionLen: nat): nat {
    FILE_LIMIT + versionLen + ITEM_MAX
  }

  predicate FullFile(c: Content, versionLen: nat) {
    FILE_LIMIT <= Length(c, versionLen) < MaxLen(versionLen)
  }

  predicate FullFiles(raw: map<nat, Content>, versionLen: nat) {
    forall i :: i in raw && i != 0 ==> FullFile(raw[i], versionLen)
  }

  /** The `-0` file of a UUID. A version at its head may be missing from the remembered length `len`. */
  predicate LastFile(c: Content, len: Option<nat>, versionLen: nat) {
    match len
    case None => Length(c, versionLen) < FILE_LIMIT + versionLen
    case Some(n) => n <= Length(c, versionLen) <= n + versionLen && Length(c, versionLen) < MaxLen(versionLen)
  }

  function LenOf(s: Store, u: Uuid): Option<nat> {
    if u in s.open then Some(s.open[u]) else None
  }

  ghost predicate Sized(s: Store, u: Uuid, versionLen: nat) {
    var d := DirOf(s.dirs, u);
    FullFiles(d.raw, versionLen) && (0 in d.raw ==> LastFile(d.raw[0], LenOf(s, u), versionLen))
  }

  ghost predicate AllFull(archives: seq<Archive>, versionLen: nat) {
    forall a :: a in archives ==> a.Keys == {0, 1, 2, 3} && forall i :: i in a ==> FullFile(a[i], versionLen)
  }

  function ChunkLen(c: Chunk, versionLen: nat): nat {
    match c
    case Version => versionLen
    case Item(t) => |t|
  }

  lemma LengthAppended(c: Content, x: Chunk, versionLen: nat)
    ensures Length(c + [x], versionLen) == Length(c, versionLen) + ChunkLen(x, versionLen)
  {
    assert (c + [x])[..|c|] == c;
  }

  lemma SettledSized(s: Store, u: Uuid, versionLen: nat)
    requires StoreOk(s) && Sized(s, u, versionLen)
    ensures Sized(Settled(s, u), u, versionLen) && (IsFull(s, u) ==> AllFull(Archives(DirOf(s.dirs, u)), versionLen))
  {
    if IsFull(s, u) {
      RetiredFull(s.dirs[u], versionLen);
    }
  }

  lemma RetiredFull(d: Dir, versionLen: nat)
    requires Contiguous(d) && 0 in d.raw && FullFile(d.raw[0], versionLen) && FullFiles(d.raw, versionLen)
    ensures 0 !in Retired(d).raw && FullFiles(Retired(d).raw, versionLen) && AllFull(Archives(d), versionLen)
  {
    RetiredKeeps(d);
  }

  lemma OpenedSized(s: Store, u: Uuid, versionLen: nat)
    requires Sized(s, u, versionLen) && u !in s.open
    ensures Sized(Opened(s, u, versionLen), u, versionLen)
    ensures u in Opened(s, u, versionLen).open ==>
      Length(Get(DirOf(Opened(s, u, versionLen).dirs, u).raw, 0), versionLen) < FILE_LIMIT + versionLen
  {
    LengthAppended([], Version, versionLen);
    assert [] + [Version] == [Version];
  }

  lemma PutSized(s: Store, u: Uuid, text: seq<byte>, versionLen: nat)
    requires StoreOk(s) && Sized(s, u, versionLen) && |text| <= ITEM_MAX
    requires u in s.open ==> Length(Get(DirOf(s.dirs, u).raw, 0), versionLen) < FILE_LIMIT + versionLen
    ensures Sized(Put(s, u, text), u, versionLen)
  {
    LengthAppended(Get(DirOf(s.dirs, u).raw, 0), Item(text), versionLen);
  }

  lemma LoggedSized(s: Store, u: Uuid, text: seq<byte>, versionLen: nat)
    requires StoreOk(s) && Sized(s, u, versionLen) && |text| <= ITEM_MAX
    ensures Sized(Logged(s, u, text, versionLen), u, versionLen)
  {
    SettledOk(s, u);
    SettledSized(s, u, versionLen);
    GotOk(s, u, versionLen);
    if u !in Settled(s, u).open {
      OpenedSized(Settled(s, u), u, versionLen);
    }
    PutSized(Got(s, u, versionLen), u, text, versionLen);
  }

  lemma OtherSized(s: Store, v: Uuid, text: seq<byte>, u: Uuid, versionLen: nat)
    requires u != v && Sized(s, u, versionLen)
    ensures Sized(Logged(s, v, text, versionLen), u, versionLen)
  {
    OtherFiles(s, v, text, u, versionLen);
    assert LenOf(Logged(s, v, text, versionLen), u) == LenOf(s, u);
  }

  lemma ClosedSized(s: Store, u: Uuid, versionLen: nat)
    requires StoreOk(s) && Sized(s, u, versionLen)
    ensures Sized(Closed(s), u, versionLen)
  {
    ClosedFiles(s, u);
    SettledSized(s, u, versionLen);
  }

  predicate ItemFits(e: Event) {
    e.Log? ==> |e.text| <= ITEM_MAX
  }

  lemma StepSized(s: Store, e: Event, u: Uuid, versionLen: nat)
    requires StoreOk(s) && Sized(s, u, versionLen) && ItemFits(e)
    ensures Sized(Handled(s, e, versionLen), u, versionLen) && AllFull(MadeBy(s, e, u), versionLen)
  {
    SettledSized(s, u, versionLen);
    match e
    case Log(v, text) =>
      if v == u {
        LoggedSized(s, u, text, versionLen);
      } else {
        OtherSized(s, v, text, u, versionLen);
      }
    case CloseAll => ClosedSized(s, u, versionLen);
  }

  /** Every archive a run makes is of four files that have reached the limit, and none is much longer. */
  lemma {:induction false} ArchivesAreFull(s: Store, events: seq<Event>, u: Uuid, versionLen: nat)
    requires StoreOk(s) && Sized(s, u, versionLen) && forall e :: e in events ==> ItemFits(e)
    ensures Sized(Run(s, events, versionLen), u, versionLen) && AllFull(TrailOf(s, events, u, versionLen).made, versionLen)
  {
    if events != [] {
      var n := |events| - 1;
      assert events[n] in events && forall e :: e in events[..n] ==> e in events;
      ArchivesAreFull(s, events[..n], u, versionLen);
      RunOk(s, events[..n], versionLen);
      StepSized(Run(s, events[..n], versionLen), events[n], u, versionLen);
    }
  }

  // ---------------------------------------------------------------- how the files begin

  /** The version, and then items. */
  predicate HasHead(c: Content) {
    c != [] && c[0].Version? && forall j :: 1 <= j < |c| ==> c[j].Item?
  }

  ghost predicate Headed(s: Store, u: Uuid) {
    forall i :: i in DirOf(s.dirs, u).raw ==> HasHead(DirOf(s.dirs, u).raw[i])
  }

  ghost predicate AllHeaded(archives: seq<Archive>) {
    forall a :: a in archives ==> forall i :: i in a ==> HasHead(a[i])
  }

  lemma SettledHeaded(s: Store, u: Uuid)
    requires StoreOk(s) && Headed(s, u)
    ensures Headed(Settled(s, u), u) && (IsFull(s, u) ==> AllHeaded(Archives(DirOf(s.dirs, u))))
  {
  }

  lemma OpenedHeaded(s: Store, u: Uuid, versionLen: nat)
    requires Headed(s, u)
    ensures Headed(Opened(s, u, versionLen), u)
  {
    assert [] + [Version] == [Version];
  }

  lemma PutHeaded(s: Store, u: Uuid, text: seq<byte>)
    requires StoreOk(s) && Headed(s, u)
    ensures Headed(Put(s, u, text), u)
  {
    if u in s.open {
      var c := DirOf(s.dirs, u).raw[0];
      assert HasHead(c + [Item(text)]);
    }
  }

  lemma LoggedHeaded(s: Store, u: Uuid, text: seq<byte>, versionLen: nat)
    requires StoreOk(s) && Headed(s, u)
    ensures Headed(Logged(s, u, text, versionLen), u)
  {
    SettledOk(s, u);
    SettledHeaded(s, u);
    GotOk(s, u, versionLen);
    OpenedHeaded(Settled(s, u), u, versionLen);
    PutHeaded(Got(s, u, versionLen), u, text);
  }

  lemma StepHeaded(s: Store, e: Event, u: Uuid, versionLen: nat)
    requires StoreOk(s) && Headed(s, u)
    ensures Headed(Handled(s, e, versionLen), u) && AllHeaded(MadeBy(s, e, u))
  {
    SettledHeaded(s, u);
    match e
    case Log(v, text) =>
      if v == u {
        LoggedHeaded(s, u, text, versionLen);
      } else {
        OtherFiles(s, v, text, u, versionLen);
      }
    case CloseAll => ClosedFiles(s, u);
  }

  /** In every run from files that begin with the version, or from none, every file begins with it, in the directory and
      in each archive made, and holds nothing but items behind it. */
  lemma {:induction false} FilesHaveHeads(s: Store, events: seq<Event>, u: Uuid, versionLen: nat)
    requires StoreOk(s) && Headed(s, u)
    ensures Headed(Run(s, events, versionLen), u) && AllHeaded(TrailOf(s, events, u, versionLen).made)
  {
    if events != [] {
      var n := |events| - 1;
      FilesHaveHeads(s, events[..n], u, versionLen);
      RunOk(s, events[..n], versionLen);
      StepHeaded(Run(s, events[..n], versionLen), events[n], u, versionLen);
    }
  }

  // ---------------------------------------------------------------- the tar stream of an archive

  function ChunkBytes(c: Chunk, version: seq<byte>): seq<byte> {
    match c
    case Version => version
    case Item(t) => t
  }

  function Bytes(c: Content, version: seq<byte>): (b: seq<byte>)
    ensures |b| == Length(c, |version|)
  {
    if c == [] then [] else Bytes(c[..|c| - 1], version) + ChunkBytes(c[|c| - 1], version)
  }

  /** The base name of a UUID's log files, before the number: `LOG@<uuid>` or `teeOS_log`. */
  predicate IsStem(stem: seq<byte>) {
    5 <= |stem| <= 36 && forall i :: 0 <= i < |stem| ==> stem[i] != 0 && stem[i] != Tar.SLASH
  }

  predicate IsDir(dir: seq<byte>) {
    dir != [] && dir[|dir| - 1] == Tar.SLASH && Tar.NoNul(dir)
  }

  function FileName(stem: seq<byte>, i: nat): seq<byte>
    requires i < INDEX_MAX
  {
    stem + [0x2D, 0x30 + i]
  }

  function InputOf(dir: seq<byte>, stem: seq<byte>, a: Archive, i: nat, version: seq<byte>): Option<Tar.Input>
    requires i < INDEX_MAX
  {
    Some(Tar.Input(dir + FileName(stem, i), true, Bytes(Get(a, i), version)))
  }

  /** What TriggerCompress hands to the archiver. */
  function Inputs(dir: seq<byte>, stem: seq<byte>, a: Archive, version: seq<byte>): seq<Option<Tar.Input>> {
    seq(INDEX_MAX, i requires 0 <= i < INDEX_MAX => InputOf(dir, stem, a, i, version))
  }

  /** The raw files of an archive, as they were. */
  function Files(stem: seq<byte>, a: Archive, version: seq<byte>): seq<Tar.File> {
    seq(INDEX_MAX, i requires 0 <= i < INDEX_MAX => Tar.File(FileName(stem, i), Bytes(Get(a, i), version)))
  }

  lemma LastSlashOf(dir: seq<byte>, name: seq<byte>)
    requires IsDir(dir) && Tar.SLASH !in name
    ensures Tar.LastSlash(dir + name) == Some(|dir| - 1)
  {
    var p := dir + name;
    assert p[|dir| - 1] == Tar.SLASH;
    assert forall k :: |dir| <= k < |p| ==> p[k] == name[k - |dir|] && p[k] in name;
  }

  lemma InputNamed(dir: seq<byte>, stem: seq<byte>, a: Archive, i: nat, version: seq<byte>)
    requires i < INDEX_MAX && IsDir(dir) && IsStem(stem)
    ensures var x := InputOf(dir, stem, a, i, version).value;
      Tar.Named(x) && Tar.BaseName(x) == FileName(stem, i) && Tar.NoNul(x.path)
  {
    var name := FileName(stem, i);
    NameOk(stem, i);
    LastSlashOf(dir, name);
    assert (dir + name)[|dir|..] == name;
  }

  lemma NameOk(stem: seq<byte>, i: nat)
    requires i < INDEX_MAX && IsStem(stem)
    ensures Tar.SLASH !in FileName(stem, i) && Tar.NoNul(FileName(stem, i))
  {
    var name := FileName(stem, i);
    forall k | 0 <= k < |name|
      ensures name[k] != 0 && name[k] != Tar.SLASH
    {
      if k < |stem| {
        assert name[k] == stem[k];
      }
    }
  }

  predicate IsTakenAs(i: Option<Tar.Input>, f: Tar.File) {
    !Tar.Skipped(i) && Tar.Named(i.value) && f == Tar.File(Tar.BaseName(i.value), i.value.content)
  }

  lemma {:induction false} AllTaken(inputs: seq<Option<Tar.Input>>, files: seq<Tar.File>)
    requires |inputs| == |files|
    requires forall k :: 0 <= k < |inputs| ==> IsTakenAs(inputs[k], files[k])
    ensures Tar.Taken(inputs) == files
  {
    if inputs != [] {
      AllTaken(inputs[1..], files[1..]);
      assert files == [files[0]] + files[1..];
    }
  }

  /** An archive of four full files reads back as those files. */
  lemma FullReadsBack(dir: seq<byte>, stem: seq<byte>, a: Archive, version: seq<byte>)
    requires IsDir(dir) && IsStem(stem) && |version| <= VERSION_MAX
    requires a.Keys == {0, 1, 2, 3} && forall i :: i in a ==> FullFile(a[i], |version|)
    ensures Tar.Parse(Tar.Finished([], Inputs(dir, stem, a, version))) == Some(Files(stem, a, version))
  {
    var inputs, files := Inputs(dir, stem, a, version), Files(stem, a, version);
    forall k | 0 <= k < INDEX_MAX
      ensures Tar.Named(inputs[k].value) && Tar.BaseName(inputs[k].value) == files[k].name && Tar.NoNul(inputs[k].value.path)
      ensures |files[k].name| < Tar.NAME_LEN && files[k].content != [] && |files[k].content| <= U32_MAX
    {
      InputNamed(dir, stem, a, k, version);
      assert FullFile(a[k], |version|);
    }
    AllTaken(inputs, files);
    Tar.ArchivesReadBack(inputs);
    Tar.ReadBackIsExact(files);
  }

  const NOTHING: Store := Store(map[], map[])

  /** Every archive that any run from empty files makes reads back from its tar stream exactly: names and contents of
      its four files. */
  lemma LogsReadBack(events: seq<Event>, u: Uuid, a: Archive, dir: seq<byte>, stem: seq<byte>, version: seq<byte>)
    requires IsDir(dir) && IsStem(stem) && |version| <= VERSION_MAX && forall e :: e in events ==> ItemFits(e)
    requires a in TrailOf(NOTHING, events, u, |version|).made
    ensures Tar.Parse(Tar.Finished([], Inputs(dir, stem, a, version))) == Some(Files(stem, a, version))
  {
    ArchivesAreFull(NOTHING, events, u, |version|);
    FullReadsBack(dir, stem, a, version);
  }
}
