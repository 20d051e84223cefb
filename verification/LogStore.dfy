/** tlogcat's numbered log files: writing, rotation at the size limit, and archiving of four full files. */
module LogStore {
  import opened Words
  import opened Wrappers
  import opened Sequences

  const FILE_LIMIT := 500 * 1024
  const INDEX_MAX := 4
  const FILES_MAX := 128

  type Uuid = nat

  // What one fwrite puts into a file: the TEE version at the head of a new file, or the text of one log item.
  datatype Chunk = Version | Item(text: seq<byte>)
  type Content = seq<Chunk>

  // A .tar.gz: the raw files it was made of, by number.
  type Archive = map<nat, Content>

  // One UUID's files: `LOG@<uuid>-i` and `LOG@<uuid>-i.tar.gz`.
  datatype Dir = Dir(raw: map<nat, Content>, arch: map<nat, Archive>)

  // An entry of g_files: the open `-0` file of a UUID.
  datatype Entry = Free | Open(uuid: Uuid, fileLen: nat, fileIndex: nat)

  const EMPTY_DIR := Dir(map[], map[])

  function Get(m: map<nat, Content>, i: nat): Content {
    if i in m then m[i] else []
  }

  /** The order four raw files were written in: 1, 2, 3, and 0 last. */
  function Reading(m: map<nat, Content>): Content {
    Get(m, 1) + Get(m, 2) + Get(m, 3) + Get(m, 0)
  }

  /** What archives hold, one after the other. */
  function Contents(archives: seq<Archive>): Content {
    if archives == [] then [] else Contents(archives[..|archives| - 1]) + Reading(archives[|archives| - 1])
  }

  lemma ContentsLast(a: seq<Archive>, x: Archive)
    ensures Contents(a + [x]) == Contents(a) + Reading(x)
  {
    assert (a + [x])[..|a|] == a;
  }

  lemma {:induction false} ContentsConcat(a: seq<Archive>, b: seq<Archive>)
    ensures Contents(a + b) == Contents(a) + Contents(b)
  {
    if b == [] {
      NothingBehind(a);
      NothingBehind(Contents(a));
    } else {
      var n := |b| - 1;
      ContentsConcat(a, b[..n]);
      Assoc(a, b[..n], [b[n]]);
      SplitLast(b);
      ContentsStep(a, b[..n], b[n]);
    }
  }

  lemma ContentsStep(a: seq<Archive>, b: seq<Archive>, x: Archive)
    requires Contents(a + b) == Contents(a) + Contents(b)
    ensures Contents((a + b) + [x]) == Contents(a) + Contents(b + [x])
  {
    ContentsLast(a + b, x);
    ContentsLast(b, x);
    Assoc(Contents(a), Contents(b), Reading(x));
  }

  /** Numbers start at 1 for raw files and 0 for archives, and leave no gap. */
  predicate Contiguous(d: Dir) {
    && d.raw.Keys <= {0, 1, 2, 3} && (3 in d.raw ==> 2 in d.raw) && (2 in d.raw ==> 1 in d.raw)
    && d.arch.Keys <= {0, 1, 2, 3} && (3 in d.arch ==> 2 in d.arch) && (2 in d.arch ==> 1 in d.arch)
    && (1 in d.arch ==> 0 in d.arch)
  }

  /** The highest raw number in use, 0 when there is none. */
  function Top(raw: map<nat, Content>): (k: nat)
    ensures k < INDEX_MAX
  {
    if 3 in raw then 3 else if 2 in raw then 2 else if 1 in raw then 1 else 0
  }

  /** The full `-0` file becomes the next numbered one. */
  function Rotated(d: Dir): Dir {
    if 0 in d.raw then d.(raw := (d.raw - {0})[Top(d.raw) + 1 := d.raw[0]]) else d
  }

  /** First archive slot that is free, if any. */
  function FreeSlot(a: map<nat, Archive>): (s: Option<nat>)
    ensures s.Some? ==> s.value < INDEX_MAX && s.value !in a
    ensures s.None? ==> {0, 1, 2, 3} <= a.Keys
  {
    if 0 !in a then Some(0) else if 1 !in a then Some(1) else if 2 !in a then Some(2) else if 3 !in a then Some(3) else None
  }

  /** Archives one slot forward, the oldest dropped. */
  function Shifted(a: map<nat, Archive>): map<nat, Archive>
    requires {1, 2, 3} <= a.Keys
  {
    map[0 := a[1], 1 := a[2], 2 := a[3]]
  }

  function Compressed(d: Dir): Dir {
    match FreeSlot(d.arch)
    case Some(s) => Dir(map[], d.arch[s := d.raw])
    case None => assert {1, 2, 3} <= d.arch.Keys; Dir(map[], Shifted(d.arch)[3 := d.raw])
  }

  /** Rotation keeps the archives, every byte in reading order, and the numbers without gaps. */
  lemma RotatedKeeps(d: Dir)
    requires Contiguous(d) && Top(d.raw) < INDEX_MAX - 1 && 0 in d.raw
    ensures Contiguous(Rotated(d)) && Reading(Rotated(d).raw) == Reading(d.raw) && Rotated(d).arch == d.arch
    ensures Top(Rotated(d).raw) == Top(d.raw) + 1 && 0 !in Rotated(d).raw
  {
    var raw, raw' := d.raw, Rotated(d).raw;
    if Top(raw) == 0 {
      assert Reading(raw') == raw[0] + [] + [] + [] && Reading(raw) == [] + [] + [] + raw[0];
    } else if Top(raw) == 1 {
      assert Reading(raw') == raw[1] + raw[0] + [] + [] && Reading(raw) == raw[1] + [] + [] + raw[0];
    } else {
      assert Reading(raw') == raw[1] + raw[2] + raw[0] + [] && Reading(raw) == raw[1] + raw[2] + [] + raw[0];
    }
  }

  /** The archives in slot order. */
  function InOrder(a: map<nat, Archive>): seq<Archive> {
    if 0 !in a then []
    else if 1 !in a then [a[0]]
    else if 2 !in a then [a[0], a[1]]
    else if 3 !in a then [a[0], a[1], a[2]]
    else [a[0], a[1], a[2], a[3]]
  }

  function LastFour<T>(s: seq<T>): seq<T> {
    if |s| <= INDEX_MAX then s else s[|s| - INDEX_MAX..]
  }

  /** Archiving adds the four raw files behind the archives; only with all four slots taken does the oldest go. */
  lemma CompressedKeeps(d: Dir)
    requires Contiguous(d)
    ensures Contiguous(Compressed(d)) && Compressed(d).raw == map[]
    ensures InOrder(Compressed(d).arch) == LastFour(InOrder(d.arch) + [d.raw])
  {
  }

  function DirOf(dirs: map<Uuid, Dir>, u: Uuid): Dir {
    if u in dirs then dirs[u] else EMPTY_DIR
  }

  /** rename(2). That the new name is unused is proved at every call: no log file is ever overwritten. */
  method Rename<T>(files: map<nat, T>, from: nat, to: nat) returns (files': map<nat, T>)
    requires from in files ==> to !in files
    ensures files' == if from in files then (files - {from})[to := files[from]] else files
  {
    files' := files;
    if from in files {
      files' := (files - {from})[to := files[from]];
    }
  }

  /** Moves the raw files, highest number first, into the cleared temporary directory. */
  method MoveFilesToTmpPath(raw: map<nat, Content>) returns (left: map<nat, Content>, tmp: map<nat, Content>)
    requires raw.Keys <= {0, 1, 2, 3}
    ensures left == map[] && tmp == raw
  {
    left, tmp := raw, map[];
    var i := INDEX_MAX;
    while i > 0
      invariant 0 <= i <= INDEX_MAX
      invariant forall k :: k in left <==> k in raw && k < i
      invariant forall k :: k in tmp <==> k in raw && k >= i
      invariant forall k :: k in left ==> left[k] == raw[k]
      invariant forall k :: k in tmp ==> tmp[k] == raw[k]
    {
      i := i - 1;
      if i in left {
        tmp, left := tmp[i := left[i]], left - {i};
      }
    }
  }

  method GetCompressFile(arch: map<nat, Archive>) returns (slot: Option<nat>)
    ensures slot == FreeSlot(arch)
  {
    for i := 0 to INDEX_MAX
      invariant forall k :: 0 <= k < i ==> k in arch
    {
      if i !in arch {
        return Some(i);
      }
    }
    return None;
  }

  /** Archive 0 is gone, and those up to `slot` have moved forward. */
  ghost predicate ShiftedTo(arch: map<nat, Archive>, left: map<nat, Archive>, slot: nat)
    requires arch.Keys == {0, 1, 2, 3} && slot <= 3
  {
    && left.Keys == {0, 1, 2, 3} - {slot}
    && forall k :: k in left ==> left[k] == arch[if k < slot then k + 1 else k]
  }

  lemma ShiftStep(arch: map<nat, Archive>, left: map<nat, Archive>, i: nat)
    requires arch.Keys == {0, 1, 2, 3} && 1 <= i <= 3 && ShiftedTo(arch, left, i - 1)
    ensures i in left && i - 1 !in left && ShiftedTo(arch, (left - {i})[i - 1 := left[i]], i)
  {
    assert i in {0, 1, 2, 3} - {i - 1};
  }

  lemma ShiftEnd(arch: map<nat, Archive>, left: map<nat, Archive>)
    requires arch.Keys == {0, 1, 2, 3} && ShiftedTo(arch, left, 3)
    ensures left == Shifted(arch)
  {
    assert left.Keys == {0, 1, 2};
  }

  /** Unlinks archive 0 and renames the others forward, each onto the name its predecessor just left. */
  method ArrangeCompressFile(arch: map<nat, Archive>) returns (left: map<nat, Archive>, slot: nat)
    requires arch.Keys == {0, 1, 2, 3}
    ensures left == Shifted(arch) && slot == 3
  {
    slot, left := 0, arch - {0};
    for i := 1 to INDEX_MAX
      invariant slot == i - 1 && ShiftedTo(arch, left, slot)
    {
      ShiftStep(arch, left, i);
      left := Rename(left, i, slot);
      slot := i;
    }
    ShiftEnd(arch, left);
  }

  /** LogFilesCompress on one UUID's files. */
  method CompressFiles(d: Dir) returns (d': Dir)
    requires Contiguous(d)
    ensures d' == Compressed(d)
  {
    var left, tmp := MoveFilesToTmpPath(d.raw);
    var slot := GetCompressFile(d.arch);
    var arch := d.arch;
    if slot.None? {
      assert d.arch.Keys == {0, 1, 2, 3};
      var last;
      arch, last := ArrangeCompressFile(arch);
      slot := Some(last);
    }
    d' := Dir(left, arch[slot.value := tmp]);
  }

  function Retired(d: Dir): Dir {
    if Top(d.raw) >= INDEX_MAX - 1 then Compressed(d) else Rotated(d)
  }

  /** The archives a retired file makes. */
  function Archives(d: Dir): seq<Archive> {
    if Top(d.raw) >= INDEX_MAX - 1 then [d.raw] else []
  }

  lemma RetiredKeeps(d: Dir)
    requires Contiguous(d) && 0 in d.raw
    ensures Contiguous(Retired(d)) && InOrder(Retired(d).arch) == LastFour(InOrder(d.arch) + Archives(d))
    ensures Contents(Archives(d)) + Reading(Retired(d).raw) == Reading(d.raw)
    ensures forall i :: 0 <= i < |Archives(d)| ==> Archives(d)[i].Keys == {0, 1, 2, 3}
  {
    if Top(d.raw) >= INDEX_MAX - 1 {
      CompressedKeeps(d);
      assert Contents([d.raw]) == Contents([]) + Reading(d.raw);
    } else {
      RotatedKeeps(d);
      assert InOrder(d.arch) + [] == InOrder(d.arch);
    }
  }

  /** LogFileFull, or LogFilesCompress once three full files are waiting. */
  method RetireFiles(d: Dir, fileIndex: nat) returns (d': Dir)
    requires Contiguous(d) && 0 in d.raw && fileIndex == Top(d.raw)
    ensures d' == Retired(d)
  {
    if fileIndex >= INDEX_MAX - 1 {
      d' := CompressFiles(d);
    } else {
      var raw := Rename(d.raw, 0, fileIndex + 1);
      d' := d.(raw := raw);
    }
  }

  /** The highest number whose raw file exists. */
  method GetFileIndex(raw: map<nat, Content>) returns (fileIndex: nat)
    ensures fileIndex == Top(raw)
  {
    fileIndex := INDEX_MAX - 1;
    while fileIndex > 0 && fileIndex !in raw
      invariant fileIndex < INDEX_MAX
      invariant forall k :: fileIndex < k < INDEX_MAX ==> k !in raw
    {
      fileIndex := fileIndex - 1;
    }
  }

  function Length(c: Content, versionLen: nat): nat {
    if c == [] then 0
    else Length(c[..|c| - 1], versionLen) + match c[|c| - 1] case Version => versionLen case Item(t) => |t|
  }

  // ---------------------------------------------------------------- what tlogcat is to do

  // The files of every UUID, and the length of each `-0` file that is open.
  datatype Store = Store(dirs: map<Uuid, Dir>, open: map<Uuid, nat>)

  datatype Event = Log(uuid: Uuid, text: seq<byte>) | CloseAll

  predicate StoreOk(s: Store) {
    && (forall u :: u in s.dirs ==> Contiguous(s.dirs[u]))
    && (forall u :: u in s.open ==> u in s.dirs && 0 in s.dirs[u].raw)
    && |s.open| <= FILES_MAX
  }

  function Appended(d: Dir, c: Chunk): Dir {
    d.(raw := d.raw[0 := Get(d.raw, 0) + [c]])
  }

  predicate IsFull(s: Store, u: Uuid) {
    u in s.open && s.open[u] >= FILE_LIMIT
  }

  /** A full file is retired; then no file of the UUID is open. */
  function Settled(s: Store, u: Uuid): Store {
    if IsFull(s, u) then Store(s.dirs[u := Retired(DirOf(s.dirs, u))], s.open - {u}) else s
  }

  /** The files once the UUID's `-0` file exists: a new one has the version at its head. */
  function FilesWith(s: Store, u: Uuid): map<Uuid, Dir> {
    var d := DirOf(s.dirs, u);
    if 0 in d.raw then s.dirs else s.dirs[u := Appended(d, Version)]
  }

  function LengthAt(s: Store, u: Uuid, versionLen: nat): nat {
    var d := DirOf(s.dirs, u);
    if 0 in d.raw then Length(d.raw[0], versionLen) else 0
  }

  /** The UUID's `-0` file is opened and entered, as long as 128 files are not open. */
  function Opened(s: Store, u: Uuid, versionLen: nat): Store {
    Store(FilesWith(s, u), if |s.open| < FILES_MAX then s.open[u := LengthAt(s, u, versionLen)] else s.open)
  }

  function Got(s: Store, u: Uuid, versionLen: nat): Store {
    var s' := Settled(s, u);
    if u in s'.open then s' else Opened(s', u, versionLen)
  }

  /** The text goes into the UUID's open file, if there is one. */
  function Put(s: Store, u: Uuid, text: seq<byte>): Store {
    if u in s.open then
      Store(s.dirs[u := Appended(DirOf(s.dirs, u), Item(text))], s.open[u := s.open[u] + |text|])
    else s
  }

  function Logged(s: Store, u: Uuid, text: seq<byte>, versionLen: nat): Store {
    Put(Got(s, u, versionLen), u, text)
  }

  /** An item is saved unless 128 files of other UUIDs are open. */
  predicate CanSave(s: Store, u: Uuid) {
    u in s.open || |s.open| < FILES_MAX
  }

  function Closed(s: Store): Store {
    Store(map u | u in s.dirs :: if IsFull(s, u) then Retired(s.dirs[u]) else s.dirs[u], map[])
  }

  function Handled(s: Store, e: Event, versionLen: nat): Store {
    match e
    case Log(u, text) => Logged(s, u, text, versionLen)
    case CloseAll => Closed(s)
  }

  predicate IsSaved(s: Store, e: Event) {
    e.Log? ==> CanSave(s, e.uuid)
  }

  /** One UUID's files change. */
  lemma FilesChanged(s: Store, u: Uuid, d: Dir)
    requires StoreOk(s) && Contiguous(d) && (u in s.open ==> 0 in d.raw)
    ensures StoreOk(Store(s.dirs[u := d], s.open))
  {
  }

  /** One file is closed. */
  lemma FileClosed(s: Store, u: Uuid)
    requires StoreOk(s) && u in s.open
    ensures StoreOk(Store(s.dirs, s.open - {u})) && |s.open - {u}| == |s.open| - 1
  {
    assert (s.open - {u}).Keys == s.open.Keys - {u};
    assert |(s.open - {u}).Keys| == |s.open - {u}| && |s.open.Keys| == |s.open|;
  }

  /** One file is opened, or its length changes. */
  lemma FileOpened(s: Store, u: Uuid, len: nat)
    requires StoreOk(s) && u in s.dirs && 0 in s.dirs[u].raw && (u in s.open || |s.open| < FILES_MAX)
    ensures StoreOk(Store(s.dirs, s.open[u := len]))
  {
    assert s.open[u := len].Keys == s.open.Keys + {u};
    assert |s.open[u := len].Keys| == |s.open[u := len]| && |s.open.Keys| == |s.open|;
    assert u in s.open ==> s.open.Keys + {u} == s.open.Keys;
  }

  lemma SettledOk(s: Store, u: Uuid)
    requires StoreOk(s)
    ensures StoreOk(Settled(s, u)) && !IsFull(Settled(s, u), u)
    ensures IsFull(s, u) ==> |Settled(s, u).open| == |s.open| - 1
  {
    if IsFull(s, u) {
      RetiredKeeps(s.dirs[u]);
      FileClosed(s, u);
      FilesChanged(Store(s.dirs, s.open - {u}), u, Retired(s.dirs[u]));
    }
  }

  lemma OpenedOk(s: Store, u: Uuid, versionLen: nat)
    requires StoreOk(s) && u !in s.open
    ensures StoreOk(Opened(s, u, versionLen))
    ensures u in Opened(s, u, versionLen).open <==> |s.open| < FILES_MAX
  {
    FilesChanged(s, u, Appended(DirOf(s.dirs, u), Version));
    if |s.open| < FILES_MAX {
      FileOpened(Store(FilesWith(s, u), s.open), u, LengthAt(s, u, versionLen));
    }
  }

  lemma GotOk(s: Store, u: Uuid, versionLen: nat)
    requires StoreOk(s)
    ensures StoreOk(Got(s, u, versionLen)) && (u in Got(s, u, versionLen).open <==> CanSave(s, u))
  {
    SettledOk(s, u);
    if u !in Settled(s, u).open {
      OpenedOk(Settled(s, u), u, versionLen);
    }
  }

  lemma LoggedOk(s: Store, u: Uuid, text: seq<byte>, versionLen: nat)
    requires StoreOk(s)
    ensures StoreOk(Logged(s, u, text, versionLen))
  {
    GotOk(s, u, versionLen);
    var g := Got(s, u, versionLen);
    if u in g.open {
      var d := Appended(DirOf(g.dirs, u), Item(text));
      FilesChanged(g, u, d);
      FileOpened(Store(g.dirs[u := d], g.open), u, g.open[u] + |text|);
    }
  }

  lemma HandledOk(s: Store, e: Event, versionLen: nat)
    requires StoreOk(s)
    ensures StoreOk(Handled(s, e, versionLen))
  {
    match e
    case Log(u, text) => LoggedOk(s, u, text, versionLen);
    case CloseAll =>
      forall u | u in s.dirs && IsFull(s, u)
        ensures Contiguous(Retired(s.dirs[u]))
      {
        RetiredKeeps(s.dirs[u]);
      }
  }

  // ---------------------------------------------------------------- nothing is lost

  // What a run did for one UUID: the archives it made and the chunks it wrote, in order.
  datatype Trail = Trail(made: seq<Archive>, written: Content)

  function MadeBy(s: Store, e: Event, u: Uuid): seq<Archive> {
    if IsFull(s, u) && (e.Log? ==> e.uuid == u) then Archives(DirOf(s.dirs, u)) else []
  }

  function WroteBy(s: Store, e: Event, u: Uuid): Content {
    if e.Log? && e.uuid == u then
      var d := DirOf(Settled(s, u).dirs, u);
      (if u !in Settled(s, u).open && 0 !in d.raw then [Version] else []) + (if CanSave(s, u) then [Item(e.text)] else [])
    else []
  }

  ghost predicate MadeOfFour(archives: seq<Archive>) {
    forall i :: 0 <= i < |archives| ==> archives[i].Keys == {0, 1, 2, 3}
  }

  /** `made` goes behind the archives `a`, of which the last four stay; `wrote` goes behind the raw content `r`. */
  ghost predicate Moves(a: seq<Archive>, r: Content, a': seq<Archive>, r': Content, made: seq<Archive>, wrote: Content) {
    a' == LastFour(a + made) && Contents(made) + r' == r + wrote && MadeOfFour(made)
  }

  ghost predicate Flows(d: Dir, d': Dir, made: seq<Archive>, wrote: Content) {
    Contiguous(d') && Moves(InOrder(d.arch), Reading(d.raw), InOrder(d'.arch), Reading(d'.raw), made, wrote)
  }

  lemma FlowsNothing(d: Dir)
    requires Contiguous(d)
    ensures Flows(d, d, [], [])
  {
    assert InOrder(d.arch) + [] == InOrder(d.arch);
    assert [] + Reading(d.raw) == Reading(d.raw) + [];
  }

  lemma FlowsRetired(d: Dir)
    requires Contiguous(d) && 0 in d.raw
    ensures Flows(d, Retired(d), Archives(d), [])
  {
    RetiredKeeps(d);
    assert Reading(d.raw) + [] == Reading(d.raw);
  }

  lemma ReadingAppended(raw: map<nat, Content>, c: Chunk)
    ensures Reading(raw[0 := Get(raw, 0) + [c]]) == Reading(raw) + [c]
  {
    var pre := Get(raw, 1) + Get(raw, 2) + Get(raw, 3);
    assert pre + (Get(raw, 0) + [c]) == (pre + Get(raw, 0)) + [c];
  }

  lemma FlowsAppended(d: Dir, c: Chunk)
    requires Contiguous(d)
    ensures Flows(d, Appended(d, c), [], [c])
  {
    ReadingAppended(d.raw, c);
    assert InOrder(d.arch) + [] == InOrder(d.arch);
    assert [] + Reading(Appended(d, c).raw) == Reading(Appended(d, c).raw);
  }

  lemma LastFourDrop<T>(s: seq<T>, k: nat)
    requires k + INDEX_MAX <= |s|
    ensures LastFour(s[k..]) == LastFour(s)
  {
    DropTwice(s, k, |s| - INDEX_MAX - k);
  }

  lemma LastFourAppend<T>(s: seq<T>, b: seq<T>)
    ensures LastFour(LastFour(s) + b) == LastFour(s + b)
  {
    if |s| > INDEX_MAX {
      var k := |s| - INDEX_MAX;
      DropThenAppend(s, b, k);
      LastFourDrop(s + b, k);
    }
  }

  lemma LastFourTwice<T>(s: seq<T>, a: seq<T>, b: seq<T>)
    ensures LastFour(LastFour(s + a) + b) == LastFour(s + (a + b))
  {
    LastFourAppend(s + a, b);
    Assoc(s, a, b);
  }

  lemma Chained(m: Content, m': Content, r: Content, r': Content, r'': Content, w: Content, w': Content)
    requires m + r' == r + w && m' + r'' == r' + w'
    ensures (m + m') + r'' == r + (w + w')
  {
    Assoc(m, m', r'');
    Assoc(m, r', w');
    Assoc(r, w, w');
  }

  lemma MovesOn(a: seq<Archive>, r: Content, a': seq<Archive>, r': Content, a'': seq<Archive>, r'': Content,
                made: seq<Archive>, wrote: Content, made': seq<Archive>, wrote': Content)
    requires Moves(a, r, a', r', made, wrote) && Moves(a', r', a'', r'', made', wrote')
    ensures Moves(a, r, a'', r'', made + made', wrote + wrote')
  {
    LastFourTwice(a, made, made');
    ContentsConcat(made, made');
    Chained(Contents(made), Contents(made'), r, r', r'', wrote, wrote');
  }

  lemma FlowsOn(d: Dir, e: Dir, f: Dir, made: seq<Archive>, wrote: Content, made': seq<Archive>, wrote': Content)
    requires Flows(d, e, made, wrote) && Flows(e, f, made', wrote')
    ensures Flows(d, f, made + made', wrote + wrote')
  {
    MovesOn(InOrder(d.arch), Reading(d.raw), InOrder(e.arch), Reading(e.raw), InOrder(f.arch), Reading(f.raw),
            made, wrote, made', wrote');
  }

  lemma SettledFlows(s: Store, u: Uuid)
    requires StoreOk(s)
    ensures Flows(DirOf(s.dirs, u), DirOf(Settled(s, u).dirs, u), if IsFull(s, u) then Archives(DirOf(s.dirs, u)) else [], [])
  {
    if IsFull(s, u) {
      FlowsRetired(s.dirs[u]);
    } else {
      FlowsNothing(DirOf(s.dirs, u));
    }
  }

  /** The version at the head of a file that is new. */
  function HeadOf(s: Store, u: Uuid): Content {
    if u !in s.open && 0 !in DirOf(s.dirs, u).raw then [Version] else []
  }

  function TextOf(s: Store, u: Uuid, text: seq<byte>): Content {
    if CanSave(s, u) then [Item(text)] else []
  }

  lemma GotFlows(s: Store, u: Uuid, versionLen: nat)
    requires StoreOk(s) && !IsFull(s, u)
    ensures Flows(DirOf(s.dirs, u), DirOf(Got(s, u, versionLen).dirs, u), [], HeadOf(s, u))
  {
    var d := DirOf(s.dirs, u);
    if HeadOf(s, u) == [] {
      FlowsNothing(d);
    } else {
      FlowsAppended(d, Version);
    }
  }

  lemma PutFlows(s: Store, u: Uuid, text: seq<byte>)
    requires StoreOk(s)
    ensures Flows(DirOf(s.dirs, u), DirOf(Put(s, u, text).dirs, u), [], if u in s.open then [Item(text)] else [])
  {
    var d := DirOf(s.dirs, u);
    FlowsNothing(d);
    FlowsAppended(d, Item(text));
  }

  /** Opening and writing, once a full file is out of the way. */
  lemma WriteFlows(s: Store, u: Uuid, text: seq<byte>, versionLen: nat)
    requires StoreOk(s) && !IsFull(s, u)
    ensures Flows(DirOf(s.dirs, u), DirOf(Logged(s, u, text, versionLen).dirs, u), [], HeadOf(s, u) + TextOf(s, u, text))
  {
    var g := Got(s, u, versionLen);
    GotOk(s, u, versionLen);
    GotFlows(s, u, versionLen);
    PutFlows(g, u, text);
    var none: seq<Archive> := [];
    FlowsOn(DirOf(s.dirs, u), DirOf(g.dirs, u), DirOf(Put(g, u, text).dirs, u), none, HeadOf(s, u), none, TextOf(s, u, text));
    assert none + none == none;
  }

  /** Retiring the full file first changes nothing for the rest. */
  lemma SettledFirst(s: Store, u: Uuid, text: seq<byte>, versionLen: nat)
    requires StoreOk(s)
    ensures Logged(Settled(s, u), u, text, versionLen) == Logged(s, u, text, versionLen)
    ensures HeadOf(Settled(s, u), u) + TextOf(Settled(s, u), u, text) == WroteBy(s, Log(u, text), u)
  {
    SettledOk(s, u);
  }

  lemma LoggedFlows(s: Store, u: Uuid, text: seq<byte>, versionLen: nat)
    requires StoreOk(s)
    ensures Flows(DirOf(s.dirs, u), DirOf(Logged(s, u, text, versionLen).dirs, u),
                  MadeBy(s, Log(u, text), u), WroteBy(s, Log(u, text), u))
  {
    var s' := Settled(s, u);
    SettledOk(s, u);
    SettledFlows(s, u);
    WriteFlows(s', u, text, versionLen);
    SettledFirst(s, u, text, versionLen);
    FlowsThen(DirOf(s.dirs, u), DirOf(s'.dirs, u), DirOf(Logged(s, u, text, versionLen).dirs, u),
              MadeBy(s, Log(u, text), u), WroteBy(s, Log(u, text), u));
  }

  lemma FlowsThen(d: Dir, e: Dir, f: Dir, made: seq<Archive>, wrote: Content)
    requires Flows(d, e, made, []) && Flows(e, f, [], wrote)
    ensures Flows(d, f, made, wrote)
  {
    FlowsOn(d, e, f, made, [], [], wrote);
    assert made + [] == made && [] + wrote == wrote;
  }

  lemma OtherFiles(s: Store, v: Uuid, text: seq<byte>, u: Uuid, versionLen: nat)
    requires u != v
    ensures DirOf(Logged(s, v, text, versionLen).dirs, u) == DirOf(s.dirs, u)
  {
    var s1 := Settled(s, v);
    assert DirOf(s1.dirs, u) == DirOf(s.dirs, u);
    assert DirOf(Opened(s1, v, versionLen).dirs, u) == DirOf(s1.dirs, u);
    OtherPut(Got(s, v, versionLen), v, text, u);
  }

  lemma OtherPut(s: Store, v: Uuid, text: seq<byte>, u: Uuid)
    requires u != v
    ensures DirOf(Put(s, v, text).dirs, u) == DirOf(s.dirs, u)
  {
  }

  lemma ClosedFiles(s: Store, u: Uuid)
    requires StoreOk(s)
    ensures DirOf(Closed(s).dirs, u) == DirOf(Settled(s, u).dirs, u)
  {
  }

  lemma StepFlows(s: Store, e: Event, u: Uuid, versionLen: nat)
    requires StoreOk(s)
    ensures Flows(DirOf(s.dirs, u), DirOf(Handled(s, e, versionLen).dirs, u), MadeBy(s, e, u), WroteBy(s, e, u))
  {
    match e
    case Log(v, text) =>
      if v == u {
        LoggedFlows(s, u, text, versionLen);
      } else {
        OtherFiles(s, v, text, u, versionLen);
        FlowsNothing(DirOf(s.dirs, u));
      }
    case CloseAll =>
      ClosedFiles(s, u);
      SettledFlows(s, u);
  }

  // ---------------------------------------------------------------- whole runs

  function Run(s: Store, events: seq<Event>, versionLen: nat): Store {
    if events == [] then s
    else Handled(Run(s, events[..|events| - 1], versionLen), events[|events| - 1], versionLen)
  }

  /** Which events of a run were saved. */
  function Saves(s: Store, events: seq<Event>, versionLen: nat): (r: seq<bool>)
    ensures |r| == |events|
  {
    if events == [] then []
    else
      var n := |events| - 1;
      Saves(s, events[..n], versionLen) + [IsSaved(Run(s, events[..n], versionLen), events[n])]
  }

  function TrailOf(s: Store, events: seq<Event>, u: Uuid, versionLen: nat): Trail {
    if events == [] then Trail([], [])
    else
      var n := |events| - 1;
      var t := TrailOf(s, events[..n], u, versionLen);
      var now := Run(s, events[..n], versionLen);
      Trail(t.made + MadeBy(now, events[n], u), t.written + WroteBy(now, events[n], u))
  }

  lemma {:induction false} RunOk(s: Store, events: seq<Event>, versionLen: nat)
    requires StoreOk(s)
    ensures StoreOk(Run(s, events, versionLen))
  {
    if events != [] {
      var n := |events| - 1;
      RunOk(s, events[..n], versionLen);
      HandledOk(Run(s, events[..n], versionLen), events[n], versionLen);
    }
  }

  /** Over any run, for every UUID: the archives are the last four of those there were and those made since, each
      made of four raw files; what was archived since, followed by what is in the raw files, is what was in the
      raw files followed by what was written since; numbers leave no gap. */
  lemma {:induction false} LogsConserved(s: Store, events: seq<Event>, u: Uuid, versionLen: nat)
    requires StoreOk(s)
    ensures var d, d', t := DirOf(s.dirs, u), DirOf(Run(s, events, versionLen).dirs, u), TrailOf(s, events, u, versionLen);
      && Contiguous(d')
      && InOrder(d'.arch) == LastFour(InOrder(d.arch) + t.made)
      && Contents(t.made) + Reading(d'.raw) == Reading(d.raw) + t.written
      && (forall i :: 0 <= i < |t.made| ==> t.made[i].Keys == {0, 1, 2, 3})
  {
    RunFlows(s, events, u, versionLen);
  }

  lemma {:induction false} RunFlows(s: Store, events: seq<Event>, u: Uuid, versionLen: nat)
    requires StoreOk(s)
    ensures var t := TrailOf(s, events, u, versionLen);
      Flows(DirOf(s.dirs, u), DirOf(Run(s, events, versionLen).dirs, u), t.made, t.written)
  {
    if events == [] {
      FlowsNothing(DirOf(s.dirs, u));
    } else {
      var n := |events| - 1;
      RunFlows(s, events[..n], u, versionLen);
      RunOk(s, events[..n], versionLen);
      var now, t := Run(s, events[..n], versionLen), TrailOf(s, events[..n], u, versionLen);
      StepFlows(now, events[n], u, versionLen);
      FlowsOn(DirOf(s.dirs, u), DirOf(now.dirs, u), DirOf(Run(s, events, versionLen).dirs, u),
              t.made, t.written, MadeBy(now, events[n], u), WroteBy(now, events[n], u));
    }
  }

  /** The log texts in a file's content. */
  function Items(c: Content): seq<seq<byte>> {
    if c == [] then []
    else Items(c[..|c| - 1]) + match c[|c| - 1] case Version => [] case Item(t) => [t]
  }

  lemma {:induction false} ItemsConcat(a: Content, b: Content)
    ensures Items(a + b) == Items(a) + Items(b)
  {
    if b == [] {
      assert a + b == a;
    } else {
      var n := |b| - 1;
      ItemsConcat(a, b[..n]);
      assert (a + b)[..|a + b| - 1] == a + b[..n];
    }
  }

  /** The texts of a UUID's saved items, in order. */
  function Texts(events: seq<Event>, saved: seq<bool>, u: Uuid): seq<seq<byte>>
    requires |events| == |saved|
  {
    if events == [] then []
    else
      var n := |events| - 1;
      Texts(events[..n], saved[..n], u) + if events[n].Log? && events[n].uuid == u && saved[n] then [events[n].text] else []
  }

  lemma ItemsWrote(s: Store, e: Event, u: Uuid)
    ensures Items(WroteBy(s, e, u)) == if e.Log? && e.uuid == u && CanSave(s, u) then [e.text] else []
  {
    if e.Log? && e.uuid == u {
      var d := DirOf(Settled(s, u).dirs, u);
      var head: Content := if u !in Settled(s, u).open && 0 !in d.raw then [Version] else [];
      var tail: Content := if CanSave(s, u) then [Item(e.text)] else [];
      ItemsConcat(head, tail);
      assert [Version][..0] == [] && [Item(e.text)][..0] == [];
    }
  }

  /** What a run writes for a UUID is its saved items, each once and in order, with version headers between. */
  lemma {:induction false} EachItemOnce(s: Store, events: seq<Event>, u: Uuid, versionLen: nat)
    ensures Items(TrailOf(s, events, u, versionLen).written) == Texts(events, Saves(s, events, versionLen), u)
  {
    if events != [] {
      var n := |events| - 1;
      EachItemOnce(s, events[..n], u, versionLen);
      var now, t := Run(s, events[..n], versionLen), TrailOf(s, events[..n], u, versionLen);
      ItemsConcat(t.written, WroteBy(now, events[n], u));
      ItemsWrote(now, events[n], u);
      assert Saves(s, events, versionLen)[..n] == Saves(s, events[..n], versionLen);
    }
  }

  // ---------------------------------------------------------------- the program

  predicate DistinctEntries(t: seq<Entry>) {
    forall i, j :: 0 <= i < j < |t| && t[i].Open? && t[j].Open? ==> t[i].uuid != t[j].uuid
  }

  ghost function Uuids(t: seq<Entry>): set<Uuid> {
    set j | 0 <= j < |t| && t[j].Open? :: t[j].uuid
  }

  /** A table of entries for different UUIDs is full exactly when it has as many UUIDs as entries. */
  lemma {:induction false} UuidsCount(t: seq<Entry>)
    requires DistinctEntries(t)
    ensures |Uuids(t)| <= |t| && (|Uuids(t)| == |t| <==> AllOpen(t))
  {
    if t != [] {
      var n := |t| - 1;
      UuidsCount(t[..n]);
      assert t[..n] + [t[n]] == t;
      UuidsLast(t[..n], t[n]);
      assert AllOpen(t) <==> AllOpen(t[..n]) && t[n].Open?;
    }
  }

  predicate AllOpen(t: seq<Entry>) {
    forall j :: 0 <= j < |t| ==> t[j].Open?
  }

  lemma UuidsLast(t: seq<Entry>, e: Entry)
    requires DistinctEntries(t + [e])
    ensures Uuids(t + [e]) == Uuids(t) + if e.Open? then {e.uuid} else {}
    ensures e.Open? ==> e.uuid !in Uuids(t)
  {
    var t' := t + [e];
    assert t'[|t|] == e && forall j :: 0 <= j < |t| ==> t'[j] == t[j];
  }

  /** An open entry is a UUID's `-0` file, and remembers its length and how many numbered files there are. */
  ghost predicate EntryOk(e: Entry, s: Store) {
    e.Open? ==> e.uuid in s.open && s.open[e.uuid] == e.fileLen && e.fileIndex == Top(DirOf(s.dirs, e.uuid).raw)
  }

  ghost predicate HasEntry(t: seq<Entry>, u: Uuid) {
    exists j :: 0 <= j < |t| && t[j].Open? && t[j].uuid == u
  }

  ghost predicate EntriesOk(t: seq<Entry>, s: Store) {
    forall j {:trigger EntryOk(t[j], s)} :: 0 <= j < |t| ==> EntryOk(t[j], s)
  }

  ghost predicate AllEntered(t: seq<Entry>, s: Store) {
    forall u {:trigger HasEntry(t, u)} :: u in s.open ==> HasEntry(t, u)
  }

  /** The table holds exactly the open files, each once. */
  ghost predicate TableOk(t: seq<Entry>, s: Store) {
    |t| == FILES_MAX && DistinctEntries(t) && StoreOk(s) && EntriesOk(t, s) && AllEntered(t, s)
  }

  lemma HasOther(t: seq<Entry>, i: nat, e: Entry, u: Uuid)
    requires i < |t| && HasEntry(t, u) && (t[i].Open? ==> t[i].uuid != u)
    ensures HasEntry(t[i := e], u)
  {
    var j :| 0 <= j < |t| && t[j].Open? && t[j].uuid == u;
    assert t[i := e][j] == t[j];
  }

  lemma HasNew(t: seq<Entry>, i: nat, e: Entry)
    requires i < |t| && e.Open?
    ensures HasEntry(t[i := e], e.uuid)
  {
    assert t[i := e][i] == e;
  }

  lemma EntryAt(t: seq<Entry>, s: Store, i: nat)
    requires TableOk(t, s) && i < FILES_MAX
    ensures EntryOk(t[i], s)
  {
  }

  /** An entry is cleared, and the files of its UUID become `d`. */
  lemma ClearOk(t: seq<Entry>, s: Store, i: nat, d: Dir)
    requires TableOk(t, s) && i < FILES_MAX && t[i].Open? && Contiguous(d)
    ensures TableOk(t[i := Free], Store(s.dirs[t[i].uuid := d], s.open - {t[i].uuid}))
  {
    var u := t[i].uuid;
    EntryAt(t, s, i);
    FileClosed(s, u);
    FilesChanged(Store(s.dirs, s.open - {u}), u, d);
    ClearDistinct(t, i);
    ClearEntries(t, s, i, d);
    ClearEntered(t, s, i, d);
  }

  lemma ClearDistinct(t: seq<Entry>, i: nat)
    requires DistinctEntries(t) && i < |t|
    ensures DistinctEntries(t[i := Free])
  {
  }

  lemma ClearEntries(t: seq<Entry>, s: Store, i: nat, d: Dir)
    requires EntriesOk(t, s) && DistinctEntries(t) && i < |t| && t[i].Open?
    ensures EntriesOk(t[i := Free], Store(s.dirs[t[i].uuid := d], s.open - {t[i].uuid}))
  {
    var t', s' := t[i := Free], Store(s.dirs[t[i].uuid := d], s.open - {t[i].uuid});
    forall j | 0 <= j < |t'|
      ensures EntryOk(t'[j], s')
    {
      assert j != i ==> EntryOk(t[j], s);
    }
  }

  lemma ClearEntered(t: seq<Entry>, s: Store, i: nat, d: Dir)
    requires AllEntered(t, s) && i < |t| && t[i].Open?
    ensures AllEntered(t[i := Free], Store(s.dirs[t[i].uuid := d], s.open - {t[i].uuid}))
  {
    forall v | v in s.open && v != t[i].uuid
      ensures HasEntry(t[i := Free], v)
    {
      assert HasEntry(t, v);
      HasOther(t, i, Free, v);
    }
  }

  /** A free entry takes a file. */
  lemma EnterOk(t: seq<Entry>, s: Store, i: nat, e: Entry)
    requires TableOk(t, s) && i < FILES_MAX && t[i].Free? && e.Open? && |s.open| < FILES_MAX
    requires e.uuid !in s.open && e.uuid in s.dirs && 0 in s.dirs[e.uuid].raw && e.fileIndex == Top(s.dirs[e.uuid].raw)
    ensures TableOk(t[i := e], s.(open := s.open[e.uuid := e.fileLen]))
  {
    FileOpened(s, e.uuid, e.fileLen);
    EnterEntries(t, s, i, e);
    SetEntered(t, s, i, e);
  }

  lemma EnterEntries(t: seq<Entry>, s: Store, i: nat, e: Entry)
    requires EntriesOk(t, s) && DistinctEntries(t) && i < |t| && t[i].Free? && e.Open?
    requires e.uuid !in s.open && e.fileIndex == Top(DirOf(s.dirs, e.uuid).raw)
    ensures EntriesOk(t[i := e], s.(open := s.open[e.uuid := e.fileLen])) && DistinctEntries(t[i := e])
  {
    forall j | 0 <= j < |t| && j != i
      ensures EntryOk(t[j], s.(open := s.open[e.uuid := e.fileLen])) && (t[j].Open? ==> t[j].uuid != e.uuid)
    {
      assert EntryOk(t[j], s);
    }
    assert forall j :: 0 <= j < |t| && j != i ==> t[i := e][j] == t[j];
  }

  /** An entry put in the place of a free one, or of one of the same UUID. */
  lemma SetEntered(t: seq<Entry>, s: Store, i: nat, e: Entry)
    requires AllEntered(t, s) && i < |t| && e.Open? && (t[i].Open? ==> t[i].uuid == e.uuid)
    ensures AllEntered(t[i := e], s.(open := s.open[e.uuid := e.fileLen]))
  {
    HasNew(t, i, e);
    forall v | v in s.open && v != e.uuid
      ensures HasEntry(t[i := e], v)
    {
      assert HasEntry(t, v);
      HasOther(t, i, e, v);
    }
  }

  lemma AppendedKeeps(d: Dir, c: Chunk)
    requires Contiguous(d)
    ensures Contiguous(Appended(d, c)) && 0 in Appended(d, c).raw && Top(Appended(d, c).raw) == Top(d.raw)
  {
  }

  /** A chunk goes into a UUID's `-0` file. */
  lemma WriteOk(t: seq<Entry>, s: Store, u: Uuid, c: Chunk)
    requires TableOk(t, s)
    ensures TableOk(t, s.(dirs := s.dirs[u := Appended(DirOf(s.dirs, u), c)]))
  {
    var d := Appended(DirOf(s.dirs, u), c);
    AppendedKeeps(DirOf(s.dirs, u), c);
    FilesChanged(s, u, d);
    WriteEntries(t, s, u, d);
  }

  lemma WriteEntries(t: seq<Entry>, s: Store, u: Uuid, d: Dir)
    requires EntriesOk(t, s) && Top(d.raw) == Top(DirOf(s.dirs, u).raw)
    ensures EntriesOk(t, s.(dirs := s.dirs[u := d]))
  {
    var s' := s.(dirs := s.dirs[u := d]);
    forall j | 0 <= j < |t|
      ensures EntryOk(t[j], s')
    {
      assert EntryOk(t[j], s);
    }
  }

  /** An entry's length changes. */
  lemma ResizeOk(t: seq<Entry>, s: Store, i: nat, len: nat)
    requires TableOk(t, s) && i < FILES_MAX && t[i].Open?
    ensures TableOk(t[i := t[i].(fileLen := len)], s.(open := s.open[t[i].uuid := len]))
  {
    EntryAt(t, s, i);
    FileOpened(s, t[i].uuid, len);
    ResizeEntries(t, s, i, len);
    SetEntered(t, s, i, t[i].(fileLen := len));
  }

  lemma ResizeEntries(t: seq<Entry>, s: Store, i: nat, len: nat)
    requires EntriesOk(t, s) && DistinctEntries(t) && i < |t| && t[i].Open?
    ensures EntriesOk(t[i := t[i].(fileLen := len)], s.(open := s.open[t[i].uuid := len]))
    ensures DistinctEntries(t[i := t[i].(fileLen := len)])
  {
    var t', s' := t[i := t[i].(fileLen := len)], s.(open := s.open[t[i].uuid := len]);
    forall j | 0 <= j < |t'|
      ensures EntryOk(t'[j], s')
    {
      assert EntryOk(t[j], s);
    }
  }

  /** Without an entry a UUID has no open file. */
  lemma NotOpen(t: seq<Entry>, s: Store, u: Uuid)
    requires TableOk(t, s) && forall j :: 0 <= j < FILES_MAX && t[j].Open? ==> t[j].uuid != u
    ensures u !in s.open
  {
    assert u in s.open ==> HasEntry(t, u);
  }

  /** As many files are open as entries are taken. */
  lemma OpenCount(t: seq<Entry>, s: Store)
    requires TableOk(t, s)
    ensures |s.open| < FILES_MAX <==> exists j :: 0 <= j < FILES_MAX && t[j].Free?
    ensures forall j :: 0 <= j < FILES_MAX && t[j].Open? ==> t[j].uuid in s.open
  {
    OpenUuids(t, s);
    assert |s.open.Keys| == |s.open|;
    UuidsCount(t);
  }

  lemma RoomLeft(t: seq<Entry>, s: Store, i: nat)
    requires TableOk(t, s) && i < FILES_MAX && t[i].Free?
    ensures |s.open| < FILES_MAX
  {
    OpenCount(t, s);
  }

  lemma NoRoomLeft(t: seq<Entry>, s: Store)
    requires TableOk(t, s) && AllOpen(t)
    ensures |s.open| == FILES_MAX
  {
    OpenCount(t, s);
  }

  lemma OpenUuids(t: seq<Entry>, s: Store)
    requires EntriesOk(t, s) && AllEntered(t, s)
    ensures s.open.Keys == Uuids(t) && forall j :: 0 <= j < |t| && t[j].Open? ==> t[j].uuid in s.open
  {
    forall j | 0 <= j < |t| && t[j].Open?
      ensures t[j].uuid in s.open
    {
      assert EntryOk(t[j], s);
    }
    forall u | u in s.open
      ensures u in Uuids(t)
    {
      assert HasEntry(t, u);
    }
  }

  /** An item that cannot be saved finds every entry taken by another UUID. */
  lemma TableTaken(t: seq<Entry>, s: Store, u: Uuid)
    requires TableOk(t, s) && !CanSave(s, u)
    ensures forall j :: 0 <= j < FILES_MAX ==> t[j].Open? && t[j].uuid != u
  {
    OpenCount(t, s);
  }

  /** Some of the files of `s` are closed by now, each retired if it was full. */
  ghost predicate ClosedSoFar(s: Store, now: Store) {
    && now.dirs.Keys == s.dirs.Keys
    && (forall u :: u in now.open ==> u in s.open && now.open[u] == s.open[u])
    && (forall u :: u in s.dirs ==>
          now.dirs[u] == if IsFull(s, u) && u !in now.open then Retired(s.dirs[u]) else s.dirs[u])
  }

  lemma CloseStep(s: Store, now: Store, u: Uuid)
    requires StoreOk(now) && ClosedSoFar(s, now) && u in now.open
    ensures ClosedSoFar(s, if IsFull(now, u) then Settled(now, u) else Store(now.dirs[u := DirOf(now.dirs, u)], now.open - {u}))
  {
  }

  lemma CloseEnd(t: seq<Entry>, s: Store, now: Store)
    requires ClosedSoFar(s, now) && TableOk(t, now) && forall j :: 0 <= j < FILES_MAX ==> t[j].Free?
    ensures now == Closed(s)
  {
    assert forall u :: u in now.open ==> HasEntry(t, u);
    assert now.open == map[];
    assert now.dirs == Closed(s).dirs;
  }

  lemma PutIs(s: Store, e: Entry, text: seq<byte>, s': Store)
    requires e.Open? && EntryOk(e, s)
    requires s'.dirs == s.dirs[e.uuid := Appended(DirOf(s.dirs, e.uuid), Item(text))]
    requires s'.open == s.open[e.uuid := e.fileLen + |text|]
    ensures s' == Put(s, e.uuid, text)
  {
  }

  lemma OneMore(s: Store, events: seq<Event>, i: nat, versionLen: nat)
    requires i < |events|
    ensures var now := Run(s, events[..i], versionLen);
      && Run(s, events[..i + 1], versionLen) == Handled(now, events[i], versionLen)
      && Saves(s, events[..i + 1], versionLen) == Saves(s, events[..i], versionLen) + [IsSaved(now, events[i])]
  {
    assert events[..i + 1][..i] == events[..i];
  }

  class TLogcat {
    const table: array<Entry>
    const versionLen: nat
    var dirs: map<Uuid, Dir>
    // the lengths in the table, by UUID
    ghost var open: map<Uuid, nat>

    ghost function View(): Store reads this {
      Store(dirs, open)
    }

    ghost predicate Valid()
      reads this, table
    {
      TableOk(table[..], View())
    }

    constructor (dirs: map<Uuid, Dir>, versionLen: nat)
      requires forall u :: u in dirs ==> Contiguous(dirs[u])
      ensures Valid() && View() == Store(dirs, map[]) && this.versionLen == versionLen
    {
      table := new Entry[FILES_MAX](i => Free);
      this.versionLen := versionLen;
      this.dirs := dirs;
      open := map[];
    }

    /** An entry is cleared, and the files of its UUID become `d`. */
    method Clear(i: nat, d: Dir)
      requires Valid() && i < FILES_MAX && table[i].Open? && Contiguous(d)
      modifies this`dirs, this`open, table
      ensures Valid() && table[..] == old(table[..])[i := Free]
      ensures View() == Store(old(dirs)[old(table[i].uuid) := d], old(open) - {old(table[i].uuid)})
    {
      ClearOk(table[..], View(), i, d);
      var u := table[i].uuid;
      dirs, open := dirs[u := d], open - {u};
      table[i] := Free;
    }

    /** LogFilesChecklimit on a full file: rotated, or archived together with the three before it. */
    method Retire(i: nat)
      requires Valid() && i < FILES_MAX && table[i].Open? && table[i].fileLen >= FILE_LIMIT
      modifies this`dirs, this`open, table
      ensures Valid() && table[..] == old(table[..])[i := Free]
      ensures View() == Settled(old(View()), old(table[i].uuid)) && old(table[i].uuid) !in open
    {
      var e := table[i];
      EntryAt(table[..], View(), i);
      var d := RetireFiles(DirOf(dirs, e.uuid), e.fileIndex);
      RetiredKeeps(DirOf(dirs, e.uuid));
      Clear(i, d);
    }

    /** The open entry of the UUID below the limit; a full one is retired on the way. */
    method GetUsableFile(u: Uuid) returns (r: Option<nat>)
      requires Valid()
      modifies this`dirs, this`open, table
      ensures Valid() && View() == Settled(old(View()), u)
      ensures r.Some? <==> u in open
      ensures r.Some? ==> r.value < FILES_MAX && table[r.value].Open? && table[r.value].uuid == u
      ensures r.Some? ==> table[r.value].fileLen < FILE_LIMIT
    {
      ghost var was := View();
      for i := 0 to FILES_MAX
        invariant Valid()
        invariant View() == was || (View() == Settled(was, u) && u !in open)
        invariant forall j :: 0 <= j < i && table[j].Open? ==> table[j].uuid != u
      {
        EntryAt(table[..], View(), i);
        if table[i].Open? && table[i].uuid == u {
          if table[i].fileLen < FILE_LIMIT {
            return Some(i);
          }
          Retire(i);
        }
      }
      NotOpen(table[..], View(), u);
      return None;
    }

    /** The first free entry takes the file; there is none exactly when 128 are open. */
    method LogFilesAdd(u: Uuid, fileLen: nat, fileIndex: nat) returns (r: Option<nat>)
      requires Valid() && u !in open && u in dirs && 0 in dirs[u].raw && fileIndex == Top(dirs[u].raw)
      modifies this`open, table
      ensures Valid()
      ensures r.Some? <==> |old(open)| < FILES_MAX
      ensures r.Some? ==> r.value < FILES_MAX && old(table[r.value]).Free? && forall j :: 0 <= j < r.value ==> old(table[j]).Open?
      ensures r.Some? ==> table[..] == old(table[..])[r.value := Open(u, fileLen, fileIndex)] && open == old(open)[u := fileLen]
      ensures r.None? ==> table[..] == old(table[..]) && open == old(open)
    {
      r := FirstFree();
      if r.Some? {
        Enter(r.value, u, fileLen, fileIndex);
      }
    }

    method FirstFree() returns (r: Option<nat>)
      requires Valid()
      ensures r.Some? <==> |open| < FILES_MAX
      ensures r.Some? ==> r.value < FILES_MAX && table[r.value].Free? && forall j :: 0 <= j < r.value ==> table[j].Open?
    {
      for i := 0 to FILES_MAX
        invariant forall j :: 0 <= j < i ==> table[j].Open?
      {
        if table[i].Free? {
          RoomLeft(table[..], View(), i);
          return Some(i);
        }
      }
      NoRoomLeft(table[..], View());
      return None;
    }

    method Enter(i: nat, u: Uuid, fileLen: nat, fileIndex: nat)
      requires Valid() && i < FILES_MAX && table[i].Free? && |open| < FILES_MAX
      requires u !in open && u in dirs && 0 in dirs[u].raw && fileIndex == Top(dirs[u].raw)
      modifies this`open, table
      ensures Valid() && table[..] == old(table[..])[i := Open(u, fileLen, fileIndex)] && open == old(open)[u := fileLen]
    {
      EnterOk(table[..], View(), i, Open(u, fileLen, fileIndex));
      open := open[u := fileLen];
      table[i] := Open(u, fileLen, fileIndex);
    }

    /** fwrite to a UUID's `-0` file, which is created when it does not exist. */
    method Fwrite(u: Uuid, c: Chunk)
      requires Valid()
      modifies this`dirs
      ensures Valid() && dirs == old(dirs)[u := Appended(DirOf(old(dirs), u), c)]
    {
      WriteOk(table[..], View(), u, c);
      dirs := dirs[u := Appended(DirOf(dirs, u), c)];
    }

    /** The `-0` file, with its length before a version goes to the head of a new one. */
    method LogFilesOpen(u: Uuid) returns (fileLen: nat)
      requires Valid()
      modifies this`dirs
      ensures Valid() && dirs == FilesWith(old(View()), u) && fileLen == LengthAt(old(View()), u, versionLen)
      ensures u in dirs && 0 in dirs[u].raw && Top(dirs[u].raw) == Top(DirOf(old(dirs), u).raw)
    {
      var d := DirOf(dirs, u);
      fileLen := 0;
      if 0 in d.raw {
        fileLen := Length(d.raw[0], versionLen);
      } else {
        AppendedKeeps(d, Version);
        Fwrite(u, Version);
      }
    }

    /** The `-0` file is opened and entered in the table. */
    method EnterFile(u: Uuid) returns (r: Option<nat>)
      requires Valid() && u !in open
      modifies this`dirs, this`open, table
      ensures Valid() && View() == Opened(old(View()), u, versionLen)
      ensures r.Some? <==> |old(open)| < FILES_MAX
      ensures r.Some? ==> r.value < FILES_MAX && table[r.value].Open? && table[r.value].uuid == u
    {
      var fileIndex := GetFileIndex(DirOf(dirs, u).raw);
      var fileLen := LogFilesOpen(u);
      r := LogFilesAdd(u, fileLen, fileIndex);
    }

    /** The entry to log to, opening the `-0` file when none is open; a new file starts with the version. */
    method LogFilesGet(u: Uuid) returns (r: Option<nat>)
      requires Valid()
      modifies this`dirs, this`open, table
      ensures Valid() && View() == Got(old(View()), u, versionLen)
      ensures r.Some? <==> CanSave(old(View()), u)
      ensures r.Some? ==> r.value < FILES_MAX && table[r.value].Open? && table[r.value].uuid == u
    {
      SettledOk(View(), u);
      r := GetUsableFile(u);
      if r.None? {
        r := EnterFile(u);
      }
    }

    method UpdateLen(i: nat, fileLen: nat)
      requires Valid() && i < FILES_MAX && table[i].Open?
      modifies this`open, table
      ensures Valid() && open == old(open)[old(table[i].uuid) := fileLen]
    {
      ResizeOk(table[..], View(), i, fileLen);
      open := open[table[i].uuid := fileLen];
      table[i] := table[i].(fileLen := fileLen);
    }

    /** WritePrivateLogFile: the item is saved unless 128 files of other UUIDs are open. */
    method WriteLog(u: Uuid, text: seq<byte>) returns (saved: bool)
      requires Valid()
      modifies this`dirs, this`open, table
      ensures Valid() && View() == Logged(old(View()), u, text, versionLen)
      ensures saved <==> CanSave(old(View()), u)
      ensures !saved ==> forall j :: 0 <= j < FILES_MAX ==> old(table[j]).Open? && old(table[j]).uuid != u
    {
      ghost var was, t := View(), table[..];
      var r := LogFilesGet(u);
      GotOk(was, u, versionLen);
      saved := r.Some?;
      if saved {
        Save(r.value, text);
      } else {
        TableTaken(t, was, u);
      }
    }

    /** The text goes into the entry's file, and the entry remembers the new length. */
    method Save(i: nat, text: seq<byte>)
      requires Valid() && i < FILES_MAX && table[i].Open?
      modifies this`dirs, this`open, table
      ensures Valid() && View() == Put(old(View()), old(table[i].uuid), text)
    {
      EntryAt(table[..], View(), i);
      ghost var was, e := View(), table[i];
      assert EntryOk(e, was);
      Fwrite(table[i].uuid, Item(text));
      UpdateLen(i, table[i].fileLen + |text|);
      PutIs(was, e, text, View());
    }

    /** Closes every open file, retiring the full ones. */
    method LogFilesClose()
      requires Valid()
      modifies this`dirs, this`open, table
      ensures Valid() && View() == Closed(old(View())) && forall j :: 0 <= j < FILES_MAX ==> table[j].Free?
    {
      ghost var was := View();
      for i := 0 to FILES_MAX
        invariant Valid() && ClosedSoFar(was, View())
        invariant forall j :: 0 <= j < i ==> table[j].Free?
      {
        if table[i].Open? {
          CloseEntry(i, was);
        }
      }
      CloseEnd(table[..], was, View());
    }

    method CloseEntry(i: nat, ghost was: Store)
      requires Valid() && i < FILES_MAX && table[i].Open? && ClosedSoFar(was, View())
      modifies this`dirs, this`open, table
      ensures Valid() && table[..] == old(table[..])[i := Free] && ClosedSoFar(was, View())
    {
      EntryAt(table[..], View(), i);
      CloseStep(was, View(), table[i].uuid);
      if table[i].fileLen >= FILE_LIMIT {
        Retire(i);
      } else {
        Clear(i, DirOf(dirs, table[i].uuid));
      }
    }

    method Handle(e: Event) returns (saved: bool)
      requires Valid()
      modifies this`dirs, this`open, table
      ensures Valid() && View() == Handled(old(View()), e, versionLen) && saved == IsSaved(old(View()), e)
    {
      match e {
        case Log(u, text) => saved := WriteLog(u, text);
        case CloseAll =>
          LogFilesClose();
          saved := true;
      }
    }

    /** Any run of log items and closes does to the files, and saves, exactly what Run and Saves say. */
    method Replay(events: seq<Event>) returns (saved: seq<bool>)
      requires Valid()
      modifies this`dirs, this`open, table
      ensures Valid() && View() == Run(old(View()), events, versionLen) && saved == Saves(old(View()), events, versionLen)
    {
      saved := [];
      ghost var was := View();
      for i := 0 to |events|
        invariant Valid() && View() == Run(was, events[..i], versionLen) && saved == Saves(was, events[..i], versionLen)
      {
        OneMore(was, events, i, versionLen);
        var ok := Handle(events[i]);
        saved := saved + [ok];
      }
      assert events[..|events|] == events;
    }
  }
}
