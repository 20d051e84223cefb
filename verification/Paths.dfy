/** teecd's file agent: from the name a trusted application uses to a path in the storage directories. */
module Paths {
  import opened Words
  import opened Wrappers

  const FILE_NAME_MAX_BUF := 256
  const USER_PATH_SIZE := 10
  const TEE_OBJECT_STORAGE_CE := 0x8000_0002

  const USER_DATA_DIR := "/data/service/el1/public/"
  const ROOT_DIR := "/"
  const TRANSIENT := "sec_storage_data/"
  const TRANSIENT_PRIVATE := "sec_storage_data/_private"
  const TRANSIENT_PERSO := "sec_storage_data/_perso"
  const USER_SYMLINK := "sec_storage_data_users/"
  const PERSISTENT := "sec_storage/"
  const SEC_STORAGE_ROOT_DIR := "/sec_storage/"
  const DATA_CE := "/data/service/el2/"
  const CE_SUFFIX := "/tee/sec_storage_data/"

  // ---------------------------------------------------------------- strings

  function Decimal(n: nat): (d: string)
    ensures |d| > 0 && forall i :: 0 <= i < |d| ==> '0' <= d[i] <= '9'
  {
    if n < 10 then [('0' as int + n) as char] else Decimal(n / 10) + [('0' as int + n % 10) as char]
  }

  /** The characters "../" stand somewhere in `s`. */
  ghost predicate HasInvalidStr(s: string) {
    exists i :: 0 <= i < |s| - 2 && InvalidStrAt(s, i)
  }

  predicate InvalidStrAt(s: string, i: nat)
    requires i + 2 < |s|
  {
    s[i] == '.' && s[i + 1] == '.' && s[i + 2] == '/'
  }

  /** strtok_r: where the first token starts and ends. */
  function SkipSlashes(s: string, i: nat): (k: nat)
    requires i <= |s|
    ensures i <= k <= |s| && (k < |s| ==> s[k] != '/') && forall j :: i <= j < k ==> s[j] == '/'
    decreases |s| - i
  {
    if i == |s| || s[i] != '/' then i else SkipSlashes(s, i + 1)
  }

  function TokenEnd(s: string, i: nat): (k: nat)
    requires i <= |s|
    ensures i <= k <= |s| && (k < |s| ==> s[k] == '/') && forall j :: i <= j < k ==> s[j] != '/'
    decreases |s| - i
  {
    if i == |s| || s[i] == '/' then i else TokenEnd(s, i + 1)
  }

  function Token(name: string): string {
    var i := SkipSlashes(name, 0);
    name[i..TokenEnd(name, i)]
  }

  /** What strtok_r leaves: the characters after the slash that ended the token, if one did. */
  function AfterToken(name: string): string {
    var e := TokenEnd(name, SkipSlashes(name, 0));
    if e < |name| then name[e + 1..] else ""
  }

  // ---------------------------------------------------------------- where a name leads

  function UserDir(userId: u32): string {
    if userId == 0 then USER_DATA_DIR + TRANSIENT else USER_DATA_DIR + USER_SYMLINK + Decimal(userId) + "/"
  }

  /** Where a name leads without regard to the user. */
  function PlainTarget(name: string): string {
    if TRANSIENT_PERSO <= name || TRANSIENT_PRIVATE <= name then USER_DATA_DIR + name
    else if PERSISTENT <= name then ROOT_DIR + name
    else if SEC_STORAGE_ROOT_DIR <= name then name
    else ROOT_DIR + PERSISTENT + name
  }

  function CeTarget(id: string, rest: string): string {
    DATA_CE + id + CE_SUFFIX + rest
  }

  /** The path a name stands for, however long. */
  function Target(userId: u32, storageId: u32, name: string): string {
    if storageId == TEE_OBJECT_STORAGE_CE then CeTarget(Token(name), AfterToken(name))
    else if TRANSIENT <= name then UserDir(userId) + name[|TRANSIENT|..]
    else PlainTarget(name)
  }

  /** The names that are refused whatever the room. */
  ghost predicate Refused(userId: u32, storageId: u32, name: string) {
    || HasInvalidStr(name)
    || (storageId == TEE_OBJECT_STORAGE_CE && Token(name) == "")
    || (storageId != TEE_OBJECT_STORAGE_CE && TRANSIENT <= name && userId != 0 &&
        (|name| <= |TRANSIENT| || |Decimal(userId)| + 1 >= USER_PATH_SIZE))
  }

  predicate IsDataDir(path: string, isUsers: bool) {
    USER_DATA_DIR + (if isUsers then USER_SYMLINK else TRANSIENT) <= path
  }

  predicate IsRootDir(path: string) {
    ROOT_DIR + PERSISTENT <= path
  }

  predicate IsValidFilePath(path: string) {
    IsDataDir(path, false) || IsDataDir(path, true) || IsRootDir(path) || DATA_CE <= path
  }

  // ---------------------------------------------------------------- the code, on a buffer of 256 bytes

  /** A C string in a buffer of FILE_NAME_MAX_BUF bytes. */
  class PathBuffer {
    var text: string

    constructor ()
      ensures text == ""
    {
      text := "";
    }

    /** strncat_s: appends, or empties the string when it does not fit with its NUL. */
    method Cat(src: string) returns (ok: bool)
      modifies this
      ensures ok <==> |old(text)| + |src| < FILE_NAME_MAX_BUF
      ensures text == if ok then old(text) + src else ""
    {
      ok := |text| + |src| < FILE_NAME_MAX_BUF;
      text := if ok then text + src else "";
    }

    /** strncpy_s */
    method Copy(src: string) returns (ok: bool)
      modifies this
      ensures ok <==> |src| < FILE_NAME_MAX_BUF
      ensures text == if ok then src else ""
    {
      ok := |src| < FILE_NAME_MAX_BUF;
      text := if ok then src else "";
    }
  }

  /** strstr(name, "../") != NULL */
  method ContainsInvalidStr(name: string) returns (found: bool)
    ensures found <==> HasInvalidStr(name)
  {
    var i := 0;
    while i + 2 < |name|
      invariant 0 <= i
      invariant forall j :: 0 <= j < i && j < |name| - 2 ==> !InvalidStrAt(name, j)
    {
      if InvalidStrAt(name, i) {
        return true;
      }
      i := i + 1;
    }
    return false;
  }

  method JoinFileNameTransient(userId: u32, name: string, path: PathBuffer) returns (ok: bool)
    requires TRANSIENT <= name
    modifies path
    ensures ok <==> (|UserDir(userId) + name[|TRANSIENT|..]| < FILE_NAME_MAX_BUF &&
      (userId == 0 || (|name| > |TRANSIENT| && |Decimal(userId)| + 1 < USER_PATH_SIZE)))
    ensures ok ==> path.text == UserDir(userId) + name[|TRANSIENT|..]
  {
    ok := path.Copy(USER_DATA_DIR);
    if userId != 0 {
      var userPath := Decimal(userId) + "/";
      if |userPath| > USER_PATH_SIZE - 1 {
        return false;
      }
      ok := path.Cat(USER_SYMLINK);
      ok := path.Cat(userPath);
      if |name| <= |TRANSIENT| {
        return false;
      }
      assert USER_DATA_DIR + USER_SYMLINK + userPath == UserDir(userId);
      ok := path.Cat(name[|TRANSIENT|..]);
    } else {
      assert USER_DATA_DIR + name == UserDir(0) + name[|TRANSIENT|..];
      ok := path.Cat(name);
    }
  }

  method DoJoinFileName(name: string, path: PathBuffer) returns (ok: bool)
    requires path.text == ""
    modifies path
    ensures ok <==> |PlainTarget(name)| < FILE_NAME_MAX_BUF
    ensures ok ==> path.text == PlainTarget(name) && IsValidFilePath(path.text)
  {
    PlainTargetIsValid(name);
    if TRANSIENT_PERSO <= name || TRANSIENT_PRIVATE <= name {
      ok := path.Copy(USER_DATA_DIR);
    } else if PERSISTENT <= name {
      ok := path.Copy(ROOT_DIR);
    } else if SEC_STORAGE_ROOT_DIR <= name {
      assert "" + name == name;
    } else {
      ok := path.Copy(ROOT_DIR);
      ok := path.Cat(PERSISTENT);
    }
    ok := path.Cat(name);
  }

  lemma PlainTargetIsValid(name: string)
    ensures IsValidFilePath(PlainTarget(name))
  {
    var t := PlainTarget(name);
    if TRANSIENT_PERSO <= name || TRANSIENT_PRIVATE <= name {
      var d := USER_DATA_DIR + TRANSIENT;
      TransientKinds(name);
      assert t[..|d|] == USER_DATA_DIR + name[..|TRANSIENT|];
    } else if PERSISTENT <= name {
      assert t == ROOT_DIR + PERSISTENT + name[|PERSISTENT|..];
    } else if SEC_STORAGE_ROOT_DIR <= name {
      assert ROOT_DIR + PERSISTENT == SEC_STORAGE_ROOT_DIR;
    }
  }

  /** A private or personal name is a transient one. */
  lemma TransientKinds(name: string)
    requires TRANSIENT_PERSO <= name || TRANSIENT_PRIVATE <= name
    ensures TRANSIENT <= name
  {
    var q := if TRANSIENT_PERSO <= name then TRANSIENT_PERSO else TRANSIENT_PRIVATE;
    assert name[..|q|] == q && q[..|TRANSIENT|] == TRANSIENT;
    assert name[..|q|][..|TRANSIENT|] == name[..|TRANSIENT|];
  }

  /** strtok_r with "/": the bounds of the first token. */
  method StrTok(name: string) returns (start: nat, end: nat)
    ensures start == SkipSlashes(name, 0) && end == TokenEnd(name, start)
  {
    start := 0;
    while start < |name| && name[start] == '/'
      invariant start <= |name| && SkipSlashes(name, start) == SkipSlashes(name, 0)
    {
      start := start + 1;
    }
    end := start;
    while end < |name| && name[end] != '/'
      invariant start <= end <= |name| && TokenEnd(name, end) == TokenEnd(name, start)
    {
      end := end + 1;
    }
  }

  method JoinFileNameForStorageCE(name: string, path: PathBuffer) returns (ok: bool)
    requires |name| < FILE_NAME_MAX_BUF
    modifies path
    ensures ok <==> Token(name) != "" && |Target(0, TEE_OBJECT_STORAGE_CE, name)| < FILE_NAME_MAX_BUF
    ensures ok ==> path.text == Target(0, TEE_OBJECT_STORAGE_CE, name)
  {
    var start, end := StrTok(name);
    if start == end {
      return false;
    }
    var id, rest := name[start..end], if end < |name| then name[end + 1..] else "";
    assert id == Token(name) && rest == AfterToken(name);
    ok := CatCe(id, rest, path);
  }

  method CatCe(id: string, rest: string, path: PathBuffer) returns (ok: bool)
    modifies path
    ensures ok <==> |CeTarget(id, rest)| < FILE_NAME_MAX_BUF
    ensures ok ==> path.text == CeTarget(id, rest)
  {
    ok := path.Copy(DATA_CE);
    ok := path.Cat(id);
    if !ok {
      return;
    }
    ok := path.Cat(CE_SUFFIX);
    if !ok {
      return;
    }
    ok := path.Cat(rest);
  }

  /** A name leads to its target, or the call fails: exactly when the name is refused or the path has no room. */
  method JoinFileName(userId: u32, storageId: u32, name: string, path: PathBuffer) returns (ok: bool)
    requires path.text == "" && |name| < FILE_NAME_MAX_BUF
    modifies path
    ensures ok <==> !Refused(userId, storageId, name) && |Target(userId, storageId, name)| < FILE_NAME_MAX_BUF
    ensures ok ==> path.text == Target(userId, storageId, name) && IsValidFilePath(path.text)
  {
    var bad := ContainsInvalidStr(name);
    if bad {
      return false;
    }
    TargetIsValid(userId, storageId, name);
    if storageId == TEE_OBJECT_STORAGE_CE {
      ok := JoinFileNameForStorageCE(name, path);
    } else if TRANSIENT <= name {
      ok := JoinFileNameTransient(userId, name, path);
    } else {
      ok := DoJoinFileName(name, path);
    }
  }

  /** Every name leads into one of the storage directories. */
  lemma TargetIsValid(userId: u32, storageId: u32, name: string)
    ensures IsValidFilePath(Target(userId, storageId, name))
  {
    var t := Target(userId, storageId, name);
    if storageId == TEE_OBJECT_STORAGE_CE {
      assert t[..|DATA_CE|] == DATA_CE;
    } else if !(TRANSIENT <= name) {
      PlainTargetIsValid(name);
    } else if userId == 0 {
      assert t[..|USER_DATA_DIR + TRANSIENT|] == USER_DATA_DIR + TRANSIENT;
    } else {
      assert t[..|USER_DATA_DIR + USER_SYMLINK|] == USER_DATA_DIR + USER_SYMLINK;
    }
  }

  // ---------------------------------------------------------------- users do not meet

  function Value(d: string): int {
    if d == "" then 0 else 10 * Value(d[..|d| - 1]) + (d[|d| - 1] as int - '0' as int)
  }

  lemma {:induction false} DecimalValue(n: nat)
    ensures Value(Decimal(n)) == n
  {
    if n >= 10 {
      DecimalValue(n / 10);
      assert Decimal(n)[..|Decimal(n)| - 1] == Decimal(n / 10);
    } else {
      assert Decimal(n)[..0] == "";
    }
  }

  /** Two numbers in front of a slash, at the same place of one string, are the same number. */
  lemma SameNumber(u: nat, v: nat, s: string)
    requires Decimal(u) + "/" <= s && Decimal(v) + "/" <= s
    ensures u == v
  {
    var a, b := Decimal(u), Decimal(v);
    assert s[|a|] == (a + "/")[|a|] == '/' && s[|b|] == (b + "/")[|b|] == '/';
    assert forall i :: 0 <= i < |a| ==> s[i] == (a + "/")[i] == a[i];
    assert forall i :: 0 <= i < |b| ==> s[i] == (b + "/")[i] == b[i];
    assert |a| == |b|;
    assert a == b;
    DecimalValue(u);
    DecimalValue(v);
  }

  lemma PrefixTail(d: string, p: string, n: nat)
    requires d <= p && n <= |d|
    ensures d[n..] <= p[n..] && forall k :: 0 <= k < |d| ==> p[k] == d[k]
  {
    assert p[n..][..|d| - n] == p[..|d|][n..];
  }

  lemma NumberedDir(userId: u32)
    requires userId != 0
    ensures UserDir(userId)[|USER_DATA_DIR + USER_SYMLINK|..] == Decimal(userId) + "/"
    ensures UserDir(userId)[|USER_DATA_DIR| + 16] == '_'
  {
    var a := USER_DATA_DIR + USER_SYMLINK;
    assert UserDir(userId) == a + (Decimal(userId) + "/");
  }

  lemma UserDirParts(userId: u32, p: string)
    requires UserDir(userId) <= p
    ensures |p| > |USER_DATA_DIR| + 16
    ensures p[|USER_DATA_DIR| + 16] == if userId == 0 then '/' else '_'
    ensures userId != 0 ==> Decimal(userId) + "/" <= p[|USER_DATA_DIR + USER_SYMLINK|..]
  {
    var d := UserDir(userId);
    if userId != 0 {
      NumberedDir(userId);
      PrefixTail(d, p, |USER_DATA_DIR + USER_SYMLINK|);
    } else {
      PrefixTail(d, p, 0);
    }
  }

  /** No path lies in the directories of two users. */
  lemma UsersAreApart(u: u32, v: u32, p: string)
    requires UserDir(u) <= p && UserDir(v) <= p
    ensures u == v
  {
    UserDirParts(u, p);
    UserDirParts(v, p);
    if u != 0 && v != 0 {
      SameNumber(u, v, p[|USER_DATA_DIR + USER_SYMLINK|..]);
    }
  }

  /** Outside CE storage, a transient name lies in its user's directory, and different users or different names
      lead to different paths. */
  lemma TransientPathsDiffer(u: u32, v: u32, storage: u32, storage': u32, name: string, name': string)
    requires TRANSIENT <= name && TRANSIENT <= name'
    requires storage != TEE_OBJECT_STORAGE_CE && storage' != TEE_OBJECT_STORAGE_CE
    ensures UserDir(u) <= Target(u, storage, name)
    ensures Target(u, storage, name) == Target(v, storage', name') <==> u == v && name == name'
  {
    var p, q := Target(u, storage, name), Target(v, storage', name');
    assert p[..|UserDir(u)|] == UserDir(u) && q[..|UserDir(v)|] == UserDir(v);
    if p == q {
      UsersAreApart(u, v, p);
      assert p[|UserDir(u)|..] == name[|TRANSIENT|..] && q[|UserDir(v)|..] == name'[|TRANSIENT|..];
      assert name == TRANSIENT + name[|TRANSIENT|..] && name' == TRANSIENT + name'[|TRANSIENT|..];
    }
  }

  // ---------------------------------------------------------------- where names lead, spelled out

  /** Without a user a transient name stands under the data directory as it is; with one, the part behind its first
      directory stands in the directory of the user's number. */
  lemma TransientLeads(userId: u32, storageId: u32, rest: string)
    requires storageId != TEE_OBJECT_STORAGE_CE
    ensures var path := Target(userId, storageId, "sec_storage_data/" + rest);
      if userId == 0 then path == "/data/service/el1/public/sec_storage_data/" + rest
      else exists d :: path == "/data/service/el1/public/sec_storage_data_users/" + d + "/" + rest && Value(d) == userId
  {
    TransientTail(rest);
    if userId == 0 {
      assert USER_DATA_DIR + TRANSIENT == "/data/service/el1/public/sec_storage_data/";
    } else {
      UserLeads(userId, rest);
    }
  }

  lemma TransientTail(rest: string)
    ensures TRANSIENT <= "sec_storage_data/" + rest && ("sec_storage_data/" + rest)[|TRANSIENT|..] == rest
  {
    var name := "sec_storage_data/" + rest;
    assert name[..|TRANSIENT|] == TRANSIENT;
  }

  lemma UserLeads(userId: u32, rest: string)
    requires userId != 0
    ensures UserDir(userId) + rest == "/data/service/el1/public/sec_storage_data_users/" + Decimal(userId) + "/" + rest
    ensures Value(Decimal(userId)) == userId
  {
    DecimalValue(userId);
    UsersRoot();
  }

  lemma UsersRoot()
    ensures USER_DATA_DIR + USER_SYMLINK == "/data/service/el1/public/sec_storage_data_users/"
  {
  }

  /** Private and personal names are transient ones of no user. */
  lemma PrivateLeads(storageId: u32, name: string)
    requires storageId != TEE_OBJECT_STORAGE_CE
    requires "sec_storage_data/_private" <= name || "sec_storage_data/_perso" <= name
    ensures PlainTarget(name) == Target(0, storageId, name) == "/data/service/el1/public/" + name
  {
    TransientKinds(name);
    assert name == TRANSIENT + name[|TRANSIENT|..];
    assert USER_DATA_DIR + TRANSIENT + name[|TRANSIENT|..] == USER_DATA_DIR + name;
  }

  /** A user's transient files are refused from nine-digit numbers on. */
  lemma RefusedUsers(userId: u32, storageId: u32, name: string)
    requires storageId != TEE_OBJECT_STORAGE_CE && TRANSIENT <= name && |name| > |TRANSIENT| && !HasInvalidStr(name)
    ensures Refused(userId, storageId, name) <==> userId >= 100_000_000
  {
    DecimalLength(userId, 8);
  }

  /** The bare directory is a name for no user's files but those without one. */
  lemma BareDirectory(userId: u32, storageId: u32)
    requires storageId != TEE_OBJECT_STORAGE_CE
    ensures Refused(userId, storageId, "sec_storage_data/") <==> userId != 0
  {
    var name := "sec_storage_data/";
    assert forall i :: 0 <= i < |name| ==> name[i] != '.';
  }

  /** In CE storage the names without any component are refused, besides those with `../`. */
  lemma CeRefused(userId: u32, name: string)
    ensures Refused(userId, TEE_OBJECT_STORAGE_CE, name) <==>
      HasInvalidStr(name) || forall i :: 0 <= i < |name| ==> name[i] == '/'
  {
    var k := SkipSlashes(name, 0);
    if k < |name| {
      assert TokenEnd(name, k) > k;
    }
  }

  function Pow10(k: nat): nat {
    if k == 0 then 1 else 10 * Pow10(k - 1)
  }

  lemma {:induction false} DecimalLength(n: nat, k: nat)
    requires k > 0
    ensures |Decimal(n)| <= k <==> n < Pow10(k)
    ensures Pow10(8) == 100_000_000
  {
    Tens();
    if n >= 10 && k > 1 {
      DecimalLength(n / 10, k - 1);
      assert n / 10 < Pow10(k - 1) <==> n < 10 * Pow10(k - 1);
    } else if n < 10 {
      PowPositive(k - 1);
    }
  }

  lemma Tens()
    ensures Pow10(8) == 100_000_000
  {
    assert Pow10(2) == 100 && Pow10(4) == 10_000 && Pow10(6) == 1_000_000;
  }

  lemma {:induction false} PowPositive(k: nat)
    ensures Pow10(k) >= 1
  {
    if k > 0 {
      PowPositive(k - 1);
    }
  }

  /** A name without a directory of its own is a persistent one: with the directory, with its path, or with neither, it
      is the same file. */
  lemma PersistentSpellings(userId: u32, storageId: u32, rest: string)
    requires storageId != TEE_OBJECT_STORAGE_CE
    ensures Target(userId, storageId, "sec_storage/" + rest) == "/sec_storage/" + rest
    ensures Target(userId, storageId, "/sec_storage/" + rest) == "/sec_storage/" + rest
    ensures !("sec_storage_data/" <= rest) && !("sec_storage/" <= rest) && !("/sec_storage/" <= rest) ==>
      Target(userId, storageId, rest) == "/sec_storage/" + rest
  {
    Spelled(userId, storageId, rest);
    SpelledInFull(userId, storageId, rest);
    if !("sec_storage_data/" <= rest) && !("sec_storage/" <= rest) && !("/sec_storage/" <= rest) {
      Unspelled(userId, storageId, rest);
    }
  }

  lemma Spelled(userId: u32, storageId: u32, rest: string)
    requires storageId != TEE_OBJECT_STORAGE_CE
    ensures Target(userId, storageId, "sec_storage/" + rest) == "/sec_storage/" + rest
  {
    var name := "sec_storage/" + rest;
    assert name[..|PERSISTENT|] == PERSISTENT && name[11] == '/';
    assert TRANSIENT[11] == '_' && TRANSIENT_PERSO[11] == '_' && TRANSIENT_PRIVATE[11] == '_';
    assert "/" + name == "/sec_storage/" + rest;
  }

  lemma SpelledInFull(userId: u32, storageId: u32, rest: string)
    requires storageId != TEE_OBJECT_STORAGE_CE
    ensures Target(userId, storageId, "/sec_storage/" + rest) == "/sec_storage/" + rest
  {
    var name := "/sec_storage/" + rest;
    assert name[0] == '/' && name[..|SEC_STORAGE_ROOT_DIR|] == SEC_STORAGE_ROOT_DIR;
  }

  lemma Unspelled(userId: u32, storageId: u32, rest: string)
    requires storageId != TEE_OBJECT_STORAGE_CE
    requires !("sec_storage_data/" <= rest) && !("sec_storage/" <= rest) && !("/sec_storage/" <= rest)
    ensures Target(userId, storageId, rest) == "/sec_storage/" + rest
  {
    if TRANSIENT_PERSO <= rest || TRANSIENT_PRIVATE <= rest {
      TransientKinds(rest);
      assert false;
    }
    assert ROOT_DIR + PERSISTENT == "/sec_storage/";
  }

  /** In CE storage the first component names the user, whose directory the rest goes into. */
  lemma CeLeads(userId: u32, id: string, rest: string)
    requires id != "" && forall i :: 0 <= i < |id| ==> id[i] != '/'
    ensures Target(userId, TEE_OBJECT_STORAGE_CE, id + "/" + rest) == "/data/service/el2/" + id + "/tee/sec_storage_data/" + rest
  {
    var name := id + "/" + rest;
    assert name[0] == id[0] && name[|id|] == '/' && forall i :: 0 <= i < |id| ==> name[i] == id[i];
    assert SkipSlashes(name, 0) == 0;
    assert TokenEnd(name, 0) == |id|;
    assert name[..|id|] == id && name[|id| + 1..] == rest;
  }

  // ---------------------------------------------------------------- no way up

  /** A component of the path is `..`. */
  ghost predicate Climbs(s: string) {
    exists i :: 0 <= i < |s| - 1 && ClimbsAt(s, i)
  }

  predicate ClimbsAt(s: string, i: nat)
    requires i + 1 < |s|
  {
    s[i] == '.' && s[i + 1] == '.' && (i == 0 || s[i - 1] == '/') && (i + 2 == |s| || s[i + 2] == '/')
  }

  /** The last component is `..`. */
  predicate EndsInParent(s: string) {
    |s| >= 2 && ClimbsAt(s, |s| - 2)
  }

  /** Components are not joined across a slash. */
  lemma ClimbsAfterSlash(a: string, b: string)
    requires a != "" && a[|a| - 1] == '/'
    ensures Climbs(a + b) <==> Climbs(a) || Climbs(b)
  {
    var s := a + b;
    if Climbs(s) {
      var i :| 0 <= i < |s| - 1 && ClimbsAt(s, i);
      if i < |a| {
        assert i + 2 < |a| || i + 2 == |a|;
        assert ClimbsAt(a, i);
      } else {
        assert ClimbsAt(b, i - |a|);
      }
    }
    if Climbs(a) {
      var i :| 0 <= i < |a| - 1 && ClimbsAt(a, i);
      assert ClimbsAt(s, i);
    }
    if Climbs(b) {
      var i :| 0 <= i < |b| - 1 && ClimbsAt(b, i);
      assert ClimbsAt(s, |a| + i);
    }
  }

  /** Without `../` only the last component can be `..`. */
  lemma OnlyAtTheEnd(s: string)
    requires !HasInvalidStr(s)
    ensures Climbs(s) <==> EndsInParent(s)
  {
    if Climbs(s) {
      var i :| 0 <= i < |s| - 1 && ClimbsAt(s, i);
      assert i + 2 < |s| ==> InvalidStrAt(s, i);
    }
    if EndsInParent(s) {
      assert ClimbsAt(s, |s| - 2);
    }
  }

  lemma NoDots(s: string)
    requires forall i :: 0 <= i < |s| ==> s[i] != '.'
    ensures !Climbs(s)
  {
  }

  lemma PartOf(s: string, n: nat)
    requires n <= |s| && !HasInvalidStr(s)
    ensures !HasInvalidStr(s[n..])
  {
    if HasInvalidStr(s[n..]) {
      var k :| 0 <= k < |s| - n - 2 && InvalidStrAt(s[n..], k);
      assert InvalidStrAt(s, n + k);
    }
  }

  /** What stands behind a slash of a name ends like the name. */
  lemma EndOfTail(s: string, n: nat)
    requires 0 < n < |s| && s[n - 1] == '/'
    ensures EndsInParent(s[n..]) <==> EndsInParent(s)
  {
    var b := s[n..];
    assert b[|b| - 1] == s[|s| - 1];
    assert |b| >= 2 ==> b[|b| - 2] == s[|s| - 2];
    assert |b| >= 3 ==> b[|b| - 3] == s[|s| - 3];
  }

  /** A directory and a name that is put behind it. */
  lemma BehindDirectory(dir: string, name: string)
    requires dir != "" && dir[|dir| - 1] == '/' && !HasInvalidStr(name)
    requires forall i :: 0 <= i < |dir| ==> dir[i] != '.'
    ensures Climbs(dir + name) <==> EndsInParent(name)
  {
    NoDots(dir);
    ClimbsAfterSlash(dir, name);
    OnlyAtTheEnd(name);
  }

  /** A joined path has a component `..` if and only if the name's last component is one, which the check of the
      name lets pass: in every storage and for every user. */
  lemma ClimbsExactly(userId: u32, storageId: u32, name: string)
    requires !HasInvalidStr(name) && !(storageId == TEE_OBJECT_STORAGE_CE && Token(name) == "")
    ensures Climbs(Target(userId, storageId, name)) <==> EndsInParent(name)
  {
    if storageId == TEE_OBJECT_STORAGE_CE {
      CeClimbs(name);
    } else if TRANSIENT <= name {
      TransientClimbs(userId, name);
    } else {
      PlainClimbs(name);
    }
  }

  lemma PlainClimbs(name: string)
    requires !HasInvalidStr(name)
    ensures Climbs(PlainTarget(name)) <==> EndsInParent(name)
  {
    if TRANSIENT_PERSO <= name || TRANSIENT_PRIVATE <= name {
      BehindDirectory(USER_DATA_DIR, name);
    } else if PERSISTENT <= name {
      BehindDirectory(ROOT_DIR, name);
    } else if SEC_STORAGE_ROOT_DIR <= name {
      OnlyAtTheEnd(name);
    } else {
      BehindDirectory(ROOT_DIR + PERSISTENT, name);
    }
  }

  lemma TransientClimbs(userId: u32, name: string)
    requires !HasInvalidStr(name) && TRANSIENT <= name
    ensures Climbs(UserDir(userId) + name[|TRANSIENT|..]) <==> EndsInParent(name)
  {
    var n := |TRANSIENT|;
    PartOf(name, n);
    BehindDirectory(UserDir(userId), name[n..]);
    assert name[n - 1] == '/';
    if |name| > n {
      EndOfTail(name, n);
    }
  }

  lemma CeParts(id: string, inner: string, rest: string)
    requires "/" + inner == CE_SUFFIX
    ensures CeTarget(id, rest) == DATA_CE + ((id + "/") + (inner + rest))
  {
  }

  /** The user component of a CE name, and what follows it. */
  lemma CeClimbs(name: string)
    requires !HasInvalidStr(name) && Token(name) != ""
    ensures Climbs(CeTarget(Token(name), AfterToken(name))) <==> EndsInParent(name)
  {
    var id, rest := Token(name), AfterToken(name);
    var inner := "tee/sec_storage_data/";
    CeParts(id, inner, rest);
    NoDots(DATA_CE);
    ClimbsAfterSlash(DATA_CE, (id + "/") + (inner + rest));
    ClimbsAfterSlash(id + "/", inner + rest);
    TokenClimbs(name);
    RestOk(name);
    BehindDirectory(inner, rest);
  }

  lemma RestOk(name: string)
    requires !HasInvalidStr(name)
    ensures !HasInvalidStr(AfterToken(name))
  {
    var e := TokenEnd(name, SkipSlashes(name, 0));
    if e < |name| {
      PartOf(name, e + 1);
    }
  }

  lemma TokenClimbs(name: string)
    requires !HasInvalidStr(name) && Token(name) != ""
    ensures Climbs(Token(name) + "/") || EndsInParent(AfterToken(name)) <==> EndsInParent(name)
  {
    var i := SkipSlashes(name, 0);
    var e := TokenEnd(name, i);
    var id := name[i..e];
    IdClimbs(id);
    assert forall k :: 0 <= k < |id| ==> id[k] == name[i + k];
    if e < |name| {
      IdNotParent(name, i, e);
      if e + 1 < |name| {
        EndOfTail(name, e + 1);
      } else {
        assert name[|name| - 1] == '/';
      }
    } else {
      assert i > 0 ==> name[i - 1] == '/';
      assert |id| >= 2 ==> id[|id| - 1] == name[|name| - 1] && id[|id| - 2] == name[|name| - 2];
    }
  }

  /** A component without slashes, with one behind it. */
  lemma IdClimbs(id: string)
    requires forall k :: 0 <= k < |id| ==> id[k] != '/'
    ensures Climbs(id + "/") <==> id == ".."
  {
    var s := id + "/";
    if Climbs(s) {
      var i :| 0 <= i < |s| - 1 && ClimbsAt(s, i);
      assert i == 0 && |id| == 2;
      assert id == "..";
    }
    if id == ".." {
      assert ClimbsAt(s, 0);
    }
  }

  /** A component that a slash follows is not `..`. */
  lemma IdNotParent(name: string, i: nat, e: nat)
    requires i <= e < |name| && name[e] == '/' && !HasInvalidStr(name)
    ensures name[i..e] != ".."
  {
    if name[i..e] == ".." {
      assert name[i] == name[i..e][0] && name[i + 1] == name[i..e][1];
      DotsThenSlash(name, i);
    }
  }

  lemma DotsThenSlash(s: string, i: nat)
    requires i + 2 < |s| && s[i] == '.' && s[i + 1] == '.' && s[i + 2] == '/'
    ensures HasInvalidStr(s)
  {
    assert InvalidStrAt(s, i);
  }

  /** The name `..` is not refused, and its path climbs. */
  lemma ParentNamePasses(userId: u32)
    ensures !Refused(userId, 0, "..") && Target(userId, 0, "..") == "/sec_storage/.." && Climbs(Target(userId, 0, ".."))
  {
    assert EndsInParent("..");
    ClimbsExactly(userId, 0, "..");
  }

  lemma SevenToken()
    ensures Token("7/..") == "7" && AfterToken("7/..") == ".."
  {
    assert SkipSlashes("7/..", 0) == 0 && TokenEnd("7/..", 0) == 1;
  }

  /** The same in CE storage, of the name `7/..`. */
  lemma ParentNamePassesInCe(userId: u32)
    ensures !Refused(userId, TEE_OBJECT_STORAGE_CE, "7/..")
    ensures Target(userId, TEE_OBJECT_STORAGE_CE, "7/..") == CeTarget("7", "..")
    ensures Climbs(Target(userId, TEE_OBJECT_STORAGE_CE, "7/.."))
  {
    SevenToken();
    assert EndsInParent("7/..");
    CeClimbs("7/..");
  }
}
