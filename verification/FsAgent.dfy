/** teecd's file agent: the ring of opened files and the guard against duplicate wake-ups. */
module FsAgent {
  import opened Words
  import opened Wrappers
  import opened Sequences

  // TEE's id for the file agent; also the "nothing new" mark in the shared control block.
  const AGENT_FS_ID: u32 := 0x4653_6673
  // What the TEE stores in `magic` before it posts a command.
  const POSTED: u32 := 0

  type Fd = int

  // A posted command with what the environment answers: the descriptor fopen yields, or nothing when opening fails.
  datatype Command = OpenFile(answer: Option<Fd>) | CloseFile(fd: Fd) | Other

  class OpenedFile {
    const file: Fd
    var next: OpenedFile
    var prev: OpenedFile

    constructor (file: Fd)
      ensures this.file == file && next == this && prev == this
    {
      this.file := file;
      next := this;
      prev := this;
    }
  }

  /** Entry `i` of the ring, which closes on its first entry: there is no sentinel. */
  ghost function At(s: seq<OpenedFile>, i: int): OpenedFile
    requires s != [] && 0 <= i <= |s|
  {
    if i == |s| then s[0] else s[i]
  }

  ghost predicate Linked(s: seq<OpenedFile>, i: int)
    requires 0 <= i < |s|
    reads s
  {
    s[i].next == At(s, i + 1) && At(s, i + 1).prev == s[i]
  }

  ghost predicate IsRing(s: seq<OpenedFile>)
    reads s
  {
    && (forall i, j :: 0 <= i < j < |s| ==> s[i] != s[j])
    && forall i {:trigger Linked(s, i)} :: 0 <= i < |s| ==> Linked(s, i)
  }

  ghost function Fds(s: seq<OpenedFile>): (r: seq<Fd>)
    ensures |r| == |s|
    ensures forall i :: 0 <= i < |s| ==> r[i] == s[i].file
  {
    seq(|s|, i requires 0 <= i < |s| => s[i].file)
  }

  lemma FdsRemoved(s: seq<OpenedFile>, k: nat)
    requires k < |s|
    ensures Fds(RemoveAt(s, k)) == RemoveAt(Fds(s), k)
  {
  }

  /** First position of `fd`. */
  ghost function IndexOf(s: seq<Fd>, fd: Fd): (k: nat)
    requires fd in s
    ensures k < |s| && s[k] == fd && fd !in s[..k]
  {
    if s[0] == fd then 0
    else
      assert s == [s[0]] + s[1..];
      IndexOf(s[1..], fd) + 1
  }

  /** What a command does to the list of open files. */
  ghost function Apply(s: seq<Fd>, c: Command): seq<Fd> {
    match c
    case OpenFile(Some(fd)) => s + [fd]
    case OpenFile(None) => s
    case CloseFile(fd) => if fd in s then RemoveAt(s, IndexOf(s, fd)) else s
    case Other => s
  }

  /** The files opened and not yet closed after a sequence of commands. */
  ghost function OpenFiles(cs: seq<Command>): seq<Fd> {
    if cs == [] then [] else Apply(OpenFiles(cs[..|cs| - 1]), cs[|cs| - 1])
  }

  // ---------------------------------------------------------------- which files are open, and in what order

  /** The last command that names the file opened it. */
  predicate IsOpen(cs: seq<Command>, fd: Fd) {
    cs != [] &&
    match cs[|cs| - 1]
    case OpenFile(Some(f)) => f == fd || IsOpen(cs[..|cs| - 1], fd)
    case OpenFile(None) => IsOpen(cs[..|cs| - 1], fd)
    case CloseFile(f) => f != fd && IsOpen(cs[..|cs| - 1], fd)
    case Other => IsOpen(cs[..|cs| - 1], fd)
  }

  /** Of two files, `f` was opened first, by the last command that opened each. */
  predicate OpenedFirst(cs: seq<Command>, f: Fd, g: Fd) {
    cs != [] &&
    if cs[|cs| - 1] == OpenFile(Some(g)) then true
    else cs[|cs| - 1] != OpenFile(Some(f)) && OpenedFirst(cs[..|cs| - 1], f, g)
  }

  /** fopen answers with descriptors that are not open. */
  ghost predicate FreshOpens(cs: seq<Command>) {
    cs != [] ==>
      && FreshOpens(cs[..|cs| - 1])
      && (cs[|cs| - 1].OpenFile? && cs[|cs| - 1].answer.Some? ==> !IsOpen(cs[..|cs| - 1], cs[|cs| - 1].answer.value))
  }

  ghost predicate Distinct(s: seq<Fd>) {
    forall i, j :: 0 <= i < j < |s| ==> s[i] != s[j]
  }

  ghost predicate Before(s: seq<Fd>, f: Fd, g: Fd) {
    exists i, j :: 0 <= i < j < |s| && s[i] == f && s[j] == g
  }

  lemma {:induction false} IndexIs(s: seq<Fd>, fd: Fd, n: nat)
    requires n < |s| && s[n] == fd && fd !in s[..n]
    ensures fd in s && IndexOf(s, fd) == n
  {
    if n > 0 {
      assert s[..n][0] == s[0] && s[..n] == [s[0]] + s[1..][..n - 1];
      IndexIs(s[1..], fd, n - 1);
    }
  }

  /** Closing takes out the first entry of the file, wherever it stands, and leaves the others in their order. */
  lemma CloseTakesFirst(a: seq<Fd>, fd: Fd, b: seq<Fd>)
    requires fd !in a
    ensures Apply(a + [fd] + b, CloseFile(fd)) == a + b
    ensures fd !in b ==> Apply(a + b, CloseFile(fd)) == a + b
  {
    var s := a + [fd] + b;
    assert s[|a|] == fd && s[..|a|] == a;
    IndexIs(s, fd, |a|);
    assert RemoveAt(s, |a|) == a + b;
  }

  lemma OpenKeepsOrder(s: seq<Fd>, x: Fd, f: Fd, g: Fd)
    requires Distinct(s) && x !in s && f != g
    ensures Distinct(s + [x]) && (Before(s + [x], f, g) <==> Before(s, f, g) || (f in s && g == x))
  {
    var t := s + [x];
    assert t[|s|] == x && forall i :: 0 <= i < |s| ==> t[i] == s[i];
    if f in s && g == x {
      var i :| 0 <= i < |s| && s[i] == f;
      assert t[i] == f && t[|s|] == g;
    }
    if Before(s, f, g) {
      var i, j :| 0 <= i < j < |s| && s[i] == f && s[j] == g;
      assert t[i] == f && t[j] == g;
    }
  }

  lemma Gap(a: seq<Fd>, x: Fd, b: seq<Fd>)
    ensures var s, t, n := a + [x] + b, a + b, |a|;
      && |s| == |t| + 1 && s[n] == x
      && (forall i :: 0 <= i < |t| ==> t[i] == s[if i < n then i else i + 1])
      && (forall i :: 0 <= i < |s| && i != n ==> s[i] == t[if i < n then i else i - 1])
  {
  }

  lemma GapIsDistinct(a: seq<Fd>, x: Fd, b: seq<Fd>)
    requires Distinct(a + [x] + b)
    ensures Distinct(a + b) && x !in a + b
  {
    Gap(a, x, b);
  }

  lemma CloseKeepsOrder(a: seq<Fd>, x: Fd, b: seq<Fd>, f: Fd, g: Fd)
    requires f != x && g != x
    ensures Before(a + b, f, g) <==> Before(a + [x] + b, f, g)
  {
    var s, t, n := a + [x] + b, a + b, |a|;
    Gap(a, x, b);
    if Before(t, f, g) {
      var i, j :| 0 <= i < j < |t| && t[i] == f && t[j] == g;
      assert s[if i < n then i else i + 1] == f && s[if j < n then j else j + 1] == g;
    }
    if Before(s, f, g) {
      var i, j :| 0 <= i < j < |s| && s[i] == f && s[j] == g;
      assert t[if i < n then i else i - 1] == f && t[if j < n then j else j - 1] == g;
    }
  }

  /** What is known of the list after a run of commands. */
  ghost predicate ListFits(s: seq<Fd>, cs: seq<Command>, f: Fd, g: Fd) {
    && Distinct(s) && (f in s <==> IsOpen(cs, f)) && (g in s <==> IsOpen(cs, g))
    && (f in s && g in s && f != g ==> (Before(s, f, g) <==> OpenedFirst(cs, f, g)))
  }

  lemma BeforeNeeds(s: seq<Fd>, f: Fd, g: Fd)
    ensures Before(s, f, g) ==> f in s && g in s
  {
  }

  lemma NotBoth(s: seq<Fd>, f: Fd, g: Fd)
    requires Distinct(s) && f in s && g in s && f != g
    ensures Before(s, f, g) <==> !Before(s, g, f)
  {
    var i :| 0 <= i < |s| && s[i] == f;
    var j :| 0 <= j < |s| && s[j] == g;
    if i < j {
      assert Before(s, f, g);
    } else {
      assert Before(s, g, f);
    }
  }

  lemma OpenFits(s: seq<Fd>, cs: seq<Command>, x: Fd, f: Fd, g: Fd)
    requires ListFits(s, cs, f, g) && x !in s && (x in s <==> IsOpen(cs, x))
    ensures ListFits(s + [x], cs + [OpenFile(Some(x))], f, g)
  {
    var ds := cs + [OpenFile(Some(x))];
    assert ds[..|ds| - 1] == cs;
    if f != g {
      OpenKeepsOrder(s, x, f, g);
      BeforeNeeds(s, f, g);
    }
  }

  lemma CloseFits(s: seq<Fd>, cs: seq<Command>, x: Fd, f: Fd, g: Fd)
    requires ListFits(s, cs, f, g)
    ensures ListFits(Apply(s, CloseFile(x)), cs + [CloseFile(x)], f, g)
  {
    var ds := cs + [CloseFile(x)];
    assert ds[..|ds| - 1] == cs;
    if x in s {
      var k := IndexOf(s, x);
      var a, b := s[..k], s[k + 1..];
      assert s == a + [x] + b && RemoveAt(s, k) == a + b;
      forall h | h != x
        ensures h in a + b <==> h in s
      {
      }
      GapIsDistinct(a, x, b);
      if f != x && g != x {
        CloseKeepsOrder(a, x, b, f, g);
      }
    }
  }

  lemma OtherFits(s: seq<Fd>, cs: seq<Command>, c: Command, f: Fd, g: Fd)
    requires ListFits(s, cs, f, g) && (c == OpenFile(None) || c.Other?)
    ensures ListFits(s, cs + [c], f, g)
  {
    assert (cs + [c])[..|cs|] == cs;
  }

  /** In every run of commands: a file is on the list exactly if the last command that names it opened it; no file is
      there twice; and files stand in the order in which they were opened. */
  lemma {:induction false} OpenFilesExactly(cs: seq<Command>, f: Fd, g: Fd)
    requires FreshOpens(cs)
    ensures ListFits(OpenFiles(cs), cs, f, g)
  {
    if cs != [] {
      var n := |cs| - 1;
      SplitLast(cs);
      OpenFilesExactly(cs[..n], f, g);
      match cs[n]
      case OpenFile(Some(x)) =>
        OpenFilesExactly(cs[..n], x, x);
        OpenFits(OpenFiles(cs[..n]), cs[..n], x, f, g);
      case OpenFile(None) => OtherFits(OpenFiles(cs[..n]), cs[..n], cs[n], f, g);
      case CloseFile(x) => CloseFits(OpenFiles(cs[..n]), cs[..n], x, f, g);
      case Other => OtherFits(OpenFiles(cs[..n]), cs[..n], cs[n], f, g);
    }
  }

  class Agent {
    var firstFile: Option<OpenedFile>
    // the control block shared with the TEE
    var magic: u32
    var cmd: Command
    ghost var nodes: seq<OpenedFile>
    ghost var acted: seq<Command>
    ghost var responses: nat

    ghost predicate Valid()
      reads this, nodes
    {
      && IsRing(nodes)
      && firstFile == (if nodes == [] then None else Some(nodes[0]))
      && Fds(nodes) == OpenFiles(acted)
    }

    constructor (cmd: Command)
      ensures Valid() && magic == AGENT_FS_ID && acted == [] && responses == 0 && nodes == []
    {
      firstFile := None;
      magic := AGENT_FS_ID;
      this.cmd := cmd;
      nodes := [];
      acted := [];
      responses := 0;
    }

    /** Links a new entry behind the last one. */
    method AddOpenFile(file: Fd)
      requires IsRing(nodes) && firstFile == (if nodes == [] then None else Some(nodes[0]))
      modifies this`firstFile, this`nodes, nodes
      ensures |nodes| == |old(nodes)| + 1 && nodes[..|old(nodes)|] == old(nodes) && nodes[|old(nodes)|].file == file
      ensures IsRing(nodes) && firstFile == Some(nodes[0]) && fresh(nodes[|old(nodes)|])
    {
      var f := new OpenedFile(file);
      ghost var s := nodes;
      if firstFile.None? {
        firstFile := Some(f);
      } else {
        var first := firstFile.value;
        assert Linked(s, |s| - 1);
        first.prev.next := f;
        f.prev := first.prev;
        f.next := first;
        first.prev := f;
      }
      nodes := s + [f];
      forall i | 0 <= i < |nodes|
        ensures Linked(nodes, i)
      {
        assert i < |s| ==> old(Linked(s, i));
      }
    }

    /** Unlinks an entry, moving the start of the ring when it was the first. */
    method DelOpenFile(f: OpenedFile, ghost k: nat)
      requires IsRing(nodes) && firstFile == (if nodes == [] then None else Some(nodes[0]))
      requires k < |nodes| && nodes[k] == f
      modifies this`firstFile, this`nodes, nodes
      ensures IsRing(nodes) && firstFile == (if nodes == [] then None else Some(nodes[0]))
      ensures nodes == RemoveAt(old(nodes), k)
    {
      ghost var s := nodes;
      var next := f.next;
      assert Linked(s, k) && Linked(s, if k == 0 then |s| - 1 else k - 1);
      if f == next {
        assert |s| == 1;
        firstFile := None;
      } else {
        if Some(f) == firstFile {
          firstFile := Some(f.next);
        }
        next.prev := f.prev;
        f.prev.next := next;
      }
      nodes := RemoveAt(s, k);
      forall i | 0 <= i < |nodes|
        ensures Linked(nodes, i)
      {
        assert old(Linked(s, i)) && old(Linked(s, i + 1));
      }
    }

    /** The first entry with this descriptor, found by going round the ring once. */
    method FindOpenFile(fd: Fd) returns (r: Option<OpenedFile>, ghost k: nat)
      requires IsRing(nodes) && firstFile == (if nodes == [] then None else Some(nodes[0]))
      ensures r.Some? <==> fd in Fds(nodes)
      ensures r.Some? ==> k == IndexOf(Fds(nodes), fd) && r.value == nodes[k]
    {
      k := 0;
      if firstFile.None? {
        return None, 0;
      }
      var p := firstFile.value;
      while true
        invariant 0 <= k < |nodes| && p == nodes[k]
        invariant forall j :: 0 <= j < k ==> nodes[j].file != fd
        decreases |nodes| - k
      {
        assert Linked(nodes, k);
        if p.file == fd {
          return Some(p), k;
        }
        p := p.next;
        k := k + 1;
        if Some(p) == firstFile {
          return None, 0;
        }
      }
    }

    /** CloseWork: closes and unlinks the file if this agent opened it. */
    method CloseWork(fd: Fd)
      requires IsRing(nodes) && firstFile == (if nodes == [] then None else Some(nodes[0]))
      modifies this`firstFile, this`nodes, nodes
      ensures IsRing(nodes) && firstFile == (if nodes == [] then None else Some(nodes[0]))
      ensures forall n :: n in nodes ==> n in old(nodes)
      ensures Fds(nodes) == Apply(old(Fds(nodes)), CloseFile(fd))
    {
      ghost var s := nodes;
      var f;
      ghost var k;
      f, k := FindOpenFile(fd);
      if f.Some? {
        DelOpenFile(f.value, k);
        FdsRemoved(s, k);
      }
    }

    /** The command in the control block is carried out, once. */
    method Dispatch()
      requires Valid()
      modifies this`firstFile, this`nodes, this`acted, nodes
      ensures Valid() && acted == old(acted) + [cmd]
      ensures forall n :: n in nodes ==> n in old(nodes) || fresh(n)
    {
      assert (acted + [cmd])[..|acted|] == acted;
      match cmd {
        case OpenFile(Some(fd)) =>
          AddOpenFile(fd);
          assert Fds(nodes) == old(Fds(nodes)) + [fd];
        case OpenFile(None) =>
        case CloseFile(fd) =>
          CloseWork(fd);
        case Other =>
      }
      acted := acted + [cmd];
    }

    /** FsWorkEventHandle: a wake-up that finds the mark of a handled command is answered but not acted on. */
    method HandleWakeup()
      requires Valid()
      modifies this`firstFile, this`nodes, this`acted, this`magic, this`responses, nodes
      ensures Valid() && magic == AGENT_FS_ID && responses == old(responses) + 1
      ensures acted == old(acted) + if old(magic) == AGENT_FS_ID then [] else [cmd]
      ensures old(magic) == AGENT_FS_ID ==> nodes == old(nodes)
      ensures forall n :: n in nodes ==> n in old(nodes) || fresh(n)
    {
      if magic != AGENT_FS_ID {
        Dispatch();
        magic := AGENT_FS_ID;
      }
      responses := responses + 1;
    }

    /** The TEE's side: the command is stored and the mark reset, which it does only once the last one is handled. */
    method Post(c: Command)
      requires Valid() && magic == AGENT_FS_ID
      modifies this`cmd, this`magic
      ensures Valid() && cmd == c && magic == POSTED
    {
      cmd, magic := c, POSTED;
    }

    method Step(e: Event)
      requires Valid() && (e.Posted? ==> magic == AGENT_FS_ID)
      modifies this, nodes
      ensures Valid() && magic == if e.Posted? then POSTED else AGENT_FS_ID
      ensures cmd == if e.Posted? then e.c else old(cmd)
      ensures acted == old(acted) + if e.Wakeup? && old(magic) != AGENT_FS_ID then [cmd] else []
      ensures responses == old(responses) + if e.Wakeup? then 1 else 0
      ensures forall n :: n in nodes ==> n in old(nodes) || fresh(n)
    {
      match e {
        case Posted(c) => Post(c);
        case Wakeup => HandleWakeup();
      }
    }

    /** Any run of posts and wake-ups, real or duplicate: each posted command acts at most once and in order, only
        the last can still be waiting, every wake-up is answered once, and the ring holds, in order, exactly the
        files opened and not yet closed. */
    method Run(events: seq<Event>)
      requires Valid() && magic == AGENT_FS_ID && acted == [] && Legal(events)
      modifies this, nodes
      ensures Valid() && (magic == AGENT_FS_ID <==> !Waiting(events))
      ensures acted + (if Waiting(events) then [cmd] else []) == Posts(events)
      ensures responses == old(responses) + Wakeups(events)
      ensures Fds(nodes) == OpenFiles(acted)
      ensures forall n :: n in nodes ==> n in old(nodes) || fresh(n)
      decreases |events|
    {
      if events != [] {
        var n := |events| - 1;
        Run(events[..n]);
        assert forall i :: 0 <= i < |nodes| ==> nodes[i] in nodes;
        assert forall x :: x in nodes ==> x in old(nodes) || fresh(x);
        Step(events[n]);
      }
    }
  }

  datatype Event = Posted(c: Command) | Wakeup

  /** A posted command has not been handled yet. */
  predicate Waiting(events: seq<Event>) {
    events != [] && events[|events| - 1].Posted?
  }

  /** The TEE posts only after the previous command was handled. */
  predicate Legal(events: seq<Event>) {
    events == [] ||
    (Legal(events[..|events| - 1]) && (events[|events| - 1].Posted? ==> !Waiting(events[..|events| - 1])))
  }

  function Posts(events: seq<Event>): seq<Command> {
    if events == [] then []
    else
      var n := |events| - 1;
      Posts(events[..n]) + if events[n].Posted? then [events[n].c] else []
  }

  function Wakeups(events: seq<Event>): nat {
    if events == [] then 0
    else
      var n := |events| - 1;
      Wakeups(events[..n]) + if events[n].Wakeup? then 1 else 0
  }

  /** What was posted, and how often the agent was woken, piece by piece. */
  lemma {:induction false} EventPieces(a: seq<Event>, b: seq<Event>)
    ensures Posts(a + b) == Posts(a) + Posts(b) && Wakeups(a + b) == Wakeups(a) + Wakeups(b)
  {
    if b == [] {
      NothingBehind(a);
      NothingBehind(Posts(a));
    } else {
      var n := |b| - 1;
      EventPieces(a, b[..n]);
      Assoc(a, b[..n], [b[n]]);
      SplitLast(b);
      LastPiece(a + b[..n], b[n]);
      LastPiece(b[..n], b[n]);
      Assoc(Posts(a), Posts(b[..n]), if b[n].Posted? then [b[n].c] else []);
    }
  }

  lemma LastPiece(a: seq<Event>, e: Event)
    ensures Posts(a + [e]) == Posts(a) + if e.Posted? then [e.c] else []
    ensures Wakeups(a + [e]) == Wakeups(a) + if e.Wakeup? then 1 else 0
  {
    assert (a + [e])[..|a|] == a;
  }

  lemma OnePiece(e: Event)
    ensures Posts([e]) == (if e.Posted? then [e.c] else []) && Wakeups([e]) == (if e.Wakeup? then 1 else 0)
    ensures Waiting([e]) <==> e.Posted?
  {
    assert [e][..0] == [];
  }
}
