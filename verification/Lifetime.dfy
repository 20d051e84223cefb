/** Contexts, sessions and shared-memory blocks of the vendor library as one transition system: every locked
    region is a step, and steps of different threads interleave freely. Nothing is asked about the order in
    which a thread gives back what it took, or that it does at all. */
module Lifetime {
  import opened Wrappers
  import opened Slots

  datatype Obj = Ctx(id: nat) | Sess(id: nat) | Block(id: nat)

  // Live: counted. Reserved: a block that has its bitmap bit but is not published yet. Dying: a block whose count
  // reached zero and whose bit is about to be cleared. Finalizing: a context that is being torn down.
  datatype Phase = Live | Reserved | Dying | Finalizing | Gone

  // `owner` is the context the object belongs to; `ended` counts how often its end (finalize, free) began.
  datatype Info = Info(owner: nat, phase: Phase, ops: nat, ended: nat)

  datatype State = State(
    objects: map<Obj, Info>,
    listed: set<Obj>,
    handles: map<nat, Obj>,       // the references threads hold; one that is never returned stays here
    fds: map<nat, int>,           // descriptor of each context
    bits: map<nat, set<nat>>,     // shm_bitmap of each context
    offsets: map<nat, nat>)       // bitmap offset of each allocated block

  const EMPTY := State(map[], {}, map[], map[], map[], map[])

  datatype Event =
    | InitContext(c: nat, fd: int, h: nat)            // TEEC_InitializeContextInner
    | GetContext(fd: int, c: nat, h: nat)             // GetBnContext that finds c
    | PutContext(h: nat)                              // PutBnContext
    | RemoveContext(fd: int, c: nat, h: nat)          // FindAndRemoveBnContext that finds c
    | AddSession(under: nat, x: nat, h: nat)          // AddSessionList
    | GetSession(under: nat, x: nat, h: nat)          // GetBnSession that finds x
    | RemoveSession(under: nat, x: nat, h: nat)       // FindAndRemoveSession that finds x
    | PutSession(h: nat)                              // PutBnSession
    | RegisterBlock(under: nat, b: nat, h: nat)       // TEEC_RegisterSharedMemoryInner
    | ReserveSlot(under: nat, b: nat, slot: nat)      // GetAndSetBitWithLock
    | AbandonSlot(b: nat)                             // allocation failed: ClearBitWithLock
    | PublishBlock(b: nat, h: nat)                    // mapped: listed and counted
    | GetBlock(under: nat, b: nat, h: nat)            // GetBnShmByOffset that finds b
    | RemoveBlock(under: nat, b: nat, h: nat)         // TEEC_FindAndRemoveShrMemInner that finds b
    | PutBlock(h: nat)                                // PutBnShrMem
    | ReleaseSlot(b: nat)                             // ReleaseSharedMemory: ClearBitWithLock, free
    | PeekBlock(b: nat)                               // the daemon reads a block after it put it
    | FinalizeSession(c: nat, x: nat)                 // one turn of the session loop of TEEC_FinalizeContextInner
    | FinalizeBlock(c: nat, b: nat)                   // one turn of its shared-memory loop
    | FreeContext(c: nat)                             // its end: close and free

  // ---------------------------------------------------------------- the steps

  /** Initial count 1 for the creator, plus one for the list. */
  function Born(s: State, o: Obj, owner: nat, h: nat): State {
    s.(objects := s.objects[o := Info(owner, Live, 2, 0)],
       listed := s.listed + {o},
       handles := s.handles[h := o])
  }

  // Lookups are total; the invariant shows that what a step looks up is there.
  function InfoOf(s: State, o: Obj): Info {
    if o in s.objects then s.objects[o] else Info(0, Gone, 0, 0)
  }

  function BitsOf(s: State, c: nat): set<nat> {
    if c in s.bits then s.bits[c] else {}
  }

  function SlotOf(s: State, b: nat): set<nat> {
    if b in s.offsets then {s.offsets[b]} else {}
  }

  function Take(s: State, o: Obj, h: nat): State {
    s.(objects := s.objects[o := InfoOf(s, o).(ops := InfoOf(s, o).ops + 1)],
       handles := s.handles[h := o])
  }

  /** Taking an object off its list passes the list's reference to the caller. */
  function Unlist(s: State, o: Obj, h: nat): State {
    s.(listed := s.listed - {o}, handles := s.handles[h := o])
  }

  /** What an object becomes when its count reaches zero. */
  function Ending(s: State, o: Obj): Phase {
    match o
    case Ctx(_) => Finalizing
    case Sess(_) => Gone
    case Block(b) => if b in s.offsets then Dying else Gone
  }

  function Decrement(s: State, o: Obj): Info {
    var i := InfoOf(s, o);
    if i.ops <= 1 then
      var p := Ending(s, o);
      Info(i.owner, p, 0, if p.Dying? then i.ended else i.ended + 1)
    else i.(ops := i.ops - 1)
  }

  function Drop(s: State, h: nat): State
    requires h in s.handles
  {
    var o := s.handles[h];
    s.(objects := s.objects[o := Decrement(s, o)], handles := s.handles - {h})
  }

  /** The bit is cleared and the block freed. */
  function ClearSlot(s: State, b: nat): State {
    var i := InfoOf(s, Block(b));
    s.(objects := s.objects[Block(b) := Info(i.owner, Gone, 0, i.ended + 1)],
       bits := s.bits[i.owner := BitsOf(s, i.owner) - SlotOf(s, b)])
  }

  /** A block gets a bit of its context before it is mapped. */
  function Reserve(s: State, c: nat, b: nat, slot: nat): State {
    s.(objects := s.objects[Block(b) := Info(c, Reserved, 0, 0)],
       bits := s.bits[c := BitsOf(s, c) + {slot}],
       offsets := s.offsets[b := slot])
  }

  /** A turn of a teardown loop: off the list, and the list's reference dropped. */
  function TornOff(s: State, o: Obj): State {
    s.(objects := s.objects[o := Decrement(s, o)], listed := s.listed - {o})
  }

  predicate IsObj(s: State, o: Obj, owner: nat) {
    o in s.objects && s.objects[o].owner == owner
  }

  predicate Fresh(s: State, o: Obj, h: nat) {
    o !in s.objects && h !in s.handles
  }

  /** The thread behind a step holds context handle `under`. */
  predicate HoldsContext(s: State, under: nat) {
    under in s.handles && s.handles[under].Ctx?
  }

  function ContextOf(s: State, under: nat): nat
    requires HoldsContext(s, under)
  {
    s.handles[under].id
  }

  /** When a step can happen. The searches find some listed object with the wanted key; a kernel descriptor is
      never one that is still open. Nothing here asks whether an object is still alive. */
  predicate Enabled(s: State, e: Event) {
    match e
    case InitContext(c, fd, h) =>
      Fresh(s, Ctx(c), h) && forall k :: k in s.fds && Ctx(k) in s.objects && s.objects[Ctx(k)].phase != Gone ==> s.fds[k] != fd
    case GetContext(fd, c, h) => Ctx(c) in s.listed && c in s.fds && s.fds[c] == fd && h !in s.handles
    case PutContext(h) => HoldsContext(s, h)
    case RemoveContext(fd, c, h) => Ctx(c) in s.listed && c in s.fds && s.fds[c] == fd && h !in s.handles
    case AddSession(under, x, h) => HoldsContext(s, under) && Fresh(s, Sess(x), h)
    case GetSession(under, x, h) =>
      HoldsContext(s, under) && IsObj(s, Sess(x), ContextOf(s, under)) && Sess(x) in s.listed && h !in s.handles
    case RemoveSession(under, x, h) =>
      HoldsContext(s, under) && IsObj(s, Sess(x), ContextOf(s, under)) && Sess(x) in s.listed && h !in s.handles
    case PutSession(h) => h in s.handles && s.handles[h].Sess?
    case RegisterBlock(under, b, h) => HoldsContext(s, under) && Fresh(s, Block(b), h) && b !in s.offsets
    case ReserveSlot(under, b, slot) =>
      && HoldsContext(s, under) && Block(b) !in s.objects && b !in s.offsets && ContextOf(s, under) in s.bits
      && FirstFree(s.bits[ContextOf(s, under)], 0) == Some(slot)
    case AbandonSlot(b) => Block(b) in s.objects && s.objects[Block(b)].phase.Reserved?
    case PublishBlock(b, h) => Block(b) in s.objects && s.objects[Block(b)].phase.Reserved? && h !in s.handles
    case GetBlock(under, b, h) =>
      HoldsContext(s, under) && IsObj(s, Block(b), ContextOf(s, under)) && Block(b) in s.listed && h !in s.handles
    case RemoveBlock(under, b, h) =>
      HoldsContext(s, under) && IsObj(s, Block(b), ContextOf(s, under)) && Block(b) in s.listed && h !in s.handles
    case PutBlock(h) => h in s.handles && s.handles[h].Block?
    case ReleaseSlot(b) => Block(b) in s.objects && s.objects[Block(b)].phase.Dying?
    case PeekBlock(b) => Block(b) in s.objects && !s.objects[Block(b)].phase.Reserved?
    case FinalizeSession(c, x) => InTeardown(s, c) && IsObj(s, Sess(x), c) && Sess(x) in s.listed
    case FinalizeBlock(c, b) => InTeardown(s, c) && NoneListed(s, c, false) && IsObj(s, Block(b), c) && Block(b) in s.listed
    case FreeContext(c) => InTeardown(s, c) && NoneListed(s, c, true)
  }

  predicate InTeardown(s: State, c: nat) {
    Ctx(c) in s.objects && s.objects[Ctx(c)].phase.Finalizing?
  }

  /** No session of `c` is listed any more, nor any block when `blocks` is asked for too. */
  predicate NoneListed(s: State, c: nat, blocks: bool) {
    forall o :: o in s.listed && o in s.objects && s.objects[o].owner == c ==> o.Ctx? || (o.Block? && !blocks)
  }

  /** The state after a step. */
  function Next(s: State, e: Event): State
    requires Enabled(s, e)
  {
    match e
    case InitContext(c, fd, h) => Born(s, Ctx(c), c, h).(fds := s.fds[c := fd], bits := s.bits[c := {}])
    case GetContext(_, c, h) => Take(s, Ctx(c), h)
    case PutContext(h) => Drop(s, h)
    case RemoveContext(_, c, h) => Unlist(s, Ctx(c), h)
    case AddSession(under, x, h) => Born(s, Sess(x), ContextOf(s, under), h)
    case GetSession(_, x, h) => Take(s, Sess(x), h)
    case RemoveSession(_, x, h) => Unlist(s, Sess(x), h)
    case PutSession(h) => Drop(s, h)
    case RegisterBlock(under, b, h) => Born(s, Block(b), ContextOf(s, under), h)
    case ReserveSlot(under, b, slot) => Reserve(s, ContextOf(s, under), b, slot)
    case AbandonSlot(b) => ClearSlot(s, b)
    case PublishBlock(b, h) => Born(s, Block(b), InfoOf(s, Block(b)).owner, h)
    case GetBlock(_, b, h) => Take(s, Block(b), h)
    case RemoveBlock(_, b, h) => Unlist(s, Block(b), h)
    case PutBlock(h) => Drop(s, h)
    case ReleaseSlot(b) => ClearSlot(s, b)
    case PeekBlock(_) => s
    case FinalizeSession(_, x) => TornOff(s, Sess(x))
    case FinalizeBlock(_, b) =>
      if Decrement(s, Block(b)).phase.Dying? then ClearSlot(TornOff(s, Block(b)), b) else TornOff(s, Block(b))
    case FreeContext(c) => s.(objects := s.objects[Ctx(c) := InfoOf(s, Ctx(c)).(phase := Gone)])
  }

  // ---------------------------------------------------------------- the invariant

  ghost function On(handles: map<nat, Obj>, o: Obj): set<nat> {
    set h | h in handles && handles[h] == o
  }

  /** An object is counted exactly, is in a phase of its kind, and has begun to end at most once. */
  ghost predicate ObjOk(s: State, o: Obj)
    requires o in s.objects
  {
    var i := s.objects[o];
    // the reference-count law
    && i.ops == |On(s.handles, o)| + (if o in s.listed then 1 else 0)
    && (i.phase.Live? <==> i.ops > 0)
    && i.ended == (if i.phase.Gone? || i.phase.Finalizing? then 1 else 0)
    && (o.Ctx? ==> i.owner == o.id && !i.phase.Reserved? && !i.phase.Dying?)
    && (o.Sess? ==> i.phase.Live? || i.phase.Gone?)
    && (o.Block? ==> !i.phase.Finalizing? && ((i.phase.Reserved? || i.phase.Dying?) ==> o.id in s.offsets))
    && Ctx(i.owner) in s.objects
  }

  ghost predicate ContextOk(s: State, c: nat) {
    (Ctx(c) in s.objects <==> c in s.fds) && (Ctx(c) in s.objects <==> c in s.bits)
  }

  ghost predicate IsOpen(s: State, c: nat) {
    c in s.fds && Ctx(c) in s.objects && s.objects[Ctx(c)].phase != Gone
  }

  /** Block `b` of context `c` owns bitmap bit `k`. */
  ghost predicate OwnsSlot(s: State, b: nat, c: nat, k: nat) {
    b in s.offsets && s.offsets[b] == k && IsObj(s, Block(b), c) && s.objects[Block(b)].phase != Gone
  }

  /** A bit of a context is set exactly when one block that is not gone owns that offset. */
  ghost predicate SlotLaw(s: State) {
    && (forall b :: b in s.offsets ==> Block(b) in s.objects && s.offsets[b] < SLOTS)
    && (forall c, b, k {:trigger OwnsSlot(s, b, c, k)} :: OwnsSlot(s, b, c, k) ==> c in s.bits && k in s.bits[c])
    && (forall c, k :: c in s.bits && k in s.bits[c] ==> exists b :: OwnsSlot(s, b, c, k))
    && (forall c, b, b', k {:trigger OwnsSlot(s, b, c, k), OwnsSlot(s, b', c, k)} ::
          OwnsSlot(s, b, c, k) && OwnsSlot(s, b', c, k) ==> b == b')
  }

  /** The part of the invariant about counts, phases and handles. */
  ghost predicate Graph(s: State) {
    && s.listed <= s.objects.Keys && s.handles.Values <= s.objects.Keys
    && (forall o {:trigger ObjOk(s, o)} :: o in s.objects ==> ObjOk(s, o))
  }

  /** The part about descriptors. */
  ghost predicate Descriptors(s: State) {
    && (forall c {:trigger ContextOk(s, c)} :: ContextOk(s, c))
    && (forall c, k {:trigger IsOpen(s, c), IsOpen(s, k)} :: IsOpen(s, c) && IsOpen(s, k) && c != k ==> s.fds[c] != s.fds[k])
  }

  ghost predicate Inv(s: State) {
    Graph(s) && Descriptors(s) && SlotLaw(s)
  }

  // ---------------------------------------------------------------- reading the invariant

  /** What a handle names is alive. */
  lemma Held(s: State, h: nat)
    requires Inv(s) && h in s.handles
    ensures s.handles[h] in s.objects && s.objects[s.handles[h]].phase.Live? && s.objects[s.handles[h]].ops > 0
  {
    var o := s.handles[h];
    assert o in s.handles.Values;
    assert ObjOk(s, o) && h in On(s.handles, o);
  }

  lemma Counted(s: State, o: Obj)
    requires Inv(s) && o in s.listed
    ensures o in s.objects && s.objects[o].ops > 0 && s.objects[o].phase.Live?
  {
    assert ObjOk(s, o);
  }

  predicate IsLive(s: State, o: Obj) {
    o in s.objects && s.objects[o].phase.Live? && s.objects[o].ops > 0
  }

  /** A step that gives back a reference, or takes an object off its list in a teardown, finds it alive. */
  predicate FindsLive(s: State, e: Event)
    requires Enabled(s, e)
  {
    match e
    case PutContext(h) => IsLive(s, s.handles[h])
    case PutSession(h) => IsLive(s, s.handles[h])
    case PutBlock(h) => IsLive(s, s.handles[h])
    case FinalizeSession(_, x) => IsLive(s, Sess(x))
    case FinalizeBlock(_, b) => IsLive(s, Block(b))
    case _ => true
  }

  lemma StepFindsLive(s: State, e: Event)
    requires Inv(s) && Enabled(s, e)
    ensures FindsLive(s, e)
  {
    if e.PutContext? || e.PutSession? || e.PutBlock? {
      Held(s, e.h);
    } else if e.FinalizeSession? {
      Counted(s, Sess(e.x));
    } else if e.FinalizeBlock? {
      Counted(s, Block(e.b));
    }
  }

  lemma Keyed(s: State, o: Obj)
    requires Inv(s) && o in s.objects
    ensures s.objects[o].owner in s.bits && Ctx(s.objects[o].owner) in s.objects
  {
    assert ObjOk(s, o) && ContextOk(s, s.objects[o].owner);
  }

  lemma Slotted(s: State, b: nat)
    requires Inv(s) && Block(b) in s.objects && (s.objects[Block(b)].phase.Reserved? || s.objects[Block(b)].phase.Dying?)
    ensures b in s.offsets && s.objects[Block(b)].owner in s.bits && Ctx(s.objects[Block(b)].owner) in s.objects
  {
    assert ObjOk(s, Block(b));
    Keyed(s, Block(b));
  }

  // ---------------------------------------------------------------- every step keeps the invariant

  lemma OnAdded(handles: map<nat, Obj>, h: nat, x: Obj, o: Obj)
    requires h !in handles
    ensures |On(handles[h := x], o)| == |On(handles, o)| + if x == o then 1 else 0
  {
    assert On(handles[h := x], o) == On(handles, o) + if x == o then {h} else {};
  }

  lemma OnDropped(handles: map<nat, Obj>, h: nat, o: Obj)
    requires h in handles
    ensures |On(handles - {h}, o)| == |On(handles, o)| - if handles[h] == o then 1 else 0
  {
    assert On(handles - {h}, o) == On(handles, o) - if handles[h] == o then {h} else {};
  }

  /** No handle names an object that does not exist yet. */
  lemma Unnamed(s: State, o: Obj)
    requires Inv(s) && o !in s.objects
    ensures |On(s.handles, o)| == 0 && o !in s.listed
  {
    assert forall h :: h in s.handles ==> s.handles[h] in s.handles.Values;
    assert On(s.handles, o) == {};
  }

  /** An object a step does not mention stays as it was. */
  ghost predicate SameObject(s: State, s': State, o: Obj) {
    && o in s.objects && o in s'.objects && s'.objects[o] == s.objects[o]
    && |On(s'.handles, o)| == |On(s.handles, o)| && (o in s'.listed <==> o in s.listed)
  }

  lemma ObjKept(s: State, s': State, o: Obj)
    requires Inv(s) && SameObject(s, s', o) && s.offsets.Keys <= s'.offsets.Keys && s.objects.Keys <= s'.objects.Keys
    ensures ObjOk(s', o)
  {
    assert ObjOk(s, o);
  }

  /** Objects known before are still known, with the same owner. */
  ghost predicate OwnersKept(s: State, s': State) {
    forall o :: o in s.objects ==> o in s'.objects && s'.objects[o].owner == s.objects[o].owner
  }

  lemma BornKeeps(s: State, s': State, o: Obj, owner: nat, h: nat)
    requires Inv(s) && h !in s.handles
    requires o in s.objects ==> o.Block? && s.objects[o] == Info(owner, Reserved, 0, 0)
    requires if o.Ctx? then owner == o.id else Ctx(owner) in s.objects
    requires s'.objects == Born(s, o, owner, h).objects && s'.listed == s.listed + {o}
    requires s'.handles == s.handles[h := o] && s'.offsets == s.offsets
    ensures Graph(s')
  {
    if o in s.objects {
      assert ObjOk(s, o);
    } else {
      Unnamed(s, o);
    }
    forall p | p in s'.objects
      ensures ObjOk(s', p)
    {
      OnAdded(s.handles, h, o, p);
      if p != o {
        ObjKept(s, s', p);
      }
    }
  }

  lemma TakeKeeps(s: State, o: Obj, h: nat)
    requires Inv(s) && h !in s.handles && o in s.listed && o in s.objects
    ensures Graph(Take(s, o, h))
  {
    var s' := Take(s, o, h);
    forall p | p in s'.objects
      ensures ObjOk(s', p)
    {
      TakeOne(s, o, h, p);
    }
  }

  lemma TakeOne(s: State, o: Obj, h: nat, p: Obj)
    requires Inv(s) && h !in s.handles && o in s.listed && o in s.objects && p in s.objects
    ensures ObjOk(Take(s, o, h), p)
  {
    OnAdded(s.handles, h, o, p);
    assert ObjOk(s, o) && ObjOk(s, p);
  }

  lemma UnlistKeeps(s: State, o: Obj, h: nat)
    requires Inv(s) && h !in s.handles && o in s.listed && o in s.objects
    ensures Graph(Unlist(s, o, h))
  {
    var s' := Unlist(s, o, h);
    forall p | p in s'.objects
      ensures ObjOk(s', p)
    {
      UnlistOne(s, o, h, p);
    }
  }

  lemma UnlistOne(s: State, o: Obj, h: nat, p: Obj)
    requires Inv(s) && h !in s.handles && o in s.listed && p in s.objects
    ensures ObjOk(Unlist(s, o, h), p)
  {
    OnAdded(s.handles, h, o, p);
    assert ObjOk(s, p);
  }

  lemma DropKeeps(s: State, h: nat)
    requires Inv(s) && h in s.handles && s.handles[h] in s.objects && s.objects[s.handles[h]].ops > 0
    ensures Graph(Drop(s, h))
  {
    var s', o := Drop(s, h), s.handles[h];
    assert ObjOk(s, o);
    forall p | p in s'.objects
      ensures ObjOk(s', p)
    {
      OnDropped(s.handles, h, p);
      if p != o {
        ObjKept(s, s', p);
      }
    }
  }

  // ------------------------------------------------ bitmap and teardown steps

  /** An object that is not counted, changed in place. */
  lemma UncountedKeeps(s: State, s': State, o: Obj, i: Info)
    requires Inv(s) && s'.objects == s.objects[o := i] && s'.listed == s.listed && s'.handles == s.handles
    requires s.offsets.Keys <= s'.offsets.Keys
    requires o !in s.listed && On(s.handles, o) == {} && i.ops == 0 && !i.phase.Live?
    requires o in s.objects ==> i.owner == s.objects[o].owner
    requires i.ended == if i.phase.Gone? || i.phase.Finalizing? then 1 else 0
    requires match o
      case Ctx(c) => i.owner == c && i.phase.Gone?
      case Sess(_) => i.phase.Gone? && Ctx(i.owner) in s.objects
      case Block(b) => Ctx(i.owner) in s.objects && !i.phase.Finalizing? && (i.phase.Gone? || b in s'.offsets)
    ensures Graph(s')
  {
    forall p | p in s'.objects
      ensures ObjOk(s', p)
    {
      if p != o {
        ObjKept(s, s', p);
      }
    }
  }

  lemma SlotsSame(s: State, s': State)
    requires Inv(s) && s'.offsets == s.offsets && OwnersKept(s, s')
    requires forall c :: c in s.bits ==> c in s'.bits && s'.bits[c] == s.bits[c]
    requires forall c :: c in s'.bits && c !in s.bits ==> s'.bits[c] == {}
    requires forall b :: b in s.offsets && Block(b) in s.objects && Block(b) in s'.objects ==>
      (s'.objects[Block(b)].phase.Gone? <==> s.objects[Block(b)].phase.Gone?)
    ensures SlotLaw(s')
  {
    forall b, c, k
      ensures OwnsSlot(s', b, c, k) <==> OwnsSlot(s, b, c, k)
    {
    }
    forall c, k | c in s'.bits && k in s'.bits[c]
      ensures exists b :: OwnsSlot(s', b, c, k)
    {
      var b :| OwnsSlot(s, b, c, k);
      assert OwnsSlot(s', b, c, k);
    }
  }

  lemma SlotsCleared(s: State, s': State, b: nat)
    requires Inv(s) && Block(b) in s.objects && b in s.offsets && s'.offsets == s.offsets
    requires s.objects[Block(b)].owner in s.bits && !s.objects[Block(b)].phase.Gone?
    requires s'.bits == s.bits[s.objects[Block(b)].owner := s.bits[s.objects[Block(b)].owner] - {s.offsets[b]}]
    requires Block(b) in s'.objects && s'.objects[Block(b)].phase.Gone? && s'.objects == s.objects[Block(b) := s'.objects[Block(b)]]
    ensures SlotLaw(s')
  {
    var c0 := s.objects[Block(b)].owner;
    assert OwnsSlot(s, b, c0, s.offsets[b]);
    forall d, c, k
      ensures OwnsSlot(s', d, c, k) <==> OwnsSlot(s, d, c, k) && d != b
    {
    }
    forall c, k | c in s'.bits && k in s'.bits[c]
      ensures exists d :: OwnsSlot(s', d, c, k)
    {
      var d :| OwnsSlot(s, d, c, k);
      assert OwnsSlot(s', d, c, k);
    }
  }

  lemma SlotReserved(s: State, s': State, b: nat, c: nat, slot: nat)
    requires Inv(s) && Block(b) !in s.objects && c in s.bits && slot < SLOTS && slot !in s.bits[c]
    requires s'.bits == s.bits[c := s.bits[c] + {slot}] && s'.offsets == s.offsets[b := slot]
    requires Block(b) in s'.objects && s'.objects[Block(b)].owner == c && !s'.objects[Block(b)].phase.Gone?
    requires s'.objects == s.objects[Block(b) := s'.objects[Block(b)]]
    ensures SlotLaw(s')
  {
    assert OwnsSlot(s', b, c, slot);
    forall d, e, k
      ensures OwnsSlot(s', d, e, k) <==> OwnsSlot(s, d, e, k) || (d == b && e == c && k == slot)
    {
    }
    forall e, k | e in s'.bits && k in s'.bits[e]
      ensures exists d :: OwnsSlot(s', d, e, k)
    {
      if !(e == c && k == slot) {
        var d :| OwnsSlot(s, d, e, k);
        assert OwnsSlot(s', d, e, k);
      }
    }
  }

  lemma DescriptorsSame(s: State, s': State)
    requires Inv(s) && s'.fds == s.fds && s'.bits.Keys == s.bits.Keys
    requires forall c :: Ctx(c) in s'.objects <==> Ctx(c) in s.objects
    requires forall c :: Ctx(c) in s.objects && Ctx(c) in s'.objects && s.objects[Ctx(c)].phase.Gone? ==> s'.objects[Ctx(c)].phase.Gone?
    ensures Descriptors(s')
  {
    forall c
      ensures ContextOk(s', c)
    {
      assert ContextOk(s, c);
    }
    forall c, k | IsOpen(s', c) && IsOpen(s', k) && c != k
      ensures s'.fds[c] != s'.fds[k]
    {
      assert IsOpen(s, c) && IsOpen(s, k);
    }
  }

  // ------------------------------------------------ one lemma a step

  lemma InitDescriptors(s: State, c: nat, fd: int, h: nat)
    requires Descriptors(s) && Enabled(s, InitContext(c, fd, h))
    ensures Descriptors(Next(s, InitContext(c, fd, h)))
  {
    var s' := Next(s, InitContext(c, fd, h));
    forall k
      ensures ContextOk(s', k)
    {
      assert ContextOk(s, k);
    }
    forall k, l | IsOpen(s', k) && IsOpen(s', l) && k != l
      ensures s'.fds[k] != s'.fds[l]
    {
      if k != c && l != c {
        assert IsOpen(s, k) && IsOpen(s, l);
      }
    }
  }

  lemma InitKeeps(s: State, c: nat, fd: int, h: nat)
    requires Inv(s) && Enabled(s, InitContext(c, fd, h))
    ensures Inv(Next(s, InitContext(c, fd, h)))
  {
    var s' := Next(s, InitContext(c, fd, h));
    BornKeeps(s, s', Ctx(c), c, h);
    assert ContextOk(s, c);
    SlotsSame(s, s');
    InitDescriptors(s, c, fd, h);
  }

  lemma NewcomerKeeps(s: State, o: Obj, h: nat, under: nat)
    requires Inv(s) && HoldsContext(s, under) && Fresh(s, o, h) && (o.Sess? || (o.Block? && o.id !in s.offsets))
    ensures Inv(Born(s, o, ContextOf(s, under), h))
  {
    var c := ContextOf(s, under);
    var s' := Born(s, o, c, h);
    Held(s, under);
    BornKeeps(s, s', o, c, h);
    SlotsSame(s, s');
    DescriptorsSame(s, s');
  }

  lemma ListStepKeeps(s: State, o: Obj, h: nat)
    requires Inv(s) && h !in s.handles && o in s.listed
    ensures o in s.objects && Inv(Take(s, o, h)) && Inv(Unlist(s, o, h))
  {
    Counted(s, o);
    var t, u := Take(s, o, h), Unlist(s, o, h);
    TakeKeeps(s, o, h);
    SlotsSame(s, t);
    DescriptorsSame(s, t);
    UnlistKeeps(s, o, h);
    SlotsSame(s, u);
    DescriptorsSame(s, u);
  }

  lemma PutKeeps(s: State, h: nat)
    requires Inv(s) && h in s.handles && s.handles[h] in s.objects && s.objects[s.handles[h]].ops > 0
    ensures Inv(Drop(s, h))
  {
    var s' := Drop(s, h);
    DropKeeps(s, h);
    assert ObjOk(s, s.handles[h]);
    SlotsSame(s, s');
    DescriptorsSame(s, s');
  }

  lemma ReserveKeeps(s: State, under: nat, b: nat, slot: nat)
    requires Inv(s) && Enabled(s, ReserveSlot(under, b, slot))
    ensures Inv(Next(s, ReserveSlot(under, b, slot)))
  {
    var s', c := Next(s, ReserveSlot(under, b, slot)), ContextOf(s, under);
    Held(s, under);
    Unnamed(s, Block(b));
    UncountedKeeps(s, s', Block(b), Info(c, Reserved, 0, 0));
    SlotReserved(s, s', b, c, slot);
    DescriptorsSame(s, s');
  }

  lemma PublishKeeps(s: State, b: nat, h: nat)
    requires Inv(s) && Enabled(s, PublishBlock(b, h))
    ensures Inv(Next(s, PublishBlock(b, h)))
  {
    var s', i := Next(s, PublishBlock(b, h)), s.objects[Block(b)];
    assert ObjOk(s, Block(b));
    BornKeeps(s, s', Block(b), i.owner, h);
    SlotsSame(s, s');
    DescriptorsSame(s, s');
  }

  lemma ClearSlotKeeps(s: State, b: nat)
    requires Inv(s) && Block(b) in s.objects && (s.objects[Block(b)].phase.Reserved? || s.objects[Block(b)].phase.Dying?)
    requires b in s.offsets && s.objects[Block(b)].owner in s.bits
    ensures Inv(ClearSlot(s, b))
  {
    var s' := ClearSlot(s, b);
    assert ObjOk(s, Block(b));
    UncountedKeeps(s, s', Block(b), s'.objects[Block(b)]);
    SlotsCleared(s, s', b);
    DescriptorsSame(s, s');
  }

  /** A teardown takes an object off its list and drops the list's reference; holders keep theirs. */
  lemma TeardownKeeps(s: State, s': State, o: Obj, i: Info)
    requires Inv(s) && o in s.listed && o in s.objects && s.objects[o].ops > 0 && !o.Ctx?
    requires s'.objects == s.objects[o := i] && s'.listed == s.listed - {o} && s'.handles == s.handles
    requires s'.offsets == s.offsets
    requires i == if Decrement(s, o).phase.Dying? then Info(s.objects[o].owner, Gone, 0, 1) else Decrement(s, o)
    ensures Graph(s')
  {
    assert ObjOk(s, o);
    forall p | p in s'.objects
      ensures ObjOk(s', p)
    {
      if p != o {
        ObjKept(s, s', p);
      }
    }
  }

  lemma FinalizeSessionKeeps(s: State, c: nat, x: nat)
    requires Inv(s) && Enabled(s, FinalizeSession(c, x))
    ensures Inv(Next(s, FinalizeSession(c, x)))
  {
    var s' := Next(s, FinalizeSession(c, x));
    Counted(s, Sess(x));
    TeardownKeeps(s, s', Sess(x), s'.objects[Sess(x)]);
    SlotsSame(s, s');
    DescriptorsSame(s, s');
  }

  lemma FinalizeBlockKeeps(s: State, c: nat, b: nat)
    requires Inv(s) && Enabled(s, FinalizeBlock(c, b))
    ensures Inv(Next(s, FinalizeBlock(c, b)))
  {
    var s' := Next(s, FinalizeBlock(c, b));
    Counted(s, Block(b));
    assert ObjOk(s, Block(b));
    Keyed(s, Block(b));
    TeardownKeeps(s, s', Block(b), s'.objects[Block(b)]);
    FinalizeBlockSlots(s, c, b);
    DescriptorsSame(s, s');
  }

  lemma FinalizeBlockSlots(s: State, c: nat, b: nat)
    requires Inv(s) && Enabled(s, FinalizeBlock(c, b))
    ensures SlotLaw(Next(s, FinalizeBlock(c, b)))
  {
    var s' := Next(s, FinalizeBlock(c, b));
    Counted(s, Block(b));
    Keyed(s, Block(b));
    if Decrement(s, Block(b)).phase.Dying? {
      SlotsCleared(s, s', b);
    } else {
      SlotsSame(s, s');
    }
  }

  lemma FreeContextKeeps(s: State, c: nat)
    requires Inv(s) && Enabled(s, FreeContext(c))
    ensures Inv(Next(s, FreeContext(c)))
  {
    var s' := Next(s, FreeContext(c));
    assert ObjOk(s, Ctx(c));
    UncountedKeeps(s, s', Ctx(c), s'.objects[Ctx(c)]);
    SlotsSame(s, s');
    DescriptorsSame(s, s');
  }

  predicate OfContext(e: Event) {
    e.InitContext? || e.GetContext? || e.PutContext? || e.RemoveContext? || e.FreeContext?
  }

  predicate OfSession(e: Event) {
    e.AddSession? || e.GetSession? || e.RemoveSession? || e.PutSession? || e.FinalizeSession?
  }

  lemma ContextStepKeeps(s: State, e: Event)
    requires Inv(s) && Enabled(s, e) && OfContext(e)
    ensures Inv(Next(s, e))
  {
    match e
    case InitContext(c, fd, h) => InitKeeps(s, c, fd, h);
    case GetContext(_, c, h) => ListStepKeeps(s, Ctx(c), h);
    case PutContext(h) => Held(s, h); PutKeeps(s, h);
    case RemoveContext(_, c, h) => ListStepKeeps(s, Ctx(c), h);
    case FreeContext(c) => FreeContextKeeps(s, c);
  }

  lemma SessionStepKeeps(s: State, e: Event)
    requires Inv(s) && Enabled(s, e) && OfSession(e)
    ensures Inv(Next(s, e))
  {
    match e
    case AddSession(under, x, h) => NewcomerKeeps(s, Sess(x), h, under);
    case GetSession(_, x, h) => ListStepKeeps(s, Sess(x), h);
    case RemoveSession(_, x, h) => ListStepKeeps(s, Sess(x), h);
    case PutSession(h) => Held(s, h); PutKeeps(s, h);
    case FinalizeSession(c, x) => FinalizeSessionKeeps(s, c, x);
  }

  lemma BlockStepKeeps(s: State, e: Event)
    requires Inv(s) && Enabled(s, e) && !OfContext(e) && !OfSession(e)
    ensures Inv(Next(s, e))
  {
    match e
    case RegisterBlock(under, b, h) => NewcomerKeeps(s, Block(b), h, under);
    case ReserveSlot(under, b, slot) => ReserveKeeps(s, under, b, slot);
    case AbandonSlot(b) => Slotted(s, b); ClearSlotKeeps(s, b);
    case PublishBlock(b, h) => PublishKeeps(s, b, h);
    case GetBlock(_, b, h) => ListStepKeeps(s, Block(b), h);
    case RemoveBlock(_, b, h) => ListStepKeeps(s, Block(b), h);
    case PutBlock(h) => Held(s, h); PutKeeps(s, h);
    case ReleaseSlot(b) => Slotted(s, b); ClearSlotKeeps(s, b);
    case PeekBlock(_) =>
    case FinalizeBlock(c, b) => FinalizeBlockKeeps(s, c, b);
  }

  /** Whatever step any thread takes next, the invariant holds after it. */
  lemma StepKeepsInv(s: State, e: Event)
    requires Inv(s) && Enabled(s, e)
    ensures Inv(Next(s, e))
  {
    if OfContext(e) {
      ContextStepKeeps(s, e);
    } else if OfSession(e) {
      SessionStepKeeps(s, e);
    } else {
      BlockStepKeeps(s, e);
    }
  }
}
