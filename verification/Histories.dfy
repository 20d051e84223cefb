/** What every step of Lifetime changes and what it leaves alone, and what a run's state says about the steps behind it. */
module Histories {
  import opened Wrappers
  import opened Sequences
  import opened Lifetime
  import opened LifetimeRuns

  // ---------------------------------------------------------------- lists

  /** The step that puts the object on its list. */
  predicate Creates(e: Event, o: Obj) {
    match o
    case Ctx(c) => e.InitContext? && e.c == c
    case Sess(x) => e.AddSession? && e.x == x
    case Block(b) => (e.RegisterBlock? || e.PublishBlock?) && e.b == b
  }

  /** The steps that take it off: a removal of this very object, or a teardown's turn on it. */
  predicate Removes(e: Event, o: Obj) {
    match o
    case Ctx(c) => e.RemoveContext? && e.c == c
    case Sess(x) => (e.RemoveSession? || e.FinalizeSession?) && e.x == x
    case Block(b) => (e.RemoveBlock? || e.FinalizeBlock?) && e.b == b
  }

  /** An object leaves its list at a removal or a teardown of itself, and at no other step; it gets there only by
      being created. */
  lemma ListChangesExactly(s: State, e: Event, o: Obj)
    requires Enabled(s, e)
    ensures o in s.listed ==> (o !in Next(s, e).listed <==> Removes(e, o))
    ensures o !in s.listed ==> (o in Next(s, e).listed <==> Creates(e, o))
  {
    if OfContext(e) {
      ListOfContext(s, e, o);
    } else if OfSession(e) {
      ListOfSession(s, e, o);
    } else {
      ListOfBlock(s, e, o);
    }
  }

  ghost predicate ListChanges(s: State, e: Event, o: Obj)
    requires Enabled(s, e)
  {
    && (o in s.listed ==> (o !in Next(s, e).listed <==> Removes(e, o)))
    && (o !in s.listed ==> (o in Next(s, e).listed <==> Creates(e, o)))
  }

  lemma ListOfContext(s: State, e: Event, o: Obj)
    requires Enabled(s, e) && OfContext(e)
    ensures ListChanges(s, e, o)
  {
  }

  lemma ListOfSession(s: State, e: Event, o: Obj)
    requires Enabled(s, e) && OfSession(e)
    ensures ListChanges(s, e, o)
  {
  }

  lemma ListOfBlock(s: State, e: Event, o: Obj)
    requires Enabled(s, e) && !OfContext(e) && !OfSession(e)
    ensures ListChanges(s, e, o)
  {
  }

  ghost predicate EverCreated(es: seq<Event>, o: Obj) {
    es != [] && (EverCreated(es[..|es| - 1], o) || Creates(es[|es| - 1], o))
  }

  ghost predicate EverRemoved(es: seq<Event>, o: Obj) {
    es != [] && (EverRemoved(es[..|es| - 1], o) || Removes(es[|es| - 1], o))
  }

  /** The object exists and is past its reservation, so it cannot be created again. */
  predicate Past(s: State, o: Obj) {
    o in s.objects && !s.objects[o].phase.Reserved?
  }

  lemma StaysPast(s: State, e: Event, o: Obj)
    requires Enabled(s, e) && FindsLive(s, e) && ListKnown(s)
    ensures Past(s, o) ==> Past(Next(s, e), o) && !Creates(e, o)
    ensures Creates(e, o) ==> Past(Next(s, e), o)
  {
    if OfContext(e) {
      PastOfContext(s, e, o);
    } else if OfSession(e) {
      PastOfSession(s, e, o);
    } else {
      PastOfBlock(s, e, o);
    }
  }

  ghost predicate PastKept(s: State, e: Event, o: Obj)
    requires Enabled(s, e)
  {
    (Past(s, o) ==> Past(Next(s, e), o) && !Creates(e, o)) && (Creates(e, o) ==> Past(Next(s, e), o))
  }

  lemma PastOfContext(s: State, e: Event, o: Obj)
    requires Enabled(s, e) && FindsLive(s, e) && ListKnown(s) && OfContext(e)
    ensures PastKept(s, e, o)
  {
  }

  lemma PastOfSession(s: State, e: Event, o: Obj)
    requires Enabled(s, e) && FindsLive(s, e) && ListKnown(s) && OfSession(e)
    ensures PastKept(s, e, o)
  {
  }

  /** The steps that do nothing but set or clear a bit. */
  predicate OnSlot(e: Event) {
    e.ReserveSlot? || e.AbandonSlot? || e.ReleaseSlot?
  }

  lemma PastOfBlock(s: State, e: Event, o: Obj)
    requires Enabled(s, e) && FindsLive(s, e) && ListKnown(s) && !OfContext(e) && !OfSession(e)
    ensures PastKept(s, e, o)
  {
    if OnSlot(e) {
      PastOfSlot(s, e, o);
    } else if e.FinalizeBlock? {
      PastOfTeardown(s, e, o);
    } else {
      PastOfCount(s, e, o);
    }
  }

  lemma PastOfSlot(s: State, e: Event, o: Obj)
    requires Enabled(s, e) && FindsLive(s, e) && ListKnown(s) && OnSlot(e)
    ensures PastKept(s, e, o)
  {
  }

  lemma PastOfTeardown(s: State, e: Event, o: Obj)
    requires Enabled(s, e) && FindsLive(s, e) && ListKnown(s) && e.FinalizeBlock?
    ensures PastKept(s, e, o)
  {
  }

  lemma PastOfCount(s: State, e: Event, o: Obj)
    requires Enabled(s, e) && FindsLive(s, e) && ListKnown(s) && !OfContext(e) && !OfSession(e) && !OnSlot(e) && !e.FinalizeBlock?
    ensures PastKept(s, e, o)
  {
  }

  /** What is known of an object that was `created` and `removed` so far. */
  predicate Fits(s: State, o: Obj, created: bool, removed: bool) {
    && (created ==> Past(s, o)) && (removed ==> created)
    && (o in s.listed <==> created && !removed)
  }

  lemma StillFits(s: State, e: Event, o: Obj, created: bool, removed: bool)
    requires Inv(s) && Enabled(s, e) && Fits(s, o, created, removed)
    ensures Fits(Next(s, e), o, created || Creates(e, o), removed || Removes(e, o))
  {
    StepFindsLive(s, e);
    StaysPast(s, e, o);
    ListChangesExactly(s, e, o);
    if Removes(e, o) {
      RemovesListed(s, e, o);
    }
  }

  lemma {:induction false} RunFits(es: seq<Event>, o: Obj)
    requires Exec(es).Some?
    ensures Fits(Exec(es).value, o, EverCreated(es, o), EverRemoved(es, o))
  {
    if es != [] {
      var n := |es| - 1;
      RunFits(es[..n], o);
      StillFits(Exec(es[..n]).value, es[n], o, EverCreated(es[..n], o), EverRemoved(es[..n], o));
    }
  }

  lemma RemovesListed(s: State, e: Event, o: Obj)
    requires Enabled(s, e) && Removes(e, o)
    ensures o in s.listed
  {
  }

  /** In every run an object is listed if and only if it was created and has since been neither removed nor torn down. */
  lemma ListedExactly(es: seq<Event>, o: Obj)
    requires Exec(es).Some?
    ensures o in Exec(es).value.listed <==> EverCreated(es, o) && !EverRemoved(es, o)
  {
    RunFits(es, o);
  }

  // ---------------------------------------------------------------- handles

  function Lookup(handles: map<nat, Obj>, h: nat): Option<Obj> {
    if h in handles then Some(handles[h]) else None
  }

  /** What handle `h` is taken on. */
  function TakenBy(e: Event, h: nat): Option<Obj> {
    match e
    case InitContext(c, _, k) => if k == h then Some(Ctx(c)) else None
    case GetContext(_, c, k) => if k == h then Some(Ctx(c)) else None
    case RemoveContext(_, c, k) => if k == h then Some(Ctx(c)) else None
    case AddSession(_, x, k) => if k == h then Some(Sess(x)) else None
    case GetSession(_, x, k) => if k == h then Some(Sess(x)) else None
    case RemoveSession(_, x, k) => if k == h then Some(Sess(x)) else None
    case RegisterBlock(_, b, k) => if k == h then Some(Block(b)) else None
    case PublishBlock(b, k) => if k == h then Some(Block(b)) else None
    case GetBlock(_, b, k) => if k == h then Some(Block(b)) else None
    case RemoveBlock(_, b, k) => if k == h then Some(Block(b)) else None
    case _ => None
  }

  predicate PutsBack(e: Event, h: nat) {
    (e.PutContext? || e.PutSession? || e.PutBlock?) && e.h == h
  }

  /** What a handle is on after a run of steps: what it was last taken on, unless it was put since. */
  function HandleAt(es: seq<Event>, h: nat): Option<Obj> {
    if es == [] then None
    else
      var e := es[|es| - 1];
      if TakenBy(e, h).Some? then TakenBy(e, h) else if PutsBack(e, h) then None else HandleAt(es[..|es| - 1], h)
  }

  ghost predicate HandleChanges(s: State, e: Event, h: nat)
    requires Enabled(s, e)
  {
    Lookup(Next(s, e).handles, h) ==
      if TakenBy(e, h).Some? then TakenBy(e, h) else if PutsBack(e, h) then None else Lookup(s.handles, h)
  }

  lemma HandleOfContext(s: State, e: Event, h: nat)
    requires Enabled(s, e) && OfContext(e)
    ensures HandleChanges(s, e, h)
  {
  }

  lemma HandleOfSession(s: State, e: Event, h: nat)
    requires Enabled(s, e) && OfSession(e)
    ensures HandleChanges(s, e, h)
  {
  }

  lemma HandleOfBlock(s: State, e: Event, h: nat)
    requires Enabled(s, e) && !OfContext(e) && !OfSession(e)
    ensures HandleChanges(s, e, h)
  {
  }

  lemma HandleStep(s: State, e: Event, h: nat)
    requires Enabled(s, e)
    ensures HandleChanges(s, e, h)
  {
    if OfContext(e) {
      HandleOfContext(s, e, h);
    } else if OfSession(e) {
      HandleOfSession(s, e, h);
    } else {
      HandleOfBlock(s, e, h);
    }
  }

  /** In every run a handle is on exactly what it was last taken on, and on nothing once it was put. */
  lemma {:induction false} HandlesExactly(es: seq<Event>, h: nat)
    requires Exec(es).Some?
    ensures Lookup(Exec(es).value.handles, h) == HandleAt(es, h)
  {
    if es != [] {
      var n := |es| - 1;
      HandlesExactly(es[..n], h);
      HandleStep(Exec(es[..n]).value, es[n], h);
    }
  }

  // ---------------------------------------------------------------- descriptors, slots and reservations

  ghost predicate EverOpened(es: seq<Event>, c: nat, fd: int) {
    es != [] && (EverOpened(es[..|es| - 1], c, fd) || (es[|es| - 1].InitContext? && es[|es| - 1].c == c && es[|es| - 1].fd == fd))
  }

  predicate Reserves(e: Event, b: nat, slot: nat) {
    e.ReserveSlot? && e.b == b && e.slot == slot
  }

  ghost predicate EverReserved(es: seq<Event>, b: nat, slot: nat) {
    es != [] && (EverReserved(es[..|es| - 1], b, slot) || Reserves(es[|es| - 1], b, slot))
  }

  /** The block's slot was reserved, and it was neither published nor abandoned since. */
  ghost predicate StillReserved(es: seq<Event>, b: nat) {
    es != [] &&
    var e := es[|es| - 1];
    if e.ReserveSlot? && e.b == b then true
    else !((e.PublishBlock? || e.AbandonSlot?) && e.b == b) && StillReserved(es[..|es| - 1], b)
  }

  predicate HasDescriptor(s: State, c: nat, fd: int) {
    c in s.fds && s.fds[c] == fd
  }

  predicate HasSlot(s: State, b: nat, slot: nat) {
    b in s.offsets && s.offsets[b] == slot
  }

  predicate IsReserved(s: State, b: nat) {
    Block(b) in s.objects && s.objects[Block(b)].phase.Reserved?
  }

  lemma KeysStep(s: State, e: Event, c: nat, fd: int, b: nat, slot: nat)
    requires Enabled(s, e) && ContextOk(s, c)
    ensures HasDescriptor(Next(s, e), c, fd) <==> HasDescriptor(s, c, fd) || (e.InitContext? && e.c == c && e.fd == fd)
    ensures HasSlot(Next(s, e), b, slot) <==> HasSlot(s, b, slot) || Reserves(e, b, slot)
  {
    if OfContext(e) || OfSession(e) {
      KeysOfOthers(s, e, c, fd, b, slot);
    } else {
      KeysOfBlock(s, e, c, fd, b, slot);
    }
  }

  ghost predicate KeyChanges(s: State, e: Event, c: nat, fd: int, b: nat, slot: nat)
    requires Enabled(s, e)
  {
    && (HasDescriptor(Next(s, e), c, fd) <==> HasDescriptor(s, c, fd) || (e.InitContext? && e.c == c && e.fd == fd))
    && (HasSlot(Next(s, e), b, slot) <==> HasSlot(s, b, slot) || Reserves(e, b, slot))
  }

  lemma KeysOfOthers(s: State, e: Event, c: nat, fd: int, b: nat, slot: nat)
    requires Enabled(s, e) && ContextOk(s, c) && (OfContext(e) || OfSession(e))
    ensures KeyChanges(s, e, c, fd, b, slot)
  {
  }

  lemma KeysOfBlock(s: State, e: Event, c: nat, fd: int, b: nat, slot: nat)
    requires Enabled(s, e) && !OfContext(e) && !OfSession(e)
    ensures KeyChanges(s, e, c, fd, b, slot)
  {
  }

  lemma ReservedStep(s: State, e: Event, b: nat)
    requires Enabled(s, e) && FindsLive(s, e) && ListKnown(s)
    ensures IsReserved(Next(s, e), b) <==>
      (e.ReserveSlot? && e.b == b) || (IsReserved(s, b) && !((e.PublishBlock? || e.AbandonSlot?) && e.b == b))
  {
    if OfContext(e) || OfSession(e) {
      ReservedOfOthers(s, e, b);
    } else {
      ReservedOfBlock(s, e, b);
    }
  }

  lemma ReservedOfOthers(s: State, e: Event, b: nat)
    requires Enabled(s, e) && (OfContext(e) || OfSession(e))
    ensures IsReserved(Next(s, e), b) <==> IsReserved(s, b)
  {
  }

  lemma ReservedOfBlock(s: State, e: Event, b: nat)
    requires Enabled(s, e) && FindsLive(s, e) && ListKnown(s) && !OfContext(e) && !OfSession(e)
    ensures IsReserved(Next(s, e), b) <==>
      (e.ReserveSlot? && e.b == b) || (IsReserved(s, b) && !((e.PublishBlock? || e.AbandonSlot?) && e.b == b))
  {
  }

  /** In every run a context's descriptor is the one it was opened with, a block's offset the slot it reserved, and
      a block is between reservation and listing exactly from the one step to the other. */
  lemma {:induction false} KeysExactly(es: seq<Event>, c: nat, fd: int, b: nat, slot: nat)
    requires Exec(es).Some?
    ensures HasDescriptor(Exec(es).value, c, fd) <==> EverOpened(es, c, fd)
    ensures HasSlot(Exec(es).value, b, slot) <==> EverReserved(es, b, slot)
    ensures IsReserved(Exec(es).value, b) <==> StillReserved(es, b)
  {
    if es != [] {
      var n := |es| - 1;
      KeysExactly(es[..n], c, fd, b, slot);
      var s := Exec(es[..n]).value;
      assert ContextOk(s, c);
      StepFindsLive(s, es[n]);
      KeysStep(s, es[n], c, fd, b, slot);
      ReservedStep(s, es[n], b);
    }
  }

  // ---------------------------------------------------------------- counts

  /** Apart from one object and its handles everything is the same. */
  ghost predicate OnlyObject(s: State, s': State, o: Obj) {
    && s'.listed == s.listed && s'.fds == s.fds && s'.bits == s.bits && s'.offsets == s.offsets
    && s'.objects.Keys == s.objects.Keys
    && (forall p :: p in s.objects && p != o ==> s'.objects[p] == s.objects[p])
    && (forall p :: p != o ==> On(s'.handles, p) == On(s.handles, p))
  }

  /** The object a lookup looks up. */
  predicate LooksUp(e: Event, o: Obj) {
    match o
    case Ctx(c) => e.GetContext? && e.c == c
    case Sess(x) => e.GetSession? && e.x == x
    case Block(b) => e.GetBlock? && e.b == b
  }

  /** A lookup changes nothing but the object's count, which is one more for one more handle. */
  lemma GetOnlyCounts(s: State, e: Event, o: Obj)
    requires Inv(s) && Enabled(s, e) && LooksUp(e, o)
    ensures OnlyObject(s, Next(s, e), o) && o in s.listed && e.h !in s.handles
    ensures Next(s, e).objects[o] == s.objects[o].(ops := s.objects[o].ops + 1)
    ensures On(Next(s, e).handles, o) == On(s.handles, o) + {e.h}
  {
    Counted(s, o);
    LookupEffect(s, e, o);
  }

  lemma LookupEffect(s: State, e: Event, o: Obj)
    requires Enabled(s, e) && LooksUp(e, o) && o in s.objects
    ensures OnlyObject(s, Next(s, e), o) && e.h !in s.handles
    ensures Next(s, e).objects[o] == s.objects[o].(ops := s.objects[o].ops + 1)
    ensures On(Next(s, e).handles, o) == On(s.handles, o) + {e.h}
  {
    var s' := Next(s, e);
    assert s' == Take(s, o, e.h);
    assert s'.objects.Keys == s.objects.Keys;
  }

  /** A put changes nothing but the object of its handle: one handle less, and one less in its count, unless that was
      the last, which begins the object's end. */
  lemma PutOnlyCounts(s: State, e: Event, h: nat)
    requires Inv(s) && Enabled(s, e) && PutsBack(e, h)
    ensures h in s.handles && OnlyObject(s, Next(s, e), s.handles[h])
    ensures var o := s.handles[h];
      && On(Next(s, e).handles, o) == On(s.handles, o) - {h}
      && Next(s, e).objects[o].ops == s.objects[o].ops - 1
      && (s.objects[o].ops > 1 ==> Next(s, e).objects[o] == s.objects[o].(ops := s.objects[o].ops - 1))
      && (s.objects[o].ops == 1 ==> !Next(s, e).objects[o].phase.Live?)
  {
    Held(s, h);
    PutEffect(s, e, h);
  }

  lemma PutEffect(s: State, e: Event, h: nat)
    requires Enabled(s, e) && PutsBack(e, h) && IsLive(s, s.handles[h])
    ensures OnlyObject(s, Next(s, e), s.handles[h])
    ensures var o := s.handles[h];
      && On(Next(s, e).handles, o) == On(s.handles, o) - {h}
      && Next(s, e).objects[o].ops == s.objects[o].ops - 1
      && (s.objects[o].ops > 1 ==> Next(s, e).objects[o] == s.objects[o].(ops := s.objects[o].ops - 1))
      && (s.objects[o].ops == 1 ==> !Next(s, e).objects[o].phase.Live?)
  {
    var s' := Next(s, e);
    assert s' == Drop(s, h);
    assert s'.objects.Keys == s.objects.Keys;
  }

  // ---------------------------------------------------------------- memory

  /** What a step writes: a known object's own fields, a context's bitmap, or the links of a list. */
  ghost predicate Writes(s: State, e: Event, o: Obj)
    requires Enabled(s, e)
  {
    var s' := Next(s, e);
    || (o in s.objects && InfoOf(s', o) != s.objects[o])
    || (o.Ctx? && o.id in s.bits && BitsOf(s', o.id) != s.bits[o.id])
    || (o.Ctx? && o in s.objects && (o in s'.listed <==> o !in s.listed))
    || (o.Ctx? && exists p: Obj :: !p.Ctx? && InfoOf(s', p).owner == o.id && (p in s'.listed <==> p !in s.listed))
  }

  /** Whatever a step writes is memory it is said to touch. */
  lemma WritesAreTouched(s: State, e: Event, o: Obj)
    requires Inv(s) && Enabled(s, e) && Writes(s, e, o)
    ensures o in Touches(s, e)
  {
    StepFindsLive(s, e);
    assert o.Ctx? ==> ContextOk(s, o.id);
    if OfContext(e) {
      ContextWrites(s, e, o);
    } else if OfSession(e) {
      SessionWrites(s, e, o);
    } else {
      BlockWrites(s, e, o);
    }
  }

  lemma ContextWrites(s: State, e: Event, o: Obj)
    requires Enabled(s, e) && FindsLive(s, e) && ListKnown(s) && OfContext(e) && Writes(s, e, o)
    requires o.Ctx? ==> ContextOk(s, o.id)
    ensures o in Touches(s, e)
  {
  }

  lemma SessionWrites(s: State, e: Event, o: Obj)
    requires Enabled(s, e) && FindsLive(s, e) && ListKnown(s) && OfSession(e) && Writes(s, e, o)
    ensures o in Touches(s, e)
  {
  }

  lemma BlockWrites(s: State, e: Event, o: Obj)
    requires Enabled(s, e) && FindsLive(s, e) && ListKnown(s) && !OfContext(e) && !OfSession(e) && Writes(s, e, o)
    ensures o in Touches(s, e)
  {
    if OnSlot(e) {
      SlotWrites(s, e, o);
    } else if e.FinalizeBlock? {
      TeardownWrites(s, e, o);
    } else {
      CountWrites(s, e, o);
    }
  }

  lemma SlotWrites(s: State, e: Event, o: Obj)
    requires Enabled(s, e) && FindsLive(s, e) && ListKnown(s) && OnSlot(e) && Writes(s, e, o)
    ensures o in Touches(s, e)
  {
  }

  lemma TeardownWrites(s: State, e: Event, o: Obj)
    requires Enabled(s, e) && FindsLive(s, e) && ListKnown(s) && e.FinalizeBlock? && Writes(s, e, o)
    ensures o in Touches(s, e)
  {
  }

  lemma CountWrites(s: State, e: Event, o: Obj)
    requires Enabled(s, e) && FindsLive(s, e) && ListKnown(s) && !OfContext(e) && !OfSession(e) && !OnSlot(e) && !e.FinalizeBlock?
    requires Writes(s, e, o)
    ensures o in Touches(s, e)
  {
  }

  // ---------------------------------------------------------------- what a lookup finds

  /** The lookup, or removal, asks for the object by its key: a context by its descriptor, anything else in the context
      that the caller holds. */
  predicate AsksFor(s: State, e: Event, o: Obj) {
    match o
    case Ctx(c) => (e.GetContext? || e.RemoveContext?) && e.c == c && HasDescriptor(s, c, e.fd)
    case Sess(x) => (e.GetSession? || e.RemoveSession?) && e.x == x && HeldOwner(s, e.under, o)
    case Block(b) => (e.GetBlock? || e.RemoveBlock?) && e.b == b && HeldOwner(s, e.under, o)
  }

  predicate HeldOwner(s: State, under: nat, o: Obj) {
    under in s.handles && o in s.objects && s.handles[under] == Ctx(s.objects[o].owner)
  }

  predicate IsSearch(e: Event, o: Obj) {
    LooksUp(e, o) || (Removes(e, o) && !e.FinalizeSession? && !e.FinalizeBlock?)
  }

  /** A search succeeds exactly on a listed object with the wanted key, for a new handle. */
  lemma SearchesExactly(s: State, e: Event, o: Obj)
    requires IsSearch(e, o)
    ensures Enabled(s, e) <==> o in s.listed && AsksFor(s, e, o) && e.h !in s.handles
  {
  }

  /** In every run a descriptor leads to one context. */
  lemma DescriptorIsKey(es: seq<Event>, fd: int, c: nat, d: nat, h: nat)
    requires Exec(es).Some? && Enabled(Exec(es).value, GetContext(fd, c, h)) && Enabled(Exec(es).value, GetContext(fd, d, h))
    ensures c == d
  {
    var s := Exec(es).value;
    Counted(s, Ctx(c));
    Counted(s, Ctx(d));
    assert IsOpen(s, c) && IsOpen(s, d);
  }
}
