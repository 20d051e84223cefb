/** What holds in every run of Lifetime: exact counts, who owns a bit, what a freed context leaves behind, and when
    freed memory is used. */
module LifetimeRuns {
  import opened Wrappers
  import opened Lifetime

  // ---------------------------------------------------------------- whole runs

  /** The state after a run of steps from the empty library, or None where a step was not possible. */
  ghost function Exec(es: seq<Event>): (r: Option<State>)
    ensures r.Some? ==> Inv(r.value)
  {
    if es == [] then Some(EMPTY)
    else
      match Exec(es[..|es| - 1])
      case None => None
      case Some(s) =>
        var e := es[|es| - 1];
        if Enabled(s, e) then
          StepKeepsInv(s, e);
          Some(Next(s, e))
        else None
  }

  lemma OneMore(es: seq<Event>, e: Event)
    requires Exec(es).Some? && Enabled(Exec(es).value, e)
    ensures Exec(es + [e]) == Some(Next(Exec(es).value, e))
  {
    assert (es + [e])[..|es|] == es;
  }

  /** In every run, for every interleaving: counts are exact; an object begins to end at most once, and has done
      so exactly when it is off its list with no handle left, unless it is a block still on its way in or out. */
  lemma CountsAreExact(es: seq<Event>, o: Obj)
    requires Exec(es).Some? && o in Exec(es).value.objects
    ensures var s := Exec(es).value;
      var i := s.objects[o];
      && i.ops == |On(s.handles, o)| + (if o in s.listed then 1 else 0)
      && i.ended <= 1
      && (i.ended == 1 || InTransit(s, o) <==> o !in s.listed && On(s.handles, o) == {})
      && (i.ended == 0 <==> i.phase.Live? || InTransit(s, o))
  {
    var s := Exec(es).value;
    assert ObjOk(s, o);
    assert On(s.handles, o) == {} <==> |On(s.handles, o)| == 0;
  }

  /** A context's finalization begins at the put that drops the last handle after it was unlisted, and at no other step. */
  lemma FinalizedAtLastPut(es: seq<Event>, e: Event, c: nat)
    requires Exec(es).Some? && Enabled(Exec(es).value, e) && Ctx(c) in Exec(es).value.objects
    ensures var s := Exec(es).value;
      var s' := Next(s, e);
      && Ctx(c) in s'.objects
      && (s'.objects[Ctx(c)].ended > s.objects[Ctx(c)].ended <==>
            e.PutContext? && s.handles[e.h] == Ctx(c) && Ctx(c) !in s.listed && On(s.handles, Ctx(c)) == {e.h})
  {
    EndsAtLastPut(Exec(es).value, e, c);
  }

  lemma ContextUntouched(s: State, e: Event, c: nat)
    requires Enabled(s, e) && !OfContext(e) && Ctx(c) in s.objects
    ensures Ctx(c) in Next(s, e).objects && Next(s, e).objects[Ctx(c)] == s.objects[Ctx(c)]
  {
    if OfSession(e) {
      LeftBySession(s, e, c);
    } else {
      LeftByBlock(s, e, c);
    }
  }

  lemma LeftBySession(s: State, e: Event, c: nat)
    requires Enabled(s, e) && OfSession(e) && Ctx(c) in s.objects
    ensures Ctx(c) in Next(s, e).objects && Next(s, e).objects[Ctx(c)] == s.objects[Ctx(c)]
  {
  }

  lemma LeftByBlock(s: State, e: Event, c: nat)
    requires Enabled(s, e) && !OfContext(e) && !OfSession(e) && Ctx(c) in s.objects
    ensures Ctx(c) in Next(s, e).objects && Next(s, e).objects[Ctx(c)] == s.objects[Ctx(c)]
  {
  }

  lemma EndsOnlyAtPut(s: State, e: Event, c: nat)
    requires Enabled(s, e) && Ctx(c) in s.objects && !(e.PutContext? && s.handles[e.h] == Ctx(c))
    ensures Ctx(c) in Next(s, e).objects && Next(s, e).objects[Ctx(c)].ended == s.objects[Ctx(c)].ended
  {
    if !OfContext(e) {
      ContextUntouched(s, e, c);
    }
  }

  lemma EndsAtLastPut(s: State, e: Event, c: nat)
    requires Inv(s) && Enabled(s, e) && Ctx(c) in s.objects
    ensures Ctx(c) in Next(s, e).objects
    ensures Next(s, e).objects[Ctx(c)].ended > s.objects[Ctx(c)].ended <==>
      e.PutContext? && s.handles[e.h] == Ctx(c) && Ctx(c) !in s.listed && On(s.handles, Ctx(c)) == {e.h}
  {
    if e.PutContext? && s.handles[e.h] == Ctx(c) {
      assert ObjOk(s, Ctx(c));
      assert e.h in On(s.handles, Ctx(c));
      assert On(s.handles, Ctx(c)) == {e.h} <==> |On(s.handles, Ctx(c)) - {e.h}| == 0;
    } else {
      EndsOnlyAtPut(s, e, c);
    }
  }

  /** In every run, a bitmap bit is set exactly when one unfreed block of that context owns the offset. */
  lemma BitsAreOwned(es: seq<Event>, c: nat, k: nat)
    requires Exec(es).Some?
    ensures var s := Exec(es).value;
      c in s.bits ==>
        && (k in s.bits[c] <==> exists b :: OwnsSlot(s, b, c, k))
        && (forall b, b' :: OwnsSlot(s, b, c, k) && OwnsSlot(s, b', c, k) ==> b == b')
  {
    var s := Exec(es).value;
    if b :| OwnsSlot(s, b, c, k) {
      assert k in s.bits[c];
    }
  }

  // ---------------------------------------------------------------- what a freed context leaves

  /** A block between its bit and its list, on the way in or out. */
  predicate InTransit(s: State, o: Obj) {
    o in s.objects && (s.objects[o].phase.Reserved? || s.objects[o].phase.Dying?)
  }

  /** Some thread holds the object, or is in the middle of allocating or releasing it. */
  ghost predicate Out(s: State, o: Obj) {
    On(s.handles, o) != {} || InTransit(s, o)
  }

  /** When a context is about to be freed, what it owned has ended, once, except for exactly the objects that are
      still out; its bitmap is all zero exactly when none of those is an allocated block. */
  lemma TeardownLeaves(s: State, c: nat)
    requires Inv(s) && Enabled(s, FreeContext(c))
    ensures forall o :: IsObj(s, o, c) && o != Ctx(c) ==> (s.objects[o].phase.Gone? && s.objects[o].ended == 1 <==> !Out(s, o))
    ensures c in s.bits && (s.bits[c] == {} <==> forall b :: b in s.offsets && IsObj(s, Block(b), c) ==> !Out(s, Block(b)))
    ensures On(s.handles, Ctx(c)) == {} && Ctx(c) !in s.listed
  {
    assert ObjOk(s, Ctx(c)) && ContextOk(s, c);
    forall o | IsObj(s, o, c) && o != Ctx(c)
      ensures s.objects[o].phase.Gone? && s.objects[o].ended == 1 <==> !Out(s, o)
    {
      assert ObjOk(s, o);
      assert On(s.handles, o) == {} <==> |On(s.handles, o)| == 0;
    }
    forall b | IsObj(s, Block(b), c)
      ensures s.objects[Block(b)].phase.Gone? <==> !Out(s, Block(b))
    {
      assert ObjOk(s, Block(b));
    }
    BitsEmpty(s, c);
  }

  lemma BitsEmpty(s: State, c: nat)
    requires Inv(s) && c in s.bits
    ensures s.bits[c] == {} <==> forall b :: b in s.offsets && IsObj(s, Block(b), c) ==> s.objects[Block(b)].phase.Gone?
  {
    if s.bits[c] == {} {
      forall b | b in s.offsets && IsObj(s, Block(b), c)
        ensures s.objects[Block(b)].phase.Gone?
      {
        assert !OwnsSlot(s, b, c, s.offsets[b]);
      }
    } else {
      var k :| k in s.bits[c];
      var b :| OwnsSlot(s, b, c, k);
      assert b in s.offsets && IsObj(s, Block(b), c);
    }
  }

  /** A session or block that is not freed although its context is. */
  predicate Outlives(s: State, o: Obj) {
    && !o.Ctx? && o in s.objects && !s.objects[o].phase.Gone?
    && Ctx(s.objects[o].owner) in s.objects && s.objects[Ctx(s.objects[o].owner)].phase.Gone?
  }

  /** A step frees an object's context while the object is out. */
  ghost predicate FreedUnder(s: State, e: Event, o: Obj) {
    e.FreeContext? && !o.Ctx? && IsObj(s, o, e.c) && Out(s, o)
  }

  /** Objects keep their owner, and what is freed stays freed. */
  ghost predicate Stays(s: State, s': State, o: Obj)
    requires o in s.objects
  {
    && o in s'.objects && s'.objects[o].owner == s.objects[o].owner
    && (s.objects[o].phase.Gone? ==> s'.objects[o].phase.Gone?)
  }

  lemma ContextStepStays(s: State, e: Event, o: Obj)
    requires Enabled(s, e) && FindsLive(s, e) && o in s.objects && OfContext(e)
    ensures Stays(s, Next(s, e), o)
  {
  }

  lemma SessionStepStays(s: State, e: Event, o: Obj)
    requires Enabled(s, e) && FindsLive(s, e) && o in s.objects && OfSession(e)
    ensures Stays(s, Next(s, e), o)
  {
  }

  lemma BlockStepStays(s: State, e: Event, o: Obj)
    requires Enabled(s, e) && FindsLive(s, e) && o in s.objects && !OfContext(e) && !OfSession(e)
    ensures Stays(s, Next(s, e), o)
  {
  }

  lemma StepStays(s: State, e: Event, o: Obj)
    requires Enabled(s, e) && FindsLive(s, e) && o in s.objects
    ensures Stays(s, Next(s, e), o)
  {
    if OfContext(e) {
      ContextStepStays(s, e, o);
    } else if OfSession(e) {
      SessionStepStays(s, e, o);
    } else {
      BlockStepStays(s, e, o);
    }
  }

  lemma StaysGone(s: State, e: Event, o: Obj)
    requires Inv(s) && Enabled(s, e) && o in s.objects
    ensures Stays(s, Next(s, e), o)
  {
    StepFindsLive(s, e);
    StepStays(s, e, o);
  }

  /** Only the last step of a teardown frees a context. */
  lemma FreedByTeardown(s: State, e: Event, c: nat)
    requires Enabled(s, e) && FindsLive(s, e) && Ctx(c) in s.objects && e != FreeContext(c)
    ensures Ctx(c) in Next(s, e).objects && (Next(s, e).objects[Ctx(c)].phase.Gone? ==> s.objects[Ctx(c)].phase.Gone?)
  {
    if !OfContext(e) {
      ContextUntouched(s, e, c);
    }
  }

  /** A new object belongs to a context that is alive. */
  lemma BornAlive(s: State, e: Event, o: Obj)
    requires Inv(s) && Enabled(s, e) && o !in s.objects && o in Next(s, e).objects
    ensures var c := Ctx(Next(s, e).objects[o].owner);
      c in Next(s, e).objects && Next(s, e).objects[c].phase.Live?
  {
    StepFindsLive(s, e);
    if OfContext(e) || OfSession(e) {
      NotBlockBorn(s, e, o);
    } else {
      BlockBorn(s, e, o);
    }
    if !e.InitContext? {
      Held(s, e.under);
    }
  }

  /** What the list shows is known. */
  predicate ListKnown(s: State) {
    forall o :: o in s.listed ==> o in s.objects
  }

  lemma NotBlockBorn(s: State, e: Event, o: Obj)
    requires Enabled(s, e) && FindsLive(s, e) && ListKnown(s) && o !in s.objects && o in Next(s, e).objects
    requires OfContext(e) || OfSession(e)
    ensures e.InitContext? || e.AddSession?
    ensures e.InitContext? ==> Next(s, e).objects[o] == Info(e.c, Live, 2, 0) && o == Ctx(e.c)
    ensures e.AddSession? ==> Next(s, e).objects[o] == Info(ContextOf(s, e.under), Live, 2, 0) && o == Sess(e.x)
  {
  }

  lemma BlockBorn(s: State, e: Event, o: Obj)
    requires Enabled(s, e) && FindsLive(s, e) && ListKnown(s) && o !in s.objects && o in Next(s, e).objects
    requires !OfContext(e) && !OfSession(e)
    ensures (e.RegisterBlock? || e.ReserveSlot?) && o == Block(e.b) && Next(s, e).objects[o].owner == ContextOf(s, e.under)
  {
  }

  lemma OutlivesAtFree(s: State, o: Obj)
    requires Inv(s) && o in s.objects && Enabled(s, FreeContext(s.objects[o].owner))
    ensures o in Next(s, FreeContext(s.objects[o].owner)).objects
    ensures Outlives(Next(s, FreeContext(s.objects[o].owner)), o) <==> FreedUnder(s, FreeContext(s.objects[o].owner), o)
  {
    TeardownLeaves(s, s.objects[o].owner);
    assert ObjOk(s, o);
  }

  lemma OutlivesKept(s: State, e: Event, o: Obj)
    requires Inv(s) && Enabled(s, e) && o in s.objects && e != FreeContext(s.objects[o].owner)
    ensures o in Next(s, e).objects
    ensures Outlives(Next(s, e), o) <==> Outlives(s, o) && !Next(s, e).objects[o].phase.Gone?
  {
    var c := s.objects[o].owner;
    StepFindsLive(s, e);
    StepStays(s, e, o);
    Keyed(s, o);
    StepStays(s, e, Ctx(c));
    FreedByTeardown(s, e, c);
  }

  /** A freed context gains nothing: an object outlives its context after a step if it did before and has not
      ended, or if the step freed the context while the object was out. */
  lemma OutlivesStep(s: State, e: Event, o: Obj)
    requires Inv(s) && Enabled(s, e)
    ensures Outlives(s, o) ==> o in Next(s, e).objects
    ensures Outlives(Next(s, e), o) <==>
      FreedUnder(s, e, o) || (Outlives(s, o) && !Next(s, e).objects[o].phase.Gone?)
  {
    if o in s.objects {
      if e == FreeContext(s.objects[o].owner) {
        OutlivesAtFree(s, o);
      } else {
        OutlivesKept(s, e, o);
      }
    } else if o in Next(s, e).objects {
      BornAlive(s, e, o);
    }
  }

  /** Somewhere in the run the object outlived its context. */
  ghost predicate EverOutlives(es: seq<Event>, o: Obj)
    requires Exec(es).Some?
  {
    es != [] && (EverOutlives(es[..|es| - 1], o) || Outlives(Exec(es).value, o))
  }

  ghost predicate EverFreedUnder(es: seq<Event>, o: Obj)
    requires Exec(es).Some?
  {
    es != [] &&
    (EverFreedUnder(es[..|es| - 1], o) || FreedUnder(Exec(es[..|es| - 1]).value, es[|es| - 1], o))
  }

  /** In every run an object outlives its context if and only if the context was freed while the object was out. */
  lemma {:induction false} OutlivesExactly(es: seq<Event>, o: Obj)
    requires Exec(es).Some?
    ensures EverOutlives(es, o) <==> EverFreedUnder(es, o)
    ensures Outlives(Exec(es).value, o) ==> EverOutlives(es, o)
  {
    if es != [] {
      var n := |es| - 1;
      OutlivesExactly(es[..n], o);
      OutlivesStep(Exec(es[..n]).value, es[n], o);
    }
  }

  // ---------------------------------------------------------------- use after free

  /** The objects whose memory a step reads or writes. */
  function Touches(s: State, e: Event): set<Obj>
    requires Enabled(s, e)
  {
    match e
    case InitContext(_, _, _) => {}
    case GetContext(_, c, _) => {Ctx(c)}
    case PutContext(h) => {s.handles[h]}
    case RemoveContext(_, c, _) => {Ctx(c)}
    case AddSession(u, _, _) => {s.handles[u]}
    case GetSession(u, x, _) => {s.handles[u], Sess(x)}
    case RemoveSession(u, x, _) => {s.handles[u], Sess(x)}
    case PutSession(h) => {s.handles[h]}
    case RegisterBlock(u, _, _) => {s.handles[u]}
    case ReserveSlot(u, _, _) => {s.handles[u]}
    case AbandonSlot(b) => {Block(b), Ctx(s.objects[Block(b)].owner)}
    case PublishBlock(b, _) => {Block(b), Ctx(s.objects[Block(b)].owner)}
    case GetBlock(u, b, _) => {s.handles[u], Block(b)}
    case RemoveBlock(u, b, _) => {s.handles[u], Block(b)}
    case PutBlock(h) => {s.handles[h]}
    case ReleaseSlot(b) => {Block(b), Ctx(s.objects[Block(b)].owner)}
    case PeekBlock(b) => {Block(b)}
    case FinalizeSession(c, x) => {Ctx(c), Sess(x)}
    case FinalizeBlock(c, b) => {Ctx(c), Block(b)}
    case FreeContext(c) => {Ctx(c)}
  }

  /** The step uses memory that has been freed. */
  ghost predicate TouchesFreed(s: State, e: Event)
    requires Enabled(s, e)
  {
    exists o :: o in Touches(s, e) && !IsUsable(s, o)
  }

  predicate IsUsable(s: State, o: Obj) {
    o in s.objects && !s.objects[o].phase.Gone?
  }

  predicate MovesOrPeeks(e: Event) {
    e.AbandonSlot? || e.PublishBlock? || e.ReleaseSlot? || e.PeekBlock?
  }

  lemma ContextStepUses(s: State, e: Event)
    requires Inv(s) && Enabled(s, e) && (OfContext(e) || OfSession(e))
    ensures forall o :: o in Touches(s, e) ==> IsUsable(s, o)
  {
    match e
    case InitContext(_, _, _) =>
    case GetContext(_, c, _) => Counted(s, Ctx(c));
    case PutContext(h) => Held(s, h);
    case RemoveContext(_, c, _) => Counted(s, Ctx(c));
    case AddSession(u, _, _) => Held(s, u);
    case GetSession(u, x, _) => Held(s, u); Counted(s, Sess(x));
    case RemoveSession(u, x, _) => Held(s, u); Counted(s, Sess(x));
    case PutSession(h) => Held(s, h);
    case FinalizeSession(_, x) => Counted(s, Sess(x));
    case FreeContext(_) =>
  }

  lemma BlockStepUses(s: State, e: Event)
    requires Inv(s) && Enabled(s, e) && !OfContext(e) && !OfSession(e) && !MovesOrPeeks(e)
    ensures forall o :: o in Touches(s, e) ==> IsUsable(s, o)
  {
    match e
    case RegisterBlock(u, _, _) => Held(s, u);
    case ReserveSlot(u, _, _) => Held(s, u);
    case GetBlock(u, b, _) => Held(s, u); Counted(s, Block(b));
    case RemoveBlock(u, b, _) => Held(s, u); Counted(s, Block(b));
    case PutBlock(h) => Held(s, h);
    case FinalizeBlock(_, b) => Counted(s, Block(b));
  }

  lemma StepTouches(s: State, e: Event)
    requires Inv(s) && Enabled(s, e)
    ensures TouchesFreed(s, e) <==>
      || ((e.AbandonSlot? || e.PublishBlock? || e.ReleaseSlot?) && Outlives(s, Block(e.b)))
      || (e.PeekBlock? && s.objects[Block(e.b)].phase.Gone?)
  {
    if e.PeekBlock? {
      assert Block(e.b) in Touches(s, e);
    } else if MovesOrPeeks(e) {
      TransitTouches(s, e, e.b);
    } else if OfContext(e) || OfSession(e) {
      ContextStepUses(s, e);
    } else {
      BlockStepUses(s, e);
    }
  }

  lemma TransitTouches(s: State, e: Event, b: nat)
    requires Inv(s) && Enabled(s, e) && InTransit(s, Block(b))
    requires Touches(s, e) == {Block(b), Ctx(s.objects[Block(b)].owner)}
    ensures TouchesFreed(s, e) <==> Outlives(s, Block(b))
  {
    Slotted(s, b);
    assert Ctx(s.objects[Block(b)].owner) in Touches(s, e);
  }

  /** A context that was freed under an object stays freed. */
  lemma {:induction false} FreedForGood(es: seq<Event>, o: Obj)
    requires Exec(es).Some? && EverFreedUnder(es, o)
    ensures var s := Exec(es).value;
      o in s.objects && Ctx(s.objects[o].owner) in s.objects && s.objects[Ctx(s.objects[o].owner)].phase.Gone?
  {
    var n := |es| - 1;
    var s, e := Exec(es[..n]).value, es[n];
    if EverFreedUnder(es[..n], o) {
      FreedForGood(es[..n], o);
      StaysGone(s, e, Ctx(s.objects[o].owner));
    } else {
      Keyed(s, o);
    }
    StaysGone(s, e, o);
  }

  /** An object has been freed exactly when it is off its list, held by nobody and not in transit. */
  lemma GoneExactly(s: State, b: nat)
    requires Inv(s) && Block(b) in s.objects
    ensures s.objects[Block(b)].phase.Gone? <==>
      Block(b) !in s.listed && On(s.handles, Block(b)) == {} && !InTransit(s, Block(b))
  {
    assert ObjOk(s, Block(b));
    assert On(s.handles, Block(b)) == {} <==> |On(s.handles, Block(b))| == 0;
  }

  /** In every run a step uses freed memory if and only if it lists or clears the bit of a block whose context was
      freed while the block was out, or is the daemon's look at a block that is off its list and that nobody holds.
      So a session is never used after it was freed, and a context only by those steps. */
  lemma UseAfterFreeExactly(es: seq<Event>, e: Event)
    requires Exec(es).Some? && Enabled(Exec(es).value, e)
    ensures var s := Exec(es).value;
      TouchesFreed(s, e) <==>
        || ((e.AbandonSlot? || e.PublishBlock? || e.ReleaseSlot?) && EverFreedUnder(es, Block(e.b)))
        || (e.PeekBlock? && Block(e.b) !in s.listed && On(s.handles, Block(e.b)) == {} && !InTransit(s, Block(e.b)))
  {
    var s := Exec(es).value;
    StepTouches(s, e);
    if e.PeekBlock? {
      GoneExactly(s, e.b);
    } else if e.AbandonSlot? || e.PublishBlock? || e.ReleaseSlot? {
      OutlivesExactly(es, Block(e.b));
      if EverFreedUnder(es, Block(e.b)) {
        FreedForGood(es, Block(e.b));
      }
    }
  }

  // ---------------------------------------------------------------- when every holder holds the context

  /** Who has the object out holds its context too. */
  ghost predicate Covered(s: State, o: Obj) {
    !o.Ctx? && o in s.objects && Out(s, o) ==> On(s.handles, Ctx(s.objects[o].owner)) != {}
  }

  ghost predicate AlwaysCovered(es: seq<Event>, o: Obj)
    requires Exec(es).Some?
  {
    Covered(Exec(es).value, o) && (es != [] ==> AlwaysCovered(es[..|es| - 1], o))
  }

  lemma CoveredOnce(es: seq<Event>, e: Event, o: Obj)
    requires Exec(es).Some? && Enabled(Exec(es).value, e) && AlwaysCovered(es, o) && Covered(Next(Exec(es).value, e), o)
    ensures Exec(es + [e]) == Some(Next(Exec(es).value, e)) && AlwaysCovered(es + [e], o)
  {
    OneMore(es, e);
    assert (es + [e])[..|es|] == es;
  }

  /** Then no context is freed under the object. */
  lemma {:induction false} CoveredIsSafe(es: seq<Event>, o: Obj)
    requires Exec(es).Some? && AlwaysCovered(es, o)
    ensures !EverFreedUnder(es, o) && !Outlives(Exec(es).value, o)
  {
    if es != [] {
      var n := |es| - 1;
      CoveredIsSafe(es[..n], o);
      var s := Exec(es[..n]).value;
      if es[n].FreeContext? {
        TeardownLeaves(s, es[n].c);
      }
    }
    OutlivesExactly(es, o);
  }

  /** In every run in which the holders of blocks also hold the context, no step but the daemon's late look
      uses freed memory. */
  lemma NoUseAfterFree(es: seq<Event>, e: Event)
    requires Exec(es).Some? && Enabled(Exec(es).value, e)
    requires forall b :: AlwaysCovered(es, Block(b))
    ensures TouchesFreed(Exec(es).value, e) ==> e.PeekBlock?
  {
    UseAfterFreeExactly(es, e);
    if e.AbandonSlot? || e.PublishBlock? || e.ReleaseSlot? {
      CoveredIsSafe(es, Block(e.b));
    }
  }

  /** In every run in which the holders of a context's blocks also hold the context, a freed context leaves an
      all-zero bitmap and each of its blocks has ended exactly once. The same of sessions. */
  lemma ContextsDieClean(es: seq<Event>, c: nat)
    requires Exec(es).Some? && Ctx(c) in Exec(es).value.objects && Exec(es).value.objects[Ctx(c)].phase.Gone?
    requires forall b :: AlwaysCovered(es, Block(b))
    ensures var s := Exec(es).value;
      && c in s.bits && s.bits[c] == {}
      && (forall b :: IsObj(s, Block(b), c) ==> s.objects[Block(b)].phase.Gone? && s.objects[Block(b)].ended == 1)
      && (forall x :: IsObj(s, Sess(x), c) && AlwaysCovered(es, Sess(x)) ==>
            s.objects[Sess(x)].phase.Gone? && s.objects[Sess(x)].ended == 1)
  {
    var s := Exec(es).value;
    assert ContextOk(s, c);
    forall b | IsObj(s, Block(b), c)
      ensures s.objects[Block(b)].phase.Gone? && s.objects[Block(b)].ended == 1
    {
      CoveredIsSafe(es, Block(b));
      assert ObjOk(s, Block(b));
    }
    forall x | IsObj(s, Sess(x), c) && AlwaysCovered(es, Sess(x))
      ensures s.objects[Sess(x)].phase.Gone? && s.objects[Sess(x)].ended == 1
    {
      CoveredIsSafe(es, Sess(x));
      assert ObjOk(s, Sess(x));
    }
    BitsEmpty(s, c);
  }
}
