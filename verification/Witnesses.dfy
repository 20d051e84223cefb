/** Runs of Lifetime that the daemon can take, step by step: some that end badly, some that end well. */
module Witnesses {
  import opened Wrappers
  import opened Lifetime
  import opened LifetimeRuns
  import opened Slots

  predicate Leads(s: State, e: Event, s': State) {
    Enabled(s, e) && Next(s, e) == s'
  }

  /** One more step of a run. */
  lemma Then(es: seq<Event>, s: State, e: Event, s': State)
    requires Exec(es) == Some(s) && Leads(s, e, s')
    ensures Exec(es + [e]) == Some(s')
  {
    OneMore(es, e);
  }

  const C := Ctx(0)
  const S := Sess(7)
  const B := Block(5)

  const NOBODY: set<Obj> := {}
  const ONE := Info(0, Live, 1, 0)
  const TWO := Info(0, Live, 2, 0)
  const THREE := Info(0, Live, 3, 0)
  const TORN := Info(0, Finalizing, 0, 1)
  const FREED := Info(0, Gone, 0, 1)

  /** Context 0 on descriptor 3. */
  function Alone(c: Info, handles: map<nat, Obj>): State {
    State(map[C := c], {C}, handles, map[0 := 3], map[0 := {}], map[])
  }

  /** The same with one more object. */
  function World(c: Info, o: Obj, x: Info, listed: set<Obj>, handles: map<nat, Obj>): State {
    State(map[C := c, o := x], listed, handles, map[0 := 3], map[0 := {}], map[])
  }

  /** The same with block 5 in slot 0. */
  function Mapped(c: Info, x: Info, listed: set<Obj>, handles: map<nat, Obj>): State {
    State(map[C := c, B := x], listed, handles, map[0 := 3], map[0 := {0}], map[5 := 0])
  }

  lemma ContextSet(c: Info, o: Obj, x: Info, c': Info)
    requires o != C
    ensures map[C := c, o := x][C := c'] == map[C := c', o := x]
  {
  }

  lemma ObjectSet(c: Info, o: Obj, x: Info, x': Info)
    requires o != C
    ensures map[C := c, o := x][o := x'] == map[C := c, o := x']
  {
  }

  lemma HandleGone(h: nat, p: Obj, k: nat, q: Obj)
    requires h != k
    ensures map[h := p, k := q] - {h} == map[k := q]
  {
  }

  /** A context is opened, and a request takes it. */
  const SERVED: seq<Event> := [] + [InitContext(0, 3, 0)] + [PutContext(0)] + [GetContext(3, 0, 1)]

  lemma ServedSteps()
    ensures Leads(EMPTY, InitContext(0, 3, 0), Alone(TWO, map[0 := C]))
    ensures Leads(Alone(TWO, map[0 := C]), PutContext(0), Alone(ONE, map[]))
    ensures Leads(Alone(ONE, map[]), GetContext(3, 0, 1), Alone(TWO, map[1 := C]))
  {
    assert NOBODY + {C} == {C};
  }

  lemma Served()
    ensures Exec(SERVED) == Some(Alone(TWO, map[1 := C]))
  {
    ServedSteps();
    var e, f, g := InitContext(0, 3, 0), PutContext(0), GetContext(3, 0, 1);
    Then([], EMPTY, e, Alone(TWO, map[0 := C]));
    Then([] + [e], Alone(TWO, map[0 := C]), f, Alone(ONE, map[]));
    Then([] + [e] + [f], Alone(ONE, map[]), g, Alone(TWO, map[1 := C]));
  }

  // ---------------------------------------------------------------- a session that outlives its context

  /** The client dies while the daemon serves its OpenSession, after the context is put and before the session is. */
  const OPENING: seq<Event> := SERVED + [AddSession(1, 7, 2)] + [RemoveContext(3, 0, 3)] + [PutContext(3)]
  const DEATH: seq<Event> := OPENING + [PutContext(1)] + [FinalizeSession(0, 7)] + [FreeContext(0)]

  lemma SessionAdded()
    ensures Leads(Alone(TWO, map[1 := C]), AddSession(1, 7, 2), World(TWO, S, TWO, {C, S}, map[1 := C, 2 := S]))
    ensures Leads(World(TWO, S, TWO, {C, S}, map[1 := C, 2 := S]), RemoveContext(3, 0, 3),
                 World(TWO, S, TWO, {S}, map[1 := C, 2 := S, 3 := C]))
  {
    assert {C} + {S} == {C, S} && {C, S} - {C} == {S};
  }

  lemma ContextPut()
    ensures Leads(World(TWO, S, TWO, {S}, map[1 := C, 2 := S, 3 := C]), PutContext(3),
                  World(ONE, S, TWO, {S}, map[1 := C, 2 := S]))
  {
    ContextSet(TWO, S, TWO, ONE);
  }

  lemma ContextPutLast()
    ensures Leads(World(ONE, S, TWO, {S}, map[1 := C, 2 := S]), PutContext(1), World(TORN, S, TWO, {S}, map[2 := S]))
  {
    ContextSet(ONE, S, TWO, TORN);
    HandleGone(1, C, 2, S);
  }

  lemma SessionTornDown()
    ensures Leads(World(TORN, S, TWO, {S}, map[2 := S]), FinalizeSession(0, 7), World(TORN, S, ONE, {}, map[2 := S]))
  {
    assert {S} - {S} == NOBODY;
  }

  lemma ContextFreed()
    ensures Leads(World(TORN, S, ONE, {}, map[2 := S]), FreeContext(0), World(FREED, S, ONE, {}, map[2 := S]))
  {
    ContextSet(TORN, S, ONE, FREED);
  }

  lemma OpeningIsRun()
    ensures Exec(OPENING) == Some(World(ONE, S, TWO, {S}, map[1 := C, 2 := S]))
  {
    Served();
    SessionAdded();
    ContextPut();
    var e, f, g := AddSession(1, 7, 2), RemoveContext(3, 0, 3), PutContext(3);
    var s, t := World(TWO, S, TWO, {C, S}, map[1 := C, 2 := S]), World(TWO, S, TWO, {S}, map[1 := C, 2 := S, 3 := C]);
    Then(SERVED, Alone(TWO, map[1 := C]), e, s);
    Then(SERVED + [e], s, f, t);
    Then(SERVED + [e] + [f], t, g, World(ONE, S, TWO, {S}, map[1 := C, 2 := S]));
  }

  lemma DeathIsRun()
    ensures Exec(DEATH) == Some(World(FREED, S, ONE, {}, map[2 := S]))
  {
    OpeningIsRun();
    ContextPutLast();
    SessionTornDown();
    ContextFreed();
    var e, f, g := PutContext(1), FinalizeSession(0, 7), FreeContext(0);
    var s, t := World(TORN, S, TWO, {S}, map[2 := S]), World(TORN, S, ONE, {}, map[2 := S]);
    Then(OPENING, World(ONE, S, TWO, {S}, map[1 := C, 2 := S]), e, s);
    Then(OPENING + [e], s, f, t);
    Then(OPENING + [e] + [f], t, g, World(FREED, S, ONE, {}, map[2 := S]));
  }

  /** So a freed context can leave a session behind; it ends at the daemon's own put, which uses nothing freed. */
  lemma SessionMayOutliveContext()
    ensures Exec(DEATH).Some?
    ensures var s := Exec(DEATH).value;
      && Outlives(s, S) && s.objects[S].ops == 1 && Enabled(s, PutSession(2)) && !TouchesFreed(s, PutSession(2))
  {
    DeathIsRun();
    StepTouches(Exec(DEATH).value, PutSession(2));
  }

  // ---------------------------------------------------------------- a block reference that is not returned

  /** One request allocates a block. */
  const ALLOCATED: seq<Event> := SERVED + [ReserveSlot(1, 5, 0)] + [PublishBlock(5, 2)] + [PutBlock(2)] + [PutContext(1)]

  /** Another takes it and fails to decode its other parameters: the context is put, the block is not. */
  const FAILED: seq<Event> := ALLOCATED + [GetContext(3, 0, 6)] + [GetBlock(6, 5, 4)] + [PutContext(6)]

  /** Then the context is finalized. */
  const LEAK: seq<Event> := FAILED + [RemoveContext(3, 0, 3)] + [PutContext(3)] + [FinalizeBlock(0, 5)] + [FreeContext(0)]

  lemma BlockReserved()
    ensures Leads(Alone(TWO, map[1 := C]), ReserveSlot(1, 5, 0), Mapped(TWO, Info(0, Reserved, 0, 0), {C}, map[1 := C]))
  {
    var none: set<nat> := {};
    assert none + {0} == {0};
    assert FirstFree(none, 0) == Some(0);
  }

  lemma BlockPublished()
    ensures Leads(Mapped(TWO, Info(0, Reserved, 0, 0), {C}, map[1 := C]), PublishBlock(5, 2),
                 Mapped(TWO, TWO, {C, B}, map[1 := C, 2 := B]))
  {
    assert {C} + {B} == {C, B};
  }

  lemma NewBlockPut()
    ensures Leads(Mapped(TWO, TWO, {C, B}, map[1 := C, 2 := B]), PutBlock(2), Mapped(TWO, ONE, {C, B}, map[1 := C]))
  {
  }

  lemma AllocatorEnds()
    ensures Leads(Mapped(TWO, ONE, {C, B}, map[1 := C]), PutContext(1), Mapped(ONE, ONE, {C, B}, map[]))
  {
  }

  lemma Allocated()
    ensures Exec(ALLOCATED) == Some(Mapped(ONE, ONE, {C, B}, map[]))
  {
    Served();
    BlockReserved();
    BlockPublished();
    NewBlockPut();
    AllocatorEnds();
    var e, f, g, h := ReserveSlot(1, 5, 0), PublishBlock(5, 2), PutBlock(2), PutContext(1);
    var s, t, u := Mapped(TWO, Info(0, Reserved, 0, 0), {C}, map[1 := C]),
      Mapped(TWO, TWO, {C, B}, map[1 := C, 2 := B]), Mapped(TWO, ONE, {C, B}, map[1 := C]);
    Then(SERVED, Alone(TWO, map[1 := C]), e, s);
    Then(SERVED + [e], s, f, t);
    Then(SERVED + [e] + [f], t, g, u);
    Then(SERVED + [e] + [f] + [g], u, h, Mapped(ONE, ONE, {C, B}, map[]));
  }

  lemma NextRequest()
    ensures Leads(Mapped(ONE, ONE, {C, B}, map[]), GetContext(3, 0, 6), Mapped(TWO, ONE, {C, B}, map[6 := C]))
  {
  }

  lemma BlockTaken()
    ensures Leads(Mapped(TWO, ONE, {C, B}, map[6 := C]), GetBlock(6, 5, 4), Mapped(TWO, TWO, {C, B}, map[6 := C, 4 := B]))
  {
  }

  lemma BlockForgotten()
    ensures Leads(Mapped(TWO, TWO, {C, B}, map[6 := C, 4 := B]), PutContext(6), Mapped(ONE, TWO, {C, B}, map[4 := B]))
  {
    ContextSet(TWO, B, TWO, ONE);
    HandleGone(6, C, 4, B);
  }

  lemma Failed()
    ensures Exec(FAILED) == Some(Mapped(ONE, TWO, {C, B}, map[4 := B]))
  {
    Allocated();
    NextRequest();
    BlockTaken();
    BlockForgotten();
    var e, f, g := GetContext(3, 0, 6), GetBlock(6, 5, 4), PutContext(6);
    var s, t := Mapped(TWO, ONE, {C, B}, map[6 := C]), Mapped(TWO, TWO, {C, B}, map[6 := C, 4 := B]);
    Then(ALLOCATED, Mapped(ONE, ONE, {C, B}, map[]), e, s);
    Then(ALLOCATED + [e], s, f, t);
    Then(ALLOCATED + [e] + [f], t, g, Mapped(ONE, TWO, {C, B}, map[4 := B]));
  }

  lemma ContextUnlisted()
    ensures Leads(Mapped(ONE, TWO, {C, B}, map[4 := B]), RemoveContext(3, 0, 3), Mapped(ONE, TWO, {B}, map[3 := C, 4 := B]))
  {
    assert {C, B} - {C} == {B};
  }

  lemma LastReference()
    ensures Leads(Mapped(ONE, TWO, {B}, map[3 := C, 4 := B]), PutContext(3), Mapped(TORN, TWO, {B}, map[4 := B]))
  {
    ContextSet(ONE, B, TWO, TORN);
    HandleGone(3, C, 4, B);
  }

  lemma BlockTornDown()
    ensures Leads(Mapped(TORN, TWO, {B}, map[4 := B]), FinalizeBlock(0, 5), Mapped(TORN, ONE, {}, map[4 := B]))
  {
    assert {B} - {B} == NOBODY;
  }

  lemma LeakFreed()
    ensures Leads(Mapped(TORN, ONE, {}, map[4 := B]), FreeContext(0), Mapped(FREED, ONE, {}, map[4 := B]))
  {
    ContextSet(TORN, B, ONE, FREED);
  }

  /** The freed context's bit stays set, for a block that only the lost reference holds. */
  lemma LeakedBlockKeepsBit()
    ensures Exec(LEAK) == Some(Mapped(FREED, ONE, {}, map[4 := B]))
  {
    Failed();
    ContextUnlisted();
    LastReference();
    BlockTornDown();
    LeakFreed();
    var e, f, g, h := RemoveContext(3, 0, 3), PutContext(3), FinalizeBlock(0, 5), FreeContext(0);
    var s, t, u := Mapped(ONE, TWO, {B}, map[3 := C, 4 := B]), Mapped(TORN, TWO, {B}, map[4 := B]),
      Mapped(TORN, ONE, {}, map[4 := B]);
    Then(FAILED, Mapped(ONE, TWO, {C, B}, map[4 := B]), e, s);
    Then(FAILED + [e], s, f, t);
    Then(FAILED + [e] + [f], t, g, u);
    Then(FAILED + [e] + [f] + [g], u, h, Mapped(FREED, ONE, {}, map[4 := B]));
  }

  lemma LeakPut()
    ensures Leads(Mapped(FREED, ONE, {}, map[4 := B]), PutBlock(4), Mapped(FREED, Info(0, Dying, 0, 0), {}, map[]))
  {
  }

  /** Were the reference put after all, clearing the bit would use the freed context. */
  lemma LatePutUsesFreedContext()
    ensures Exec(LEAK + [PutBlock(4)]).Some?
    ensures var s := Exec(LEAK + [PutBlock(4)]).value; Enabled(s, ReleaseSlot(5)) && TouchesFreed(s, ReleaseSlot(5))
  {
    LeakedBlockKeepsBit();
    LeakPut();
    Then(LEAK, Mapped(FREED, ONE, {}, map[4 := B]), PutBlock(4), Mapped(FREED, Info(0, Dying, 0, 0), {}, map[]));
    StepTouches(Mapped(FREED, Info(0, Dying, 0, 0), {}, map[]), ReleaseSlot(5));
  }

  // ---------------------------------------------------------------- a block read after its put

  /** The daemon has registered a block and put it; before it reads the count for its reply, another request
      releases the block. */
  const REGISTERED: seq<Event> := SERVED + [RegisterBlock(1, 5, 2)] + [PutBlock(2)]
  const LATE: seq<Event> := REGISTERED + [GetContext(3, 0, 3)] + [RemoveBlock(3, 5, 4)] + [PutBlock(4)]

  lemma BlockRegistered()
    ensures Leads(Alone(TWO, map[1 := C]), RegisterBlock(1, 5, 2), World(TWO, B, TWO, {C, B}, map[1 := C, 2 := B]))
  {
    assert {C} + {B} == {C, B};
  }

  lemma BlockPut()
    ensures Leads(World(TWO, B, TWO, {C, B}, map[1 := C, 2 := B]), PutBlock(2), World(TWO, B, ONE, {C, B}, map[1 := C]))
  {
  }

  lemma OtherRequest()
    ensures Leads(World(TWO, B, ONE, {C, B}, map[1 := C]), GetContext(3, 0, 3),
                 World(THREE, B, ONE, {C, B}, map[1 := C, 3 := C]))
  {
  }

  lemma BlockReleased()
    ensures Leads(World(THREE, B, ONE, {C, B}, map[1 := C, 3 := C]), RemoveBlock(3, 5, 4),
                 World(THREE, B, ONE, {C}, map[1 := C, 3 := C, 4 := B]))
  {
    assert {C, B} - {B} == {C};
  }

  lemma BlockFreed()
    ensures Leads(World(THREE, B, ONE, {C}, map[1 := C, 3 := C, 4 := B]), PutBlock(4),
                 World(THREE, B, FREED, {C}, map[1 := C, 3 := C]))
  {
  }

  lemma RegisteredIsRun()
    ensures Exec(REGISTERED) == Some(World(TWO, B, ONE, {C, B}, map[1 := C]))
  {
    Served();
    BlockRegistered();
    BlockPut();
    var e, f := RegisterBlock(1, 5, 2), PutBlock(2);
    var s := World(TWO, B, TWO, {C, B}, map[1 := C, 2 := B]);
    Then(SERVED, Alone(TWO, map[1 := C]), e, s);
    Then(SERVED + [e], s, f, World(TWO, B, ONE, {C, B}, map[1 := C]));
  }

  lemma LateIsRun()
    ensures Exec(LATE) == Some(World(THREE, B, FREED, {C}, map[1 := C, 3 := C]))
  {
    RegisteredIsRun();
    OtherRequest();
    BlockReleased();
    BlockFreed();
    var e, f, g := GetContext(3, 0, 3), RemoveBlock(3, 5, 4), PutBlock(4);
    var s, t := World(THREE, B, ONE, {C, B}, map[1 := C, 3 := C]), World(THREE, B, ONE, {C}, map[1 := C, 3 := C, 4 := B]);
    Then(REGISTERED, World(TWO, B, ONE, {C, B}, map[1 := C]), e, s);
    Then(REGISTERED + [e], s, f, t);
    Then(REGISTERED + [e] + [f], t, g, World(THREE, B, FREED, {C}, map[1 := C, 3 := C]));
  }

  lemma LateReadUsesFreedBlock()
    ensures Exec(LATE).Some? && Enabled(Exec(LATE).value, PeekBlock(5)) && TouchesFreed(Exec(LATE).value, PeekBlock(5))
  {
    LateIsRun();
    StepTouches(Exec(LATE).value, PeekBlock(5));
  }

  // ---------------------------------------------------------------- runs that end well

  /** The daemon opens a session, serves a command on it, and closes it. */
  const OPENED: seq<Event> := SERVED + [AddSession(1, 7, 2)] + [PutContext(1)] + [PutSession(2)]
  const INVOKED: seq<Event> := OPENED + [GetContext(3, 0, 4)] + [GetSession(4, 7, 5)] + [PutSession(5)] + [PutContext(4)]
  const CLOSED: seq<Event> := INVOKED + [GetContext(3, 0, 6)] + [RemoveSession(6, 7, 8)] + [PutSession(8)] + [PutContext(6)]

  lemma OpenSteps()
    ensures Leads(World(TWO, S, TWO, {C, S}, map[1 := C, 2 := S]), PutContext(1), World(ONE, S, TWO, {C, S}, map[2 := S]))
    ensures Leads(World(ONE, S, TWO, {C, S}, map[2 := S]), PutSession(2), World(ONE, S, ONE, {C, S}, map[]))
  {
    ContextSet(TWO, S, TWO, ONE);
    HandleGone(1, C, 2, S);
    ObjectSet(ONE, S, TWO, ONE);
  }

  lemma OpenedIsRun()
    ensures Exec(OPENED) == Some(World(ONE, S, ONE, {C, S}, map[]))
  {
    Served();
    SessionAdded();
    OpenSteps();
    var e, f, g := AddSession(1, 7, 2), PutContext(1), PutSession(2);
    var s, t := World(TWO, S, TWO, {C, S}, map[1 := C, 2 := S]), World(ONE, S, TWO, {C, S}, map[2 := S]);
    Then(SERVED, Alone(TWO, map[1 := C]), e, s);
    Then(SERVED + [e], s, f, t);
    Then(SERVED + [e] + [f], t, g, World(ONE, S, ONE, {C, S}, map[]));
  }

  lemma InvokeGets()
    ensures Leads(World(ONE, S, ONE, {C, S}, map[]), GetContext(3, 0, 4), World(TWO, S, ONE, {C, S}, map[4 := C]))
    ensures Leads(World(TWO, S, ONE, {C, S}, map[4 := C]), GetSession(4, 7, 5), World(TWO, S, TWO, {C, S}, map[4 := C, 5 := S]))
  {
    ContextSet(ONE, S, ONE, TWO);
    ObjectSet(TWO, S, ONE, TWO);
  }

  lemma InvokePuts()
    ensures Leads(World(TWO, S, TWO, {C, S}, map[4 := C, 5 := S]), PutSession(5), World(TWO, S, ONE, {C, S}, map[4 := C]))
    ensures Leads(World(TWO, S, ONE, {C, S}, map[4 := C]), PutContext(4), World(ONE, S, ONE, {C, S}, map[]))
  {
    ObjectSet(TWO, S, TWO, ONE);
    assert map[4 := C, 5 := S] - {5} == map[4 := C];
    ContextSet(TWO, S, ONE, ONE);
  }

  lemma InvokedIsRun()
    ensures Exec(INVOKED) == Some(World(ONE, S, ONE, {C, S}, map[]))
  {
    OpenedIsRun();
    InvokeGets();
    InvokePuts();
    var e, f, g, h := GetContext(3, 0, 4), GetSession(4, 7, 5), PutSession(5), PutContext(4);
    var s, t, u := World(TWO, S, ONE, {C, S}, map[4 := C]), World(TWO, S, TWO, {C, S}, map[4 := C, 5 := S]),
      World(ONE, S, ONE, {C, S}, map[]);
    Then(OPENED, u, e, s);
    Then(OPENED + [e], s, f, t);
    Then(OPENED + [e] + [f], t, g, s);
    Then(OPENED + [e] + [f] + [g], s, h, u);
  }

  lemma CloseGets()
    ensures Leads(World(ONE, S, ONE, {C, S}, map[]), GetContext(3, 0, 6), World(TWO, S, ONE, {C, S}, map[6 := C]))
    ensures Leads(World(TWO, S, ONE, {C, S}, map[6 := C]), RemoveSession(6, 7, 8), World(TWO, S, ONE, {C}, map[6 := C, 8 := S]))
  {
    ContextSet(ONE, S, ONE, TWO);
    assert {C, S} - {S} == {C};
  }

  lemma ClosePuts()
    ensures Leads(World(TWO, S, ONE, {C}, map[6 := C, 8 := S]), PutSession(8), World(TWO, S, FREED, {C}, map[6 := C]))
    ensures Leads(World(TWO, S, FREED, {C}, map[6 := C]), PutContext(6), World(ONE, S, FREED, {C}, map[]))
  {
    ObjectSet(TWO, S, ONE, FREED);
    assert map[6 := C, 8 := S] - {8} == map[6 := C];
    ContextSet(TWO, S, FREED, ONE);
  }

  /** Serving a command leaves everything as it was; closing ends the session, and leaves the context as it was. */
  lemma SessionServed()
    ensures Exec(OPENED) == Exec(INVOKED) == Some(World(ONE, S, ONE, {C, S}, map[]))
    ensures Exec(CLOSED) == Some(World(ONE, S, FREED, {C}, map[]))
  {
    OpenedIsRun();
    InvokedIsRun();
    CloseGets();
    ClosePuts();
    var e, f, g, h := GetContext(3, 0, 6), RemoveSession(6, 7, 8), PutSession(8), PutContext(6);
    var s, t, u := World(TWO, S, ONE, {C, S}, map[6 := C]), World(TWO, S, ONE, {C}, map[6 := C, 8 := S]),
      World(TWO, S, FREED, {C}, map[6 := C]);
    Then(INVOKED, World(ONE, S, ONE, {C, S}, map[]), e, s);
    Then(INVOKED + [e], s, f, t);
    Then(INVOKED + [e] + [f], t, g, u);
    Then(INVOKED + [e] + [f] + [g], u, h, World(ONE, S, FREED, {C}, map[]));
  }

  // ------------------------------------------------ blocks

  const GIVEN_UP: seq<Event> := SERVED + [ReserveSlot(1, 5, 0)] + [AbandonSlot(5)]
  const RELEASED: seq<Event> := ALLOCATED + [GetContext(3, 0, 6)] + [RemoveBlock(6, 5, 4)] + [PutBlock(4)] + [ReleaseSlot(5)]

  /** Block 5 is freed, and its bit cleared. */
  function Cleared(c: Info, listed: set<Obj>, handles: map<nat, Obj>): State {
    State(map[C := c, B := FREED], listed, handles, map[0 := 3], map[0 := {}], map[5 := 0])
  }

  lemma AbandonStep()
    ensures Leads(Mapped(TWO, Info(0, Reserved, 0, 0), {C}, map[1 := C]), AbandonSlot(5), Cleared(TWO, {C}, map[1 := C]))
  {
    var none: set<nat> := {};
    ObjectSet(TWO, B, Info(0, Reserved, 0, 0), FREED);
    assert {0} - {0} == none;
  }

  /** A failed allocation gives its bit back. */
  lemma AllocationGivenUp()
    ensures Exec(GIVEN_UP) == Some(Cleared(TWO, {C}, map[1 := C]))
  {
    Served();
    BlockReserved();
    AbandonStep();
    var e, f := ReserveSlot(1, 5, 0), AbandonSlot(5);
    var s := Mapped(TWO, Info(0, Reserved, 0, 0), {C}, map[1 := C]);
    Then(SERVED, Alone(TWO, map[1 := C]), e, s);
    Then(SERVED + [e], s, f, Cleared(TWO, {C}, map[1 := C]));
  }

  lemma ReleaseTakes()
    ensures Leads(Mapped(TWO, ONE, {C, B}, map[6 := C]), RemoveBlock(6, 5, 4), Mapped(TWO, ONE, {C}, map[6 := C, 4 := B]))
  {
    assert {C, B} - {B} == {C};
  }

  lemma ReleasePuts()
    ensures Leads(Mapped(TWO, ONE, {C}, map[6 := C, 4 := B]), PutBlock(4), Mapped(TWO, Info(0, Dying, 0, 0), {C}, map[6 := C]))
  {
    ObjectSet(TWO, B, ONE, Info(0, Dying, 0, 0));
    assert map[6 := C, 4 := B] - {4} == map[6 := C];
  }

  lemma ReleaseClears()
    ensures Leads(Mapped(TWO, Info(0, Dying, 0, 0), {C}, map[6 := C]), ReleaseSlot(5), Cleared(TWO, {C}, map[6 := C]))
  {
    var none: set<nat> := {};
    ObjectSet(TWO, B, Info(0, Dying, 0, 0), FREED);
    assert {0} - {0} == none;
  }

  /** Releasing an allocated block frees it and gives its bit back. */
  lemma AllocationReleased()
    ensures Exec(RELEASED) == Some(Cleared(TWO, {C}, map[6 := C]))
  {
    Allocated();
    NextRequest();
    ReleaseTakes();
    ReleasePuts();
    ReleaseClears();
    var e, f, g, h := GetContext(3, 0, 6), RemoveBlock(6, 5, 4), PutBlock(4), ReleaseSlot(5);
    var s, t, u := Mapped(TWO, ONE, {C, B}, map[6 := C]), Mapped(TWO, ONE, {C}, map[6 := C, 4 := B]),
      Mapped(TWO, Info(0, Dying, 0, 0), {C}, map[6 := C]);
    Then(ALLOCATED, Mapped(ONE, ONE, {C, B}, map[]), e, s);
    Then(ALLOCATED + [e], s, f, t);
    Then(ALLOCATED + [e] + [f], t, g, u);
    Then(ALLOCATED + [e] + [f] + [g], u, h, Cleared(TWO, {C}, map[6 := C]));
  }
}
