/** Runs of calls after which a row of the client's table names no block, and one that costs a registered block. */
module Disagreements {
  import opened Words
  import opened Wrappers
  import opened Sequences
  import opened Operations
  import opened Slots
  import opened ClientCodec
  import opened DaemonCodec
  import opened ClientTable
  import opened Agreement
  import opened ProperUse

  const NO_SLOTS: set<nat> := {}
  const MAPPED_BLOCK := ShmInner(4096, 8, true, 0)
  const REGISTERED_BLOCK := ShmInner(4096, 8, false, U32_MAX)

  /** Slot 0 is the first one given. */
  lemma FirstSlot()
    ensures FirstFree(NO_SLOTS, 0) == Some(0) && NO_SLOTS + {0} == {0} && NO_SLOTS + {} == NO_SLOTS
  {
  }

  /** A state with one row for the mapped block, and a structure for memory registered at the same address. */
  predicate Collides(s: State, fd: int) {
    && s.table == [ShareMem(0, 8192, 8, fd)] && fd in s.contexts && s.contexts[fd].blocks != []
    && s.contexts[fd].blocks[0] == MAPPED_BLOCK && s.contexts[fd].bits == {0}
    && Struct(s, 1) == Shm(4096, 8, false, Some(0)) && FdOf(s, 0) == fd
  }

  /** Releasing that memory takes the block of the row away. */
  lemma CollisionBreaks(s: State, fd: int, last: bool)
    requires Collides(s, fd) && Agrees(s) && ContextsOk(s)
    ensures Breaks(s, Release(1, last)) && !Agrees(Next(s, Release(1, last)))
  {
    var blocks := s.contexts[fd].blocks;
    assert Matches(blocks[0], false, 0, 4096);
    assert FirstMatch(blocks, false, 0, 4096) == Some(0);
    assert s.table[0] in s.table;
    ReleaseAgrees(s, 1, last);
  }

  /** The daemon maps a block for the application, which then registers memory at the same address. */
  const COLLISION: seq<Event> := [Open(0, 3), Allocate(0, 0, 8, MEM_INOUT, 4096, 8192), Register(1, 0, 4096, 8, MEM_INOUT)]

  /** Memory is registered and its context finalized; the same context structure is initialized again, and the
      daemon maps a block of the new context at the registered address. */
  const REINITIALIZED: seq<Event> := [Open(0, 3), Register(1, 0, 4096, 8, MEM_INOUT), Finalize(0), Open(0, 4),
    Allocate(0, 0, 8, MEM_INOUT, 4096, 8192)]

  /** One step of a run that is possible and keeps the agreement. */
  ghost predicate Goes(s: State, e: Event, s': State) {
    Possible(s, e) && !Breaks(s, e) && Next(s, e) == s'
  }

  /** The states a run goes through. */
  ghost predicate Trace(es: seq<Event>, ss: seq<State>) {
    && |ss| == |es| + 1 && ss[0] == EMPTY
    && forall i {:trigger es[i]} :: 0 <= i < |es| ==> Goes(ss[i], es[i], ss[i + 1])
  }

  lemma {:induction false} TraceIsRun(es: seq<Event>, ss: seq<State>)
    requires Trace(es, ss)
    ensures After(es) == ss[|es|] && AlwaysPossible(es) && NeverBreaks(es)
  {
    if es != [] {
      var n := |es| - 1;
      TraceIsRun(es[..n], ss[..n + 1]);
      assert Goes(ss[n], es[n], ss[n + 1]);
    }
  }

  const OPENED := State([], map[3 := Context([], {})], map[0 := 3], map[])
  const ONE_MAPPED := State([ShareMem(0, 8192, 8, 3)], map[3 := Context([MAPPED_BLOCK], {0})], map[0 := 3],
                            map[0 := Shm(8192, 8, true, Some(0))])
  const COLLIDED := State([ShareMem(0, 8192, 8, 3)], map[3 := Context([MAPPED_BLOCK, REGISTERED_BLOCK], {0})], map[0 := 3],
                          map[0 := Shm(8192, 8, true, Some(0)), 1 := Shm(4096, 8, false, Some(0))])
  const REGISTERED := State([], map[3 := Context([REGISTERED_BLOCK], {})], map[0 := 3], map[1 := Shm(4096, 8, false, Some(0))])
  const FINALIZED := State([], map[], map[0 := -1], map[1 := Shm(4096, 8, false, Some(0))])
  const REOPENED := State([], map[4 := Context([], {})], map[0 := 4], map[1 := Shm(4096, 8, false, Some(0))])
  const REMAPPED := State([ShareMem(0, 8192, 8, 4)], map[4 := Context([MAPPED_BLOCK], {0})], map[0 := 4],
                          map[1 := Shm(4096, 8, false, Some(0)), 0 := Shm(8192, 8, true, Some(0))])

  lemma Opens()
    ensures Goes(EMPTY, Open(0, 3), OPENED)
  {
  }

  lemma Maps()
    ensures Goes(OPENED, Allocate(0, 0, 8, MEM_INOUT, 4096, 8192), ONE_MAPPED)
  {
    FirstSlot();
    assert WithBlock(Context([], {}), MAPPED_BLOCK, {0}) == Context([MAPPED_BLOCK], {0});
  }

  lemma Collide()
    ensures Goes(ONE_MAPPED, Register(1, 0, 4096, 8, MEM_INOUT), COLLIDED)
  {
    var zero: set<nat> := {0};
    assert zero + {} == zero;
    assert WithBlock(Context([MAPPED_BLOCK], {0}), REGISTERED_BLOCK, {}) == Context([MAPPED_BLOCK, REGISTERED_BLOCK], {0});
  }

  lemma Registers()
    ensures Goes(OPENED, Register(1, 0, 4096, 8, MEM_INOUT), REGISTERED)
  {
    FirstSlot();
    assert WithBlock(Context([], {}), REGISTERED_BLOCK, {}) == Context([REGISTERED_BLOCK], {});
  }

  lemma Finalizes()
    ensures Goes(REGISTERED, Finalize(0), FINALIZED)
  {
    assert REGISTERED.contexts - {3} == map[];
  }

  lemma Reopens()
    ensures Goes(FINALIZED, Open(0, 4), REOPENED)
  {
  }

  lemma Remaps()
    ensures Goes(REOPENED, Allocate(0, 0, 8, MEM_INOUT, 4096, 8192), REMAPPED)
  {
    FirstSlot();
    assert WithBlock(Context([], {}), MAPPED_BLOCK, {0}) == Context([MAPPED_BLOCK], {0});
  }

  lemma AddressesMayCollide()
    ensures AlwaysPossible(COLLISION) && AlwaysAgrees(COLLISION) && !Agrees(Next(After(COLLISION), Release(1, true)))
  {
    Opens();
    Maps();
    Collide();
    TraceIsRun(COLLISION, [EMPTY, OPENED, ONE_MAPPED, COLLIDED]);
    AgreementExactly(COLLISION);
    CollisionBreaks(COLLIDED, 3, true);
  }

  /** The release of the old structure goes to the new context and takes its block away. */
  lemma ReinitializedContextMisdirects()
    ensures AlwaysPossible(REINITIALIZED) && AlwaysAgrees(REINITIALIZED)
    ensures !Agrees(Next(After(REINITIALIZED), Release(1, true)))
  {
    Opens();
    Registers();
    Finalizes();
    Reopens();
    Remaps();
    TraceIsRun(REINITIALIZED, [EMPTY, OPENED, REGISTERED, FINALIZED, REOPENED, REMAPPED]);
    AgreementExactly(REINITIALIZED);
    CollisionBreaks(REMAPPED, 4, true);
  }

  // ---------------------------------------------------------------- size zero

  const ZERO_ROW := ShareMem(0, ZERO_SIZE_PTR, 0, 3)
  const ZERO_BLOCK := ShmInner(ZERO_SIZE_PTR, 0, true, 0)
  const ZERO_STATE := State([ZERO_ROW], map[3 := Context([ZERO_BLOCK], {0})], map[0 := 3],
                            map[0 := Shm(ZERO_SIZE_PTR, 0, true, Some(0))])

  lemma ZeroAllocated()
    ensures Next(Next(EMPTY, Open(0, 3)), Allocate(0, 0, 0, MEM_INOUT, NULL, NULL)) == ZERO_STATE
  {
    FirstSlot();
    var s := State([], map[3 := Context([], {})], map[0 := 3], map[]);
    assert Next(EMPTY, Open(0, 3)) == s;
    assert WithBlock(Context([], {}), ZERO_BLOCK, {0}) == Context([ZERO_BLOCK], {0});
  }

  /** A context that is finalized leaves its row of size zero behind, which then names no context. */
  lemma ZeroSizeRowStays()
    ensures var s := Next(Next(EMPTY, Open(0, 3)), Allocate(0, 0, 0, MEM_INOUT, NULL, NULL));
      Agrees(s) && !Agrees(Next(s, Finalize(0)))
  {
    ZeroAllocated();
    assert ZERO_STATE.contexts[3].blocks[0] == ZERO_BLOCK;
    assert ZERO_ROW in ZERO_STATE.table && !Unmaps(ZERO_ROW, 3);
    FinalizeAgrees(ZERO_STATE, 0);
  }

  const PLAIN_ROW := ShareMem(0, 8192, 8, 4)
  const ZERO_ROW_TOO := ShareMem(1, ZERO_SIZE_PTR, 0, 4)
  const TWO_BLOCKS := Context([MAPPED_BLOCK, ShmInner(ZERO_SIZE_PTR, 0, true, 1)], {0, 1})
  const ZERO_TWICE := State([ZERO_ROW, PLAIN_ROW, ZERO_ROW_TOO], map[3 := Context([ZERO_BLOCK], {0}), 4 := TWO_BLOCKS],
    map[0 := 3, 1 := 4],
    map[0 := Shm(ZERO_SIZE_PTR, 0, true, Some(0)), 1 := Shm(8192, 8, true, Some(1)), 2 := Shm(ZERO_SIZE_PTR, 0, true, Some(1))])

  lemma PlainAllocated()
    ensures var s := Next(ZERO_STATE, Open(1, 4));
      Next(s, Allocate(1, 1, 8, MEM_INOUT, 4096, 8192)) ==
      State([ZERO_ROW, PLAIN_ROW], map[3 := Context([ZERO_BLOCK], {0}), 4 := Context([MAPPED_BLOCK], {0})], map[0 := 3, 1 := 4],
            map[0 := Shm(ZERO_SIZE_PTR, 0, true, Some(0)), 1 := Shm(8192, 8, true, Some(1))])
  {
    FirstSlot();
    assert WithBlock(Context([], {}), MAPPED_BLOCK, {0}) == Context([MAPPED_BLOCK], {0});
  }

  lemma ZeroAllocatedTwice()
    ensures var s := Next(Next(ZERO_STATE, Open(1, 4)), Allocate(1, 1, 8, MEM_INOUT, 4096, 8192));
      Next(s, Allocate(2, 1, 0, MEM_INOUT, NULL, NULL)) == ZERO_TWICE
  {
    PlainAllocated();
    var taken: set<nat> := {0};
    assert FirstFree(taken, 0) == FirstFree(taken, 1) == Some(1);
    assert taken + {1} == {0, 1};
    assert WithBlock(Context([MAPPED_BLOCK], {0}), ShmInner(ZERO_SIZE_PTR, 0, true, 1), {1}) == TWO_BLOCKS;
  }

  lemma ZeroTwiceSound()
    ensures Agrees(ZERO_TWICE) && ContextsOk(ZERO_TWICE)
  {
    assert TWO_BLOCKS.blocks[0] == MAPPED_BLOCK && TWO_BLOCKS.blocks[1].offset == 1;
    assert ZERO_TWICE.contexts[3].blocks[0] == ZERO_BLOCK;
  }

  /** Blocks of size zero share one buffer value: releasing one takes another context's row and this context's
      block of the same slot, which a row of non-zero size still names. */
  lemma ZeroSizesMisdirect()
    ensures var s := Next(Next(ZERO_STATE, Open(1, 4)), Allocate(1, 1, 8, MEM_INOUT, 4096, 8192));
      var s' := Next(s, Allocate(2, 1, 0, MEM_INOUT, NULL, NULL));
      Agrees(s') && !Agrees(Next(s', Release(2, true)))
  {
    ZeroAllocatedTwice();
    ZeroTwiceSound();
    var table := ZERO_TWICE.table;
    assert table[0].buffer == ZERO_SIZE_PTR && FirstRow(table, ZERO_SIZE_PTR) == Some(0);
    assert table[1].fd == 4 && table[1].offset == table[0].offset;
    ReleaseAgrees(ZERO_TWICE, 2, true);
  }

  // ---------------------------------------------------------------- a release after a failed allocation

  /** Memory is registered; an allocation succeeds in the daemon and cannot be mapped by the client; the
      application releases the structure, as it may after a failure. */
  const STRAY: seq<Event> := [Open(0, 3), Register(1, 0, 4096, 8, MEM_INOUT), Allocate(0, 0, 8, MEM_INOUT, 12288, NULL), Release(0, true)]

  const LOST_BLOCK := ShmInner(12288, 8, true, 0)
  const UNMAPPED := State([], map[3 := Context([REGISTERED_BLOCK, LOST_BLOCK], {0})], map[0 := 3],
                          map[1 := Shm(4096, 8, false, Some(0)), 0 := Shm(NULL, 8, true, Some(0))])
  const STRAYED := State([], map[3 := Context([LOST_BLOCK], {0})], map[0 := 3],
                         map[1 := Shm(4096, 8, false, Some(0)), 0 := Shm(NULL, 0, true, None)])

  lemma Loses()
    ensures Goes(REGISTERED, Allocate(0, 0, 8, MEM_INOUT, 12288, NULL), UNMAPPED)
  {
    FirstSlot();
    assert WithBlock(Context([REGISTERED_BLOCK], {}), LOST_BLOCK, {0}) == Context([REGISTERED_BLOCK, LOST_BLOCK], {0});
  }

  lemma Strays()
    ensures Goes(UNMAPPED, Release(0, true), STRAYED)
  {
    var blocks := UNMAPPED.contexts[3].blocks;
    assert Matches(blocks[0], true, U32_MAX, NULL);
    assert FirstMatch(blocks, true, U32_MAX, NULL) == Some(0);
    assert RemoveAt(blocks, 0) == [LOST_BLOCK];
  }

  /** A proper step, and the structures that stand after it. */
  ghost predicate Keeps(s: State, st: set<nat>, e: Event, st': set<nat>) {
    Proper(s, st, e) && StandingAfter(s, st, e) == st'
  }

  /** A run and the structures that stand after each of its steps. */
  ghost predicate ProperTrace(es: seq<Event>, ss: seq<State>, sts: seq<set<nat>>) {
    && Trace(es, ss) && |sts| == |ss| && sts[0] == {}
    && forall i {:trigger es[i]} :: 0 <= i < |es| ==> Keeps(ss[i], sts[i], es[i], sts[i + 1])
  }

  lemma {:induction false} ProperTraceIsRun(es: seq<Event>, ss: seq<State>, sts: seq<set<nat>>)
    requires ProperTrace(es, ss, sts)
    ensures AlwaysProper(es) && Standing(es) == sts[|es|] && After(es) == ss[|es|]
  {
    TraceIsRun(es, ss);
    if es != [] {
      var n := |es| - 1;
      ProperTraceIsRun(es[..n], ss[..n + 1], sts[..n + 1]);
      assert Keeps(ss[n], sts[n], es[n], sts[n + 1]);
    }
  }

  const NONE_STANDS: set<nat> := {}
  const STANDING: seq<set<nat>> := [NONE_STANDS, NONE_STANDS, {1}, {0, 1}, {1}]

  lemma StrayKeeps()
    ensures Keeps(EMPTY, NONE_STANDS, STRAY[0], NONE_STANDS) && Keeps(OPENED, NONE_STANDS, STRAY[1], {1})
    ensures Keeps(REGISTERED, {1}, STRAY[2], {0, 1})
    ensures Keeps(UNMAPPED, {0, 1}, STRAY[3], {1})
  {
    assert NONE_STANDS + {1} == {1};
    assert !MapsAt(OPENED.contexts[3], 4096);
  }

  /** The run keeps to every rule, and the release costs the context its registered block, not the lost one. */
  lemma StrayReleaseHappens()
    ensures AlwaysPossible(STRAY) && AlwaysProper(STRAY) && After(STRAY) == STRAYED
  {
    Opens();
    Registers();
    Loses();
    Strays();
    StrayKeeps();
    var ss := [EMPTY, OPENED, REGISTERED, UNMAPPED, STRAYED];
    FourSteps(STRAY, ss, STANDING);
    TraceIsRun(STRAY, ss);
    ProperTraceIsRun(STRAY, ss, STANDING);
  }

  lemma FourSteps(es: seq<Event>, ss: seq<State>, sts: seq<set<nat>>)
    requires |es| == 4 && |ss| == |sts| == 5 && ss[0] == EMPTY && sts[0] == {}
    requires Goes(ss[0], es[0], ss[1]) && Keeps(ss[0], sts[0], es[0], sts[1])
    requires Goes(ss[1], es[1], ss[2]) && Keeps(ss[1], sts[1], es[1], sts[2])
    requires Goes(ss[2], es[2], ss[3]) && Keeps(ss[2], sts[2], es[2], sts[3])
    requires Goes(ss[3], es[3], ss[4]) && Keeps(ss[3], sts[3], es[3], sts[4])
    ensures ProperTrace(es, ss, sts)
  {
    forall i | 0 <= i < 4
      ensures Goes(ss[i], es[i], ss[i + 1]) && Keeps(ss[i], sts[i], es[i], sts[i + 1])
    {
      assert i == 0 || i == 1 || i == 2 || i == 3;
    }
  }
}
