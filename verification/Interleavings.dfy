/** Any number of threads in calls of Calls, in any interleaving: counts balance, who has a block out holds its
    context, and no step uses freed memory. */
module Interleavings {
  import opened Wrappers
  import opened Lifetime
  import opened LifetimeRuns
  import opened Sequences
  import opened Calls

  datatype System = System(lib: State, threads: map<nat, Thread>)

  // A thread enters a call, a thread takes its next step, or a teardown goes on.
  datatype Move = Enter(t: nat, call: Call) | Go(t: nat) | Teardown(e: Event)

  predicate IsDone(th: Thread) {
    th.Outside? && th.outer == []
  }

  function NextEvent(th: Thread): Event
    requires !IsDone(th)
  {
    match th
    case Entering(take, _, _) => take
    case Inside(h, inner, _) => if inner == [] then PutContext(h) else inner[0]
    case Outside(outer) => outer[0]
  }

  /** The put of a block's last reference: the thread goes on to clear its bit. */
  predicate PutsLast(s: State, e: Event, b: nat) {
    && e.PutBlock? && e.h in s.handles && s.handles[e.h] == Block(b) && Block(b) in s.objects
    && s.objects[Block(b)].ops == 1 && b in s.offsets
  }

  function Advance(s: State, th: Thread): Thread
    requires !IsDone(th)
  {
    match th
    case Entering(take, inner, outer) => if IsTake(take) then Inside(take.h, inner, outer) else th
    case Inside(h, inner, outer) =>
      if inner == [] then Outside(outer)
      else if inner[0].PutBlock? && inner[0].h in s.handles && s.handles[inner[0].h].Block? &&
              PutsLast(s, inner[0], s.handles[inner[0].h].id) then
        Inside(h, [ReleaseSlot(s.handles[inner[0].h].id)] + inner[1..], outer)
      else Inside(h, inner[1..], outer)
    case Outside(outer) => Outside(outer[1..])
  }

  predicate CanMove(s: System, m: Move) {
    match m
    case Enter(t, call) => Named(call) && (t in s.threads ==> IsDone(s.threads[t]))
    case Go(t) => t in s.threads && !IsDone(s.threads[t]) && Enabled(s.lib, NextEvent(s.threads[t]))
    case Teardown(e) => (e.FinalizeSession? || e.FinalizeBlock? || e.FreeContext?) && Enabled(s.lib, e)
  }

  function Moved(s: System, m: Move): System
    requires Inv(s.lib) && CanMove(s, m)
  {
    match m
    case Enter(t, call) => s.(threads := s.threads[t := Script(call)])
    case Go(t) =>
      System(Next(s.lib, NextEvent(s.threads[t])), s.threads[t := Advance(s.lib, s.threads[t])])
    case Teardown(e) => s.(lib := Next(s.lib, e))
  }

  // ---------------------------------------------------------------- what a step does to handles

  predicate PutsHandle(e: Event, k: nat) {
    (e.PutContext? || e.PutSession? || e.PutBlock?) && e.h == k
  }

  predicate TakesSession(e: Event, k: nat) {
    (e.AddSession? || e.GetSession? || e.RemoveSession?) && e.h == k
  }

  predicate TakesContext(e: Event, k: nat) {
    IsTake(e) && e.h == k
  }

  /** Handle `k` after a step, given what the step may take it on. */
  ghost predicate HandleAfter(s: State, e: Event, k: nat, takes: bool)
    requires Enabled(s, e)
  {
    var after := Next(s, e).handles;
    && (k in after <==> (k in s.handles && !PutsHandle(e, k)) || takes)
    && (k in s.handles && k in after ==> after[k] == s.handles[k])
    && (takes ==> k !in s.handles)
  }

  lemma ContextHandles(s: State, e: Event, k: nat)
    requires Enabled(s, e) && OfContext(e)
    ensures HandleAfter(s, e, k, TakesContext(e, k)) && (TakesContext(e, k) ==> Next(s, e).handles[k].Ctx?)
  {
  }

  lemma SessionHandles(s: State, e: Event, k: nat)
    requires Enabled(s, e) && OfSession(e)
    ensures HandleAfter(s, e, k, TakesSession(e, k)) && (TakesSession(e, k) ==> Next(s, e).handles[k].Sess?)
  {
  }

  lemma BlockHandles(s: State, e: Event, k: nat)
    requires Enabled(s, e) && !OfContext(e) && !OfSession(e)
    ensures HandleAfter(s, e, k, TakesBlock(e, k)) && (TakesBlock(e, k) ==> Next(s, e).handles[k] == Block(e.b))
  {
  }

  /** A handle stays unless it is put. */
  lemma HandleStays(s: State, e: Event, k: nat)
    requires Enabled(s, e) && k in s.handles && !PutsHandle(e, k)
    ensures k in Next(s, e).handles && Next(s, e).handles[k] == s.handles[k]
  {
    if OfContext(e) {
      ContextHandles(s, e, k);
    } else if OfSession(e) {
      SessionHandles(s, e, k);
    } else {
      BlockHandles(s, e, k);
    }
  }

  /** A handle that is there afterwards was there before and was not put, or is new. */
  lemma HandleSource(s: State, e: Event, k: nat)
    requires Enabled(s, e) && k in Next(s, e).handles
    ensures var o := Next(s, e).handles[k];
      || (k in s.handles && s.handles[k] == o && !PutsHandle(e, k))
      || (k !in s.handles && TakesContext(e, k) && o.Ctx?)
      || (k !in s.handles && TakesSession(e, k) && o.Sess?)
      || (k !in s.handles && TakesBlock(e, k) && o == Block(e.b))
  {
    if OfContext(e) {
      ContextHandles(s, e, k);
    } else if OfSession(e) {
      SessionHandles(s, e, k);
    } else {
      BlockHandles(s, e, k);
    }
  }

  /** A block taken is there, and belongs to the context it was taken under. */
  lemma BlockTaken(s: State, e: Event, k: nat)
    requires Enabled(s, e) && TakesBlock(e, k)
    ensures k !in s.handles && k in Next(s, e).handles && Next(s, e).handles[k] == Block(e.b)
    ensures Block(e.b) in Next(s, e).objects
    ensures !e.PublishBlock? ==> HoldsContext(s, e.under) && IsObj(Next(s, e), Block(e.b), ContextOf(s, e.under))
  {
  }

  lemma ContextTaken(s: State, e: Event)
    requires Enabled(s, e) && IsTake(e)
    ensures e.h !in s.handles && HoldsContext(Next(s, e), e.h)
  {
  }

  lemma SlotTaken(s: State, e: Event)
    requires Enabled(s, e) && e.ReserveSlot?
    ensures HoldsContext(s, e.under) && IsObj(Next(s, e), Block(e.b), ContextOf(s, e.under))
  {
  }

  /** What is in transit afterwards was so before and is not moved, or was just reserved, or just put for the last time. */
  lemma TransitSource(s: State, e: Event, b: nat)
    requires Enabled(s, e) && FindsLive(s, e) && ListKnown(s) && InTransit(Next(s, e), Block(b))
    ensures || (InTransit(s, Block(b)) && !MovesBlock(e, b))
            || (e.ReserveSlot? && e.b == b)
            || PutsLast(s, e, b)
  {
    if OfContext(e) || OfSession(e) {
      BlockUntouched(s, e, b);
    } else {
      BlockStepTransit(s, e, b);
    }
  }

  lemma BlockUntouched(s: State, e: Event, b: nat)
    requires Enabled(s, e) && (OfContext(e) || OfSession(e))
    ensures InTransit(Next(s, e), Block(b)) <==> InTransit(s, Block(b))
  {
  }

  lemma BlockStepTransit(s: State, e: Event, b: nat)
    requires Enabled(s, e) && FindsLive(s, e) && ListKnown(s) && InTransit(Next(s, e), Block(b))
    requires !OfContext(e) && !OfSession(e)
    ensures || (InTransit(s, Block(b)) && !MovesBlock(e, b))
            || (e.ReserveSlot? && e.b == b)
            || PutsLast(s, e, b)
  {
  }

  // ---------------------------------------------------------------- the invariant

  /** An owed put is of a block of the thread's own context. */
  ghost predicate OwedOk(s: State, h: nat, k: nat)
    requires HoldsContext(s, h)
  {
    k in s.handles && s.handles[k].Block? && IsObj(s, s.handles[k], ContextOf(s, h))
  }

  ghost predicate InsideOk(s: State, h: nat, inner: seq<Event>) {
    && HoldsContext(s, h) && Orderly(h, inner)
    && (forall k {:trigger Owes(inner, k)} :: Owes(inner, k) ==> OwedOk(s, h, k))
    && (forall b :: inner != [] && MovesBlock(inner[0], b) ==> IsObj(s, Block(b), ContextOf(s, h)))
  }

  ghost predicate ThreadOk(s: State, th: Thread) {
    match th
    case Entering(_, _, _) => WellBuilt(th)
    case Inside(h, inner, outer) => InsideOk(s, h, inner) && OuterOk(outer)
    case Outside(outer) => OuterOk(outer)
  }

  ghost predicate Holder(s: System, t: nat, h: nat) {
    t in s.threads && s.threads[t].Inside? && s.threads[t].h == h
  }

  ghost predicate Debtor(s: System, t: nat, k: nat) {
    t in s.threads && s.threads[t].Inside? && Owes(s.threads[t].inner, k)
  }

  ghost predicate Mover(s: System, t: nat, b: nat) {
    t in s.threads && s.threads[t].Inside? && s.threads[t].inner != [] && MovesBlock(s.threads[t].inner[0], b)
  }

  ghost predicate ContextsHeld(s: System) {
    && (forall h {:trigger HoldsContext(s.lib, h)} :: HoldsContext(s.lib, h) ==> exists t :: Holder(s, t, h))
    && (forall t, u, h {:trigger Holder(s, t, h), Holder(s, u, h)} :: Holder(s, t, h) && Holder(s, u, h) ==> t == u)
  }

  ghost predicate BlocksOwed(s: System) {
    && (forall k :: k in s.lib.handles && s.lib.handles[k].Block? ==> exists t :: Debtor(s, t, k))
    && (forall t, u, k {:trigger Debtor(s, t, k), Debtor(s, u, k)} :: Debtor(s, t, k) && Debtor(s, u, k) ==> t == u)
  }

  ghost predicate BlocksMoved(s: System) {
    forall b {:trigger InTransit(s.lib, Block(b))} :: InTransit(s.lib, Block(b)) ==> exists t :: Mover(s, t, b)
  }

  ghost predicate SysInv(s: System) {
    && Inv(s.lib)
    && (forall t {:trigger s.threads[t]} :: t in s.threads ==> ThreadOk(s.lib, s.threads[t]))
    && ContextsHeld(s) && BlocksOwed(s) && BlocksMoved(s)
  }

  // ---------------------------------------------------------------- threads that are not at work

  /** A step that puts none of its handles leaves a thread in order. */
  lemma ThreadKept(s: State, e: Event, th: Thread)
    requires Inv(s) && Enabled(s, e) && ThreadOk(s, th)
    requires th.Inside? ==> !PutsHandle(e, th.h) && forall k :: Owes(th.inner, k) ==> !PutsHandle(e, k)
    ensures ThreadOk(Next(s, e), th)
  {
    if th.Inside? {
      InsideKept(s, e, th.h, th.inner);
    }
  }

  lemma InsideKept(s: State, e: Event, h: nat, inner: seq<Event>)
    requires Inv(s) && Enabled(s, e) && InsideOk(s, h, inner)
    requires !PutsHandle(e, h) && forall k :: Owes(inner, k) ==> !PutsHandle(e, k)
    ensures InsideOk(Next(s, e), h, inner)
  {
    HandleStays(s, e, h);
    forall k | Owes(inner, k)
      ensures OwedOk(Next(s, e), h, k)
    {
      OwedKept(s, e, h, k);
    }
    forall b | inner != [] && MovesBlock(inner[0], b)
      ensures IsObj(Next(s, e), Block(b), ContextOf(s, h))
    {
      StaysGone(s, e, Block(b));
    }
  }

  lemma OwedKept(s: State, e: Event, h: nat, k: nat)
    requires Inv(s) && Enabled(s, e) && HoldsContext(s, h) && OwedOk(s, h, k) && !PutsHandle(e, k) && !PutsHandle(e, h)
    ensures HoldsContext(Next(s, e), h) && ContextOf(Next(s, e), h) == ContextOf(s, h) && OwedOk(Next(s, e), h, k)
  {
    HandleStays(s, e, h);
    HandleStays(s, e, k);
    StaysGone(s, e, s.handles[k]);
  }

  /** The step of thread `t` puts no handle of another thread. */
  lemma OthersUntouched(s: System, t: nat, u: nat)
    requires SysInv(s) && CanMove(s, Go(t)) && u in s.threads && u != t && s.threads[u].Inside?
    ensures var e := NextEvent(s.threads[t]);
      && !PutsHandle(e, s.threads[u].h)
      && forall k :: Owes(s.threads[u].inner, k) ==> !PutsHandle(e, k)
  {
    var th, e := s.threads[t], NextEvent(s.threads[t]);
    assert ThreadOk(s.lib, s.threads[u]) && ThreadOk(s.lib, th);
    assert Holder(s, u, s.threads[u].h);
    if e.PutContext? {
      PutByHolder(s, t);
    }
    forall k | Owes(s.threads[u].inner, k)
      ensures !PutsHandle(e, k)
    {
      assert OwedOk(s.lib, s.threads[u].h, k) && Debtor(s, u, k);
      if e == PutBlock(k) {
        assert Debtor(s, t, k) by {
          PutByDebtor(s, t);
        }
      }
    }
  }

  /** Only a thread that is inside puts a context, and it is its own. */
  lemma PutByHolder(s: System, t: nat)
    requires SysInv(s) && CanMove(s, Go(t)) && NextEvent(s.threads[t]).PutContext?
    ensures s.threads[t].Inside? && s.threads[t].inner == [] && Holder(s, t, NextEvent(s.threads[t]).h)
  {
    StepKind(s, t);
  }

  /** A thread takes a context entering, puts it when nothing is left to do inside, and only sessions afterwards. */
  lemma StepKind(s: System, t: nat)
    requires SysInv(s) && CanMove(s, Go(t))
    ensures var th, e := s.threads[t], NextEvent(s.threads[t]);
      match th
      case Entering(_, _, _) => IsTake(e)
      case Inside(h, inner, _) => if inner == [] then e == PutContext(h) else IsInner(h, e)
      case Outside(_) => e.PutSession?
  {
    var th := s.threads[t];
    assert ThreadOk(s.lib, th);
    if th.Outside? {
      assert th.outer[0] in th.outer;
    }
  }

  lemma PutByDebtor(s: System, t: nat)
    requires SysInv(s) && CanMove(s, Go(t)) && NextEvent(s.threads[t]).PutBlock?
    ensures s.threads[t].Inside? && s.threads[t].inner != [] && Debtor(s, t, NextEvent(s.threads[t]).h)
  {
    StepKind(s, t);
  }

  // ---------------------------------------------------------------- the thread at work

  /** After a step inside, the thread owes what it owed and what it took, and no longer what it put. */
  lemma RestOk(s: State, h: nat, inner: seq<Event>)
    requires Inv(s) && InsideOk(s, h, inner) && inner != [] && Enabled(s, inner[0])
    ensures InsideOk(Next(s, inner[0]), h, inner[1..])
  {
    var e, rest, s' := inner[0], inner[1..], Next(s, inner[0]);
    assert IsInner(h, e);
    HandleStays(s, e, h);
    forall k | Owes(rest, k)
      ensures OwedOk(s', h, k)
    {
      OwesTail(h, inner, k);
      if TakesBlock(e, k) {
        TakenOk(s, h, inner, k);
      } else {
        OwedKept(s, e, h, k);
      }
    }
    forall b | rest != [] && MovesBlock(rest[0], b)
      ensures IsObj(s', Block(b), ContextOf(s', h))
    {
      assert HeadOk(e, rest);
      SlotTaken(s, e);
    }
  }

  lemma TakenOk(s: State, h: nat, inner: seq<Event>, k: nat)
    requires Inv(s) && InsideOk(s, h, inner) && inner != [] && Enabled(s, inner[0]) && TakesBlock(inner[0], k)
    requires HoldsContext(Next(s, inner[0]), h) && ContextOf(Next(s, inner[0]), h) == ContextOf(s, h)
    ensures OwedOk(Next(s, inner[0]), h, k)
  {
    var e := inner[0];
    BlockTaken(s, e, k);
    if e.PublishBlock? {
      assert MovesBlock(inner[0], e.b);
      StaysGone(s, e, Block(e.b));
    }
  }

  /** The same when the step was the last put of a block, whose bit is to be cleared next. */
  lemma ReleaseOk(s: State, h: nat, inner: seq<Event>, b: nat)
    requires Inv(s) && InsideOk(s, h, inner) && inner != [] && Enabled(s, inner[0]) && PutsLast(s, inner[0], b)
    ensures InsideOk(Next(s, inner[0]), h, [ReleaseSlot(b)] + inner[1..])
  {
    var e := inner[0];
    RestOk(s, h, inner);
    assert HeadOk(e, inner[1..]);
    OrderlyRelease(h, inner[1..], b);
    assert Owes(inner, e.h) && OwedOk(s, h, e.h);
    StaysGone(s, e, Block(b));
    HandleStays(s, e, h);
  }

  lemma OwnThreadOk(s: System, t: nat)
    requires SysInv(s) && CanMove(s, Go(t))
    ensures ThreadOk(Moved(s, Go(t)).lib, Moved(s, Go(t)).threads[t])
  {
    var th := s.threads[t];
    assert ThreadOk(s.lib, th);
    match th
    case Entering(take, inner, outer) => ContextTaken(s.lib, take);
    case Inside(h, inner, outer) =>
      if inner != [] {
        RestOk(s.lib, h, inner);
        if inner[0].PutBlock? && inner[0].h in s.lib.handles && s.lib.handles[inner[0].h].Block? &&
           PutsLast(s.lib, inner[0], s.lib.handles[inner[0].h].id) {
          ReleaseOk(s.lib, h, inner, s.lib.handles[inner[0].h].id);
        }
      }
    case Outside(outer) =>
  }

  /** What the thread owes after its step. */
  lemma DebtsAfter(s: System, t: nat, k: nat)
    requires SysInv(s) && CanMove(s, Go(t))
    ensures var e := NextEvent(s.threads[t]);
      Debtor(Moved(s, Go(t)), t, k) <==>
        (Debtor(s, t, k) && e != PutBlock(k)) || (s.threads[t].Inside? && s.threads[t].inner != [] && TakesBlock(e, k))
  {
    var th := s.threads[t];
    assert ThreadOk(s.lib, th);
    if th.Inside? && th.inner != [] {
      OwesTail(th.h, th.inner, k);
      assert HeadOk(th.inner[0], th.inner[1..]);
      if th.inner[0].PutBlock? {
        assert NoMove(th.inner[1..]);
        OrderlyRelease(th.h, th.inner[1..], if th.inner[0].h in s.lib.handles then s.lib.handles[th.inner[0].h].id else 0);
      }
    }
  }

  // ---------------------------------------------------------------- a thread's step keeps the invariant

  lemma GoThreads(s: System, t: nat)
    requires SysInv(s) && CanMove(s, Go(t))
    ensures var s' := Moved(s, Go(t)); forall u {:trigger s'.threads[u]} :: u in s'.threads ==> ThreadOk(s'.lib, s'.threads[u])
  {
    var s' := Moved(s, Go(t));
    forall u | u in s'.threads
      ensures ThreadOk(s'.lib, s'.threads[u])
    {
      if u == t {
        OwnThreadOk(s, t);
      } else {
        assert ThreadOk(s.lib, s.threads[u]);
        if s.threads[u].Inside? {
          OthersUntouched(s, t, u);
        }
        ThreadKept(s.lib, NextEvent(s.threads[t]), s.threads[u]);
      }
    }
  }

  /** Who holds a context after the step: the other threads as before; this one if it stays inside or just entered. */
  lemma HoldersAfter(s: System, t: nat, u: nat, h: nat)
    requires SysInv(s) && CanMove(s, Go(t))
    ensures var e := NextEvent(s.threads[t]);
      Holder(Moved(s, Go(t)), u, h) <==>
        if u == t then (Holder(s, t, h) && !e.PutContext?) || TakesContext(e, h) else Holder(s, u, h)
  {
    StepKind(s, t);
  }

  lemma GoContexts(s: System, t: nat)
    requires SysInv(s) && CanMove(s, Go(t))
    ensures ContextsHeld(Moved(s, Go(t)))
  {
    var s', e := Moved(s, Go(t)), NextEvent(s.threads[t]);
    forall h | HoldsContext(s'.lib, h)
      ensures exists u :: Holder(s', u, h)
    {
      HandleSource(s.lib, e, h);
      if HoldsContext(s.lib, h) && !PutsHandle(e, h) {
        var u :| Holder(s, u, h);
        HoldersAfter(s, t, u, h);
        if e.PutContext? {
          PutByHolder(s, t);
        }
        assert Holder(s', u, h);
      } else {
        HoldersAfter(s, t, t, h);
        assert Holder(s', t, h);
      }
    }
    forall u, v, h | Holder(s', u, h) && Holder(s', v, h)
      ensures u == v
    {
      HoldersAfter(s, t, u, h);
      HoldersAfter(s, t, v, h);
      HandlesInUse(s);
      if TakesContext(e, h) {
        ContextTaken(s.lib, e);
      }
    }
  }

  /** What a thread holds or owes is a handle that exists. */
  lemma HandlesInUse(s: System)
    requires SysInv(s)
    ensures forall u, h :: Holder(s, u, h) ==> h in s.lib.handles
    ensures forall u, k :: Debtor(s, u, k) ==> k in s.lib.handles
  {
    forall u, k | Debtor(s, u, k)
      ensures k in s.lib.handles
    {
      assert ThreadOk(s.lib, s.threads[u]);
      assert OwedOk(s.lib, s.threads[u].h, k);
    }
  }

  lemma GoDebts(s: System, t: nat)
    requires SysInv(s) && CanMove(s, Go(t))
    ensures BlocksOwed(Moved(s, Go(t)))
  {
    var s' := Moved(s, Go(t));
    forall k | k in s'.lib.handles && s'.lib.handles[k].Block?
      ensures exists u :: Debtor(s', u, k)
    {
      NextDebtor(s, t, k);
    }
    forall u, v, k | Debtor(s', u, k) && Debtor(s', v, k)
      ensures u == v
    {
      OneDebtor(s, t, u, v, k);
    }
  }

  lemma NextDebtor(s: System, t: nat, k: nat)
    requires SysInv(s) && CanMove(s, Go(t))
    requires k in Moved(s, Go(t)).lib.handles && Moved(s, Go(t)).lib.handles[k].Block?
    ensures exists u :: Debtor(Moved(s, Go(t)), u, k)
  {
    var e := NextEvent(s.threads[t]);
    HandleSource(s.lib, e, k);
    DebtsAfter(s, t, k);
    if k in s.lib.handles {
      var u :| Debtor(s, u, k);
      assert Debtor(Moved(s, Go(t)), u, k);
    } else {
      StepKind(s, t);
      assert Debtor(Moved(s, Go(t)), t, k);
    }
  }

  lemma DebtsElsewhere(s: System, t: nat, u: nat, k: nat)
    requires Inv(s.lib) && CanMove(s, Go(t))
    ensures u != t ==> (Debtor(Moved(s, Go(t)), u, k) <==> Debtor(s, u, k))
  {
  }

  lemma OneDebtor(s: System, t: nat, u: nat, v: nat, k: nat)
    requires SysInv(s) && CanMove(s, Go(t)) && Debtor(Moved(s, Go(t)), u, k) && Debtor(Moved(s, Go(t)), v, k)
    ensures u == v
  {
    var e := NextEvent(s.threads[t]);
    DebtsAfter(s, t, k);
    DebtsElsewhere(s, t, u, k);
    DebtsElsewhere(s, t, v, k);
    HandlesInUse(s);
    if TakesBlock(e, k) {
      BlockTaken(s.lib, e, k);
    }
  }

  lemma GoMoves(s: System, t: nat)
    requires SysInv(s) && CanMove(s, Go(t))
    ensures BlocksMoved(Moved(s, Go(t)))
  {
    var s', e := Moved(s, Go(t)), NextEvent(s.threads[t]);
    forall b | InTransit(s'.lib, Block(b))
      ensures exists u :: Mover(s', u, b)
    {
      StepFindsLive(s.lib, e);
      TransitSource(s.lib, e, b);
      if InTransit(s.lib, Block(b)) && !MovesBlock(e, b) {
        var u :| Mover(s, u, b);
        assert Mover(s', u, b);
      } else {
        NewMover(s, t, b);
        assert Mover(s', t, b);
      }
    }
  }

  /** The thread that brought the block into transit moves it next. */
  lemma NewMover(s: System, t: nat, b: nat)
    requires SysInv(s) && CanMove(s, Go(t))
    requires var e := NextEvent(s.threads[t]); (e.ReserveSlot? && e.b == b) || PutsLast(s.lib, e, b)
    ensures Mover(Moved(s, Go(t)), t, b)
  {
    var th := s.threads[t];
    StepKind(s, t);
    assert ThreadOk(s.lib, th);
    assert HeadOk(th.inner[0], th.inner[1..]);
  }

  lemma GoKeeps(s: System, t: nat)
    requires SysInv(s) && CanMove(s, Go(t))
    ensures SysInv(Moved(s, Go(t)))
  {
    StepKeepsInv(s.lib, NextEvent(s.threads[t]));
    GoThreads(s, t);
    GoContexts(s, t);
    GoDebts(s, t);
    GoMoves(s, t);
  }

  // ---------------------------------------------------------------- the other moves

  lemma TeardownKeeps(s: System, e: Event)
    requires SysInv(s) && CanMove(s, Teardown(e))
    ensures SysInv(Moved(s, Teardown(e)))
  {
    var s' := Moved(s, Teardown(e));
    StepKeepsInv(s.lib, e);
    forall u | u in s'.threads
      ensures ThreadOk(s'.lib, s'.threads[u])
    {
      ThreadKept(s.lib, e, s.threads[u]);
    }
    forall h | HoldsContext(s'.lib, h)
      ensures exists u :: Holder(s', u, h)
    {
      HandleSource(s.lib, e, h);
      assert HoldsContext(s.lib, h);
      var u :| Holder(s, u, h);
      assert Holder(s', u, h);
    }
    assert forall u, h :: Holder(s', u, h) <==> Holder(s, u, h);
    TeardownBlocks(s, e);
  }

  lemma TeardownBlocks(s: System, e: Event)
    requires SysInv(s) && CanMove(s, Teardown(e))
    ensures BlocksOwed(Moved(s, Teardown(e))) && BlocksMoved(Moved(s, Teardown(e)))
  {
    var s' := Moved(s, Teardown(e));
    assert forall u, k :: Debtor(s', u, k) <==> Debtor(s, u, k);
    forall k | k in s'.lib.handles && s'.lib.handles[k].Block?
      ensures exists u :: Debtor(s', u, k)
    {
      HandleSource(s.lib, e, k);
      assert k in s.lib.handles && s.lib.handles[k].Block?;
      var u :| Debtor(s, u, k);
      assert Debtor(s', u, k);
    }
    forall b | InTransit(s'.lib, Block(b))
      ensures exists u :: Mover(s', u, b)
    {
      StepFindsLive(s.lib, e);
      TransitSource(s.lib, e, b);
      assert InTransit(s.lib, Block(b));
      var u :| Mover(s, u, b);
      assert Mover(s', u, b);
    }
  }

  /** Who enters a call holds nothing yet. */
  lemma EnterRoles(s: System, t: nat, call: Call)
    requires Inv(s.lib) && CanMove(s, Enter(t, call))
    ensures var s' := Moved(s, Enter(t, call));
      && (forall u, h :: Holder(s', u, h) <==> Holder(s, u, h))
      && (forall u, k :: Debtor(s', u, k) <==> Debtor(s, u, k))
      && (forall u, b :: Mover(s', u, b) <==> Mover(s, u, b))
  {
    ScriptsWellBuilt(call);
  }

  lemma EnterThreads(s: System, t: nat, call: Call)
    requires SysInv(s) && CanMove(s, Enter(t, call))
    ensures var s' := Moved(s, Enter(t, call)); forall u {:trigger s'.threads[u]} :: u in s'.threads ==> ThreadOk(s'.lib, s'.threads[u])
  {
    ScriptsWellBuilt(call);
  }

  lemma EnterKeeps(s: System, t: nat, call: Call)
    requires SysInv(s) && CanMove(s, Enter(t, call))
    ensures SysInv(Moved(s, Enter(t, call)))
  {
    EnterRoles(s, t, call);
    EnterThreads(s, t, call);
  }

  lemma MoveKeepsInv(s: System, m: Move)
    requires SysInv(s) && CanMove(s, m)
    ensures SysInv(Moved(s, m))
  {
    match m
    case Enter(t, call) => EnterKeeps(s, t, call);
    case Go(t) => GoKeeps(s, t);
    case Teardown(e) => TeardownKeeps(s, e);
  }

  // ---------------------------------------------------------------- whole runs

  ghost function Play(ms: seq<Move>): (r: Option<System>)
    ensures r.Some? ==> SysInv(r.value)
  {
    if ms == [] then Some(System(EMPTY, map[]))
    else
      match Play(ms[..|ms| - 1])
      case None => None
      case Some(s) =>
        var m := ms[|ms| - 1];
        if CanMove(s, m) then
          MoveKeepsInv(s, m);
          Some(Moved(s, m))
        else None
  }

  /** The library step of a move, if it makes one. */
  function StepOf(s: System, m: Move): seq<Event>
    requires CanMove(s, m)
  {
    match m
    case Enter(_, _) => []
    case Go(t) => [NextEvent(s.threads[t])]
    case Teardown(e) => [e]
  }

  ghost function EventsOf(ms: seq<Move>): seq<Event>
    requires Play(ms).Some?
  {
    if ms == [] then [] else EventsOf(ms[..|ms| - 1]) + StepOf(Play(ms[..|ms| - 1]).value, ms[|ms| - 1])
  }

  /** Who has a block out holds its context: that is what the calls see to. */
  lemma CallsCover(s: System, b: nat)
    requires SysInv(s)
    ensures Covered(s.lib, Block(b))
  {
    if Block(b) in s.lib.objects && Out(s.lib, Block(b)) {
      CoveringHandle(s, b);
    }
  }

  lemma CoveringHandle(s: System, b: nat)
    requires SysInv(s) && Block(b) in s.lib.objects && Out(s.lib, Block(b))
    ensures On(s.lib.handles, Ctx(s.lib.objects[Block(b)].owner)) != {}
  {
    var h: nat;
    if InTransit(s.lib, Block(b)) {
      var t :| Mover(s, t, b);
      assert ThreadOk(s.lib, s.threads[t]);
      h := s.threads[t].h;
    } else {
      var k :| k in On(s.lib.handles, Block(b));
      var t :| Debtor(s, t, k);
      assert ThreadOk(s.lib, s.threads[t]);
      h := s.threads[t].h;
      assert OwedOk(s.lib, h, k);
    }
    assert h in On(s.lib.handles, Ctx(s.lib.objects[Block(b)].owner));
  }

  /** What the threads do together is a run of the library, covered throughout. */
  lemma {:induction false} PlayIsRun(ms: seq<Move>, b: nat)
    requires Play(ms).Some?
    ensures Exec(EventsOf(ms)) == Some(Play(ms).value.lib) && AlwaysCovered(EventsOf(ms), Block(b))
  {
    CallsCover(Play(ms).value, b);
    if ms != [] {
      var n := |ms| - 1;
      PlayIsRun(ms[..n], b);
      var es, w := EventsOf(ms[..n]), StepOf(Play(ms[..n]).value, ms[n]);
      if w == [] {
        NothingBehind(es);
      } else {
        CoveredOnce(es, w[0], Block(b));
      }
    }
  }

  /** However the calls of any number of threads interleave, no step of theirs uses freed memory. */
  lemma CallsUseNothingFreed(ms: seq<Move>, m: Move)
    requires Play(ms).Some? && CanMove(Play(ms).value, m) && !m.Enter?
    ensures !TouchesFreed(Play(ms).value.lib, StepOf(Play(ms).value, m)[0])
  {
    var s := Play(ms).value;
    var e := StepOf(s, m)[0];
    StepTouches(s.lib, e);
    if m.Go? {
      StepKind(s, m.t);
    }
    if e.AbandonSlot? || e.PublishBlock? || e.ReleaseSlot? {
      PlayIsRun(ms, e.b);
      CoveredIsSafe(EventsOf(ms), Block(e.b));
    }
  }

  /** In those runs a freed context leaves an all-zero bitmap, and each of its blocks has ended exactly once. */
  lemma CallsLeaveNothing(ms: seq<Move>, c: nat)
    requires Play(ms).Some? && Ctx(c) in Play(ms).value.lib.objects && Play(ms).value.lib.objects[Ctx(c)].phase.Gone?
    ensures var s := Play(ms).value.lib;
      && c in s.bits && s.bits[c] == {}
      && (forall b :: IsObj(s, Block(b), c) ==> s.objects[Block(b)].phase.Gone? && s.objects[Block(b)].ended == 1)
  {
    PlayIsRun(ms, 0);
    forall b
      ensures AlwaysCovered(EventsOf(ms), Block(b))
    {
      PlayIsRun(ms, b);
    }
    ContextsDieClean(EventsOf(ms), c);
  }

  /** Whenever no thread is inside a call, the count of every listed context is exactly the list's one reference, and
      every other context has been finalized, once. */
  lemma CallsAreBalanced(ms: seq<Move>, c: nat)
    requires Play(ms).Some? && Ctx(c) in Play(ms).value.lib.objects
    requires forall t :: t in Play(ms).value.threads ==> !Play(ms).value.threads[t].Inside?
    ensures var s := Play(ms).value.lib;
      if Ctx(c) in s.listed then s.objects[Ctx(c)].ops == 1 && s.objects[Ctx(c)].phase.Live?
      else s.objects[Ctx(c)].ops == 0 && s.objects[Ctx(c)].ended == 1
  {
    var sys := Play(ms).value;
    var s := sys.lib;
    assert ObjOk(s, Ctx(c));
    assert forall t, h :: !Holder(sys, t, h);
    assert forall h :: h in On(s.handles, Ctx(c)) ==> HoldsContext(s, h);
    assert On(s.handles, Ctx(c)) == {};
  }
}
