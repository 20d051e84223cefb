/** Calls at rest: whatever the interleaving was, sessions and blocks are left with the references that the calls'
    meaning gives them, and came and went only because a call or a teardown asked for it. */
module Balance {
  import opened Wrappers
  import opened Sequences
  import opened Lifetime
  import opened LifetimeRuns
  import opened Histories
  import opened Calls
  import opened Interleavings
  import Witnesses

  // ---------------------------------------------------------------- which calls do what

  /** The steps a thread has before it. */
  function Steps(th: Thread): seq<Event> {
    match th
    case Entering(take, inner, outer) => [take] + (inner + outer)
    case Inside(_, inner, outer) => inner + outer
    case Outside(outer) => outer
  }

  /** The calls that bring an object into being, as the interface defines them. */
  predicate Brings(call: Call, o: Obj) {
    match o
    case Ctx(c) => call.Initialize? && call.c == c
    case Sess(x) => (call.OpenSession? || call.ServeOpen?) && call.x == x
    case Block(b) => (call.RegisterMemory? || call.AllocateMemory?) && call.b == b
  }

  /** The calls that take it away. */
  predicate TakesAway(call: Call, o: Obj) {
    match o
    case Ctx(c) => call.Finalize? && call.c == c
    case Sess(x) => (call.CloseSession? || call.ServeClose?) && call.x == x
    case Block(b) => call.ReleaseMemory? && call.b == b
  }

  /** The calls that use it while they last. */
  predicate Uses(call: Call, o: Obj) {
    match o
    case Ctx(c) => !call.Initialize? && !call.Finalize? && call.c == c
    case Sess(x) => call.ServeInvoke? && call.x == x
    case Block(b) => (call.ServeOpen? || call.ServeRefused? || call.ServeInvoke?) && NamesBlock(call.refs, b)
  }

  predicate NamesBlock(refs: seq<Ref>, b: nat) {
    refs != [] && (refs[0].b == b || NamesBlock(refs[1..], b))
  }

  /** The calls that take a slot for it, whether or not they then get the memory. */
  predicate AsksSlot(call: Call, o: Obj) {
    o.Block? && (call.AllocateMemory? || call.AllocateFails?) && call.b == o.id
  }

  // What a step, or a call, can do to an object.
  datatype Deed = Lists | Unlists | Finds | Books

  predicate Acts(e: Event, o: Obj, d: Deed) {
    match d
    case Lists => Creates(e, o)
    case Unlists => Removes(e, o)
    case Finds => LooksUp(e, o)
    case Books => o.Block? && e.ReserveSlot? && e.b == o.id
  }

  /** What a call is for. */
  predicate Means(call: Call, o: Obj, d: Deed) {
    match d
    case Lists => Brings(call, o)
    case Unlists => TakesAway(call, o)
    case Finds => Uses(call, o)
    case Books => AsksSlot(call, o)
  }

  ghost predicate Does(w: seq<Event>, o: Obj, d: Deed) {
    exists e :: e in w && Acts(e, o, d)
  }

  lemma DoesConcat(v: seq<Event>, w: seq<Event>, o: Obj, d: Deed)
    ensures Does(v + w, o, d) <==> Does(v, o, d) || Does(w, o, d)
  {
    if e :| e in v && Acts(e, o, d) {
      assert e in v + w;
    }
    if e :| e in w && Acts(e, o, d) {
      assert e in v + w;
    }
  }

  lemma DoesOne(e: Event, o: Obj, d: Deed)
    ensures Does([e], o, d) <==> Acts(e, o, d)
  {
    assert e in [e];
  }

  lemma DoesTwo(e: Event, f: Event, o: Obj, d: Deed)
    ensures Does([e, f], o, d) <==> Acts(e, o, d) || Acts(f, o, d)
  {
    assert [e, f] == [e] + [f];
    DoesConcat([e], [f], o, d);
    DoesOne(e, o, d);
    DoesOne(f, o, d);
  }

  lemma DoesThree(e: Event, f: Event, g: Event, o: Obj, d: Deed)
    ensures Does([e, f, g], o, d) <==> Acts(e, o, d) || Acts(f, o, d) || Acts(g, o, d)
  {
    assert [e, f, g] == [e] + [f, g];
    DoesConcat([e], [f, g], o, d);
    DoesOne(e, o, d);
    DoesTwo(f, g, o, d);
  }

  lemma {:induction false} RefsDo(h: nat, refs: seq<Ref>, o: Obj, d: Deed)
    ensures Does(Gets(h, refs), o, d) <==> d.Finds? && o.Block? && NamesBlock(refs, o.id)
    ensures !Does(Puts(refs), o, d)
  {
    if refs != [] {
      var e, f := GetBlock(h, refs[0].b, refs[0].k), PutBlock(refs[0].k);
      RefsDo(h, refs[1..], o, d);
      DoesConcat([e], Gets(h, refs[1..]), o, d);
      DoesConcat([f], Puts(refs[1..]), o, d);
      DoesOne(e, o, d);
      DoesOne(f, o, d);
    }
  }

  /** The same of a thread, part by part. */
  lemma DoesParts(take: Event, inner: seq<Event>, outer: seq<Event>, o: Obj, d: Deed)
    ensures Does(Steps(Entering(take, inner, outer)), o, d) <==>
      Acts(take, o, d) || Does(inner, o, d) || Does(outer, o, d)
  {
    DoesConcat([take], inner + outer, o, d);
    DoesConcat(inner, outer, o, d);
    DoesOne(take, o, d);
  }

  /** A call lists, unlists, looks up or reserves an object exactly if it is a call that is to do that to it. */
  lemma ScriptsDoExactly(call: Call, o: Obj, d: Deed)
    ensures Does(Steps(Script(call)), o, d) <==> Means(call, o, d)
  {
    var th := Script(call);
    DoesParts(th.take, th.inner, th.outer, o, d);
    TakeDoes(call, o, d);
    InnerDoes(call, o, d);
    OuterDoes(call, o, d);
  }

  lemma TakeDoes(call: Call, o: Obj, d: Deed)
    ensures Acts(Script(call).take, o, d) <==> o.Ctx? && Means(call, o, d)
  {
  }

  lemma OuterDoes(call: Call, o: Obj, d: Deed)
    ensures !Does(Script(call).outer, o, d)
  {
    if call.ServeOpen? {
      DoesOne(PutSession(call.k), o, d);
    }
  }

  /** What the part under the context does. */
  lemma InnerDoes(call: Call, o: Obj, d: Deed)
    ensures !o.Ctx? ==> (Does(Script(call).inner, o, d) <==> Means(call, o, d))
    ensures o.Ctx? ==> !Does(Script(call).inner, o, d)
  {
    match call
    case Initialize(_, _, _) =>
    case Finalize(_, _, _) =>
    case Plain(_, _, _) =>
    case OpenSession(_, _, h, x, k) => DoesOne(AddSession(h, x, k), o, d);
    case CloseSession(_, _, h, x, k) => DoesOne(RemoveSession(h, x, k), o, d);
    case _ =>
      if call.ServeOpen? || call.ServeRefused? || call.ServeInvoke? || call.ServeClose? {
        ServedInnerDoes(call, o, d);
      } else {
        MemoryDoes(call, o, d);
      }
  }

  lemma AllocateDoes(h: nat, b: nat, k: nat, slot: nat, o: Obj, d: Deed)
    ensures Does([ReserveSlot(h, b, slot), PublishBlock(b, k), PutBlock(k)], o, d) <==> (d.Lists? || d.Books?) && o == Block(b)
  {
    DoesThree(ReserveSlot(h, b, slot), PublishBlock(b, k), PutBlock(k), o, d);
  }

  lemma MemoryDoes(call: Call, o: Obj, d: Deed)
    requires call.RegisterMemory? || call.AllocateMemory? || call.AllocateFails? || call.ReleaseMemory?
    ensures !o.Ctx? ==> (Does(Script(call).inner, o, d) <==> Means(call, o, d))
    ensures o.Ctx? ==> !Does(Script(call).inner, o, d)
  {
    match call
    case RegisterMemory(_, _, h, b, k) => DoesTwo(RegisterBlock(h, b, k), PutBlock(k), o, d);
    case AllocateMemory(_, _, h, b, k, slot) => AllocateDoes(h, b, k, slot, o, d);
    case AllocateFails(_, _, h, b, slot) => DoesTwo(ReserveSlot(h, b, slot), AbandonSlot(b), o, d);
    case ReleaseMemory(_, _, h, b, k) => DoesTwo(RemoveBlock(h, b, k), PutBlock(k), o, d);
  }

  lemma ServedInnerDoes(call: Call, o: Obj, d: Deed)
    requires call.ServeOpen? || call.ServeRefused? || call.ServeInvoke? || call.ServeClose?
    ensures !o.Ctx? ==> (Does(Script(call).inner, o, d) <==> Means(call, o, d))
    ensures o.Ctx? ==> !Does(Script(call).inner, o, d)
  {
    match call
    case ServeOpen(_, _, h, x, k, refs) => ServeOpenDoes(h, x, k, refs, o, d);
    case ServeRefused(_, _, h, refs) =>
      RefsDo(h, refs, o, d);
      DoesConcat(Gets(h, refs), Puts(refs), o, d);
    case ServeInvoke(_, _, h, x, k, refs) => ServeInvokeDoes(h, x, k, refs, o, d);
    case ServeClose(_, _, h, x, k) => DoesTwo(RemoveSession(h, x, k), PutSession(k), o, d);
  }

  lemma ServeOpenDoes(h: nat, x: nat, k: nat, refs: seq<Ref>, o: Obj, d: Deed)
    ensures Does(Gets(h, refs) + ([AddSession(h, x, k)] + Puts(refs)), o, d) <==>
      (d.Lists? && o == Sess(x)) || (d.Finds? && o.Block? && NamesBlock(refs, o.id))
  {
    RefsDo(h, refs, o, d);
    DoesConcat(Gets(h, refs), [AddSession(h, x, k)] + Puts(refs), o, d);
    DoesConcat([AddSession(h, x, k)], Puts(refs), o, d);
    DoesOne(AddSession(h, x, k), o, d);
  }

  lemma ServeInvokeDoes(h: nat, x: nat, k: nat, refs: seq<Ref>, o: Obj, d: Deed)
    ensures Does([GetSession(h, x, k)] + (Gets(h, refs) + (Puts(refs) + [PutSession(k)])), o, d) <==>
      d.Finds? && (o == Sess(x) || (o.Block? && NamesBlock(refs, o.id)))
  {
    RefsDo(h, refs, o, d);
    DoesConcat([GetSession(h, x, k)], Gets(h, refs) + (Puts(refs) + [PutSession(k)]), o, d);
    DoesConcat(Gets(h, refs), Puts(refs) + [PutSession(k)], o, d);
    DoesConcat(Puts(refs), [PutSession(k)], o, d);
    DoesOne(GetSession(h, x, k), o, d);
    DoesOne(PutSession(k), o, d);
  }

  // ---------------------------------------------------------------- nothing happens unasked

  predicate Asks(m: Move, o: Obj, d: Deed) {
    match m
    case Enter(_, call) => Means(call, o, d)
    case Go(_) => false
    case Teardown(e) => d.Unlists? && Removes(e, o)
  }

  /** Some call that was entered brings the object; or some call that was entered, or a teardown, takes it away. */
  ghost predicate Asked(ms: seq<Move>, o: Obj, d: Deed) {
    ms != [] && (Asked(ms[..|ms| - 1], o, d) || Asks(ms[|ms| - 1], o, d))
  }

  lemma NextDoes(th: Thread, o: Obj, d: Deed)
    requires !IsDone(th) && Acts(NextEvent(th), o, d)
    ensures Does(Steps(th), o, d)
  {
    match th
    case Entering(take, inner, outer) => DoesParts(take, inner, outer, o, d);
    case Inside(h, inner, outer) =>
      assert inner != [] ==> inner[0] in inner + outer;
    case Outside(outer) =>
      assert outer[0] in outer;
  }

  lemma TailDoes(w: seq<Event>, o: Obj, d: Deed)
    requires w != [] && Does(w[1..], o, d)
    ensures Does(w, o, d)
  {
    DoesConcat([w[0]], w[1..], o, d);
    assert [w[0]] + w[1..] == w;
  }

  lemma AdvanceDoes(s: State, th: Thread, o: Obj, d: Deed)
    requires !IsDone(th) && Does(Steps(Advance(s, th)), o, d)
    ensures Does(Steps(th), o, d)
  {
    match th
    case Entering(take, inner, outer) =>
      DoesParts(take, inner, outer, o, d);
      DoesConcat(inner, outer, o, d);
    case Inside(h, inner, outer) => InsideDoes(s, h, inner, outer, o, d);
    case Outside(outer) => TailDoes(outer, o, d);
  }

  lemma InsideDoes(s: State, h: nat, inner: seq<Event>, outer: seq<Event>, o: Obj, d: Deed)
    requires Does(Steps(Advance(s, Inside(h, inner, outer))), o, d)
    ensures Does(inner + outer, o, d)
  {
    DoesConcat(inner, outer, o, d);
    if inner != [] {
      var b := if inner[0].PutBlock? && inner[0].h in s.handles then s.handles[inner[0].h].id else 0;
      DoesConcat(inner[1..], outer, o, d);
      DoesConcat([ReleaseSlot(b)] + inner[1..], outer, o, d);
      DoesConcat([ReleaseSlot(b)], inner[1..], o, d);
      DoesOne(ReleaseSlot(b), o, d);
      if Does(inner[1..], o, d) {
        TailDoes(inner, o, d);
      }
    }
  }

  ghost predicate AllAsked(ms: seq<Move>, s: System, o: Obj, d: Deed) {
    forall t {:trigger s.threads[t]} :: t in s.threads && Does(Steps(s.threads[t]), o, d) ==> Asked(ms, o, d)
  }

  ghost predicate Ever(es: seq<Event>, o: Obj, d: Deed)
    requires d.Lists? || d.Unlists?
  {
    if d.Lists? then EverCreated(es, o) else EverRemoved(es, o)
  }

  lemma EverMore(es: seq<Event>, e: Event, o: Obj, d: Deed)
    requires d.Lists? || d.Unlists?
    ensures Ever(es + [e], o, d) <==> Ever(es, o, d) || Acts(e, o, d)
  {
    assert (es + [e])[..|es|] == es;
  }

  lemma StepAsked(ms: seq<Move>, s: System, m: Move, o: Obj, d: Deed)
    requires SysInv(s) && CanMove(s, m) && AllAsked(ms, s, o, d)
    ensures AllAsked(ms + [m], Moved(s, m), o, d)
    ensures StepOf(s, m) != [] && Acts(StepOf(s, m)[0], o, d) ==> Asked(ms + [m], o, d)
  {
    assert (ms + [m])[..|ms|] == ms;
    match m
    case Enter(t, call) => ScriptsDoExactly(call, o, d);
    case Go(t) =>
      var th := s.threads[t];
      if Acts(NextEvent(th), o, d) {
        NextDoes(th, o, d);
      }
      if Does(Steps(Advance(s.lib, th)), o, d) {
        AdvanceDoes(s.lib, th, o, d);
      }
    case Teardown(e) =>
  }

  /** In every run of calls, an object was listed only if a call that brings it was entered, and unlisted only if a call
      that takes it away was, or a teardown came to it. */
  lemma {:induction false} NothingUnasked(ms: seq<Move>, o: Obj, d: Deed)
    requires Play(ms).Some?
    requires d.Lists? || d.Unlists?
    ensures AllAsked(ms, Play(ms).value, o, d)
    ensures Ever(EventsOf(ms), o, d) ==> Asked(ms, o, d)
  {
    if ms != [] {
      var n := |ms| - 1;
      NothingUnasked(ms[..n], o, d);
      var s := Play(ms[..n]).value;
      StepAsked(ms[..n], s, ms[n], o, d);
      SplitLast(ms);
      if StepOf(s, ms[n]) != [] {
        EverMore(EventsOf(ms[..n]), StepOf(s, ms[n])[0], o, d);
      } else {
        NothingBehind(EventsOf(ms[..n]));
      }
    }
  }

  // ---------------------------------------------------------------- the sessions' references

  predicate TakesSess(e: Event, k: nat, x: nat) {
    (e.AddSession? || e.GetSession? || e.RemoveSession?) && e.h == k && e.x == x
  }

  /** The steps put session handle `k` and do not take it again. */
  predicate Returned(inner: seq<Event>, outer: seq<Event>, k: nat) {
    PutSession(k) in inner + outer && forall e :: e in inner ==> !TakesSession(e, k)
  }

  /** A client of the library itself opened or closed session `x`: it keeps handle `k`, the structure being its own. */
  ghost predicate Direct(ms: seq<Move>, k: nat, x: nat) {
    ms != [] &&
    (Direct(ms[..|ms| - 1], k, x) ||
     (var m := ms[|ms| - 1];
      m.Enter? && (m.call.OpenSession? || m.call.CloseSession?) && m.call.k == k && m.call.x == x))
  }

  /** Every session reference the steps take they return, unless it is one that the client keeps. */
  ghost predicate Settled(ms: seq<Move>, inner: seq<Event>, outer: seq<Event>) {
    inner != [] ==>
      && (forall k, x :: TakesSess(inner[0], k, x) ==> Direct(ms, k, x) || Returned(inner[1..], outer, k))
      && Settled(ms, inner[1..], outer)
  }

  ghost predicate ThreadSettled(ms: seq<Move>, th: Thread) {
    match th
    case Entering(_, inner, outer) => Settled(ms, inner, outer)
    case Inside(_, inner, outer) => Settled(ms, inner, outer)
    case Outside(_) => true
  }

  /** The thread is still to put this session handle. */
  predicate Owing(th: Thread, k: nat) {
    match th
    case Entering(_, _, _) => false
    case Inside(_, inner, outer) => Returned(inner, outer, k)
    case Outside(outer) => PutSession(k) in outer
  }

  ghost predicate SessDebtor(s: System, t: nat, k: nat) {
    t in s.threads && Owing(s.threads[t], k)
  }

  ghost predicate SessionsOwed(ms: seq<Move>, s: System) {
    && (forall t {:trigger s.threads[t]} :: t in s.threads ==> ThreadSettled(ms, s.threads[t]))
    && (forall k :: k in s.lib.handles && s.lib.handles[k].Sess? ==>
          Direct(ms, k, s.lib.handles[k].id) || exists t :: SessDebtor(s, t, k))
  }

  lemma SettledCons(ms: seq<Move>, e: Event, w: seq<Event>, outer: seq<Event>)
    requires Settled(ms, w, outer)
    requires forall k, x :: TakesSess(e, k, x) ==> Direct(ms, k, x) || Returned(w, outer, k)
    ensures Settled(ms, [e] + w, outer)
  {
    assert ([e] + w)[1..] == w;
  }

  lemma {:induction false} SettledLater(ms: seq<Move>, m: Move, w: seq<Event>, outer: seq<Event>)
    requires Settled(ms, w, outer)
    ensures Settled(ms + [m], w, outer)
  {
    assert (ms + [m])[..|ms|] == ms;
    if w != [] {
      SettledLater(ms, m, w[1..], outer);
    }
  }

  lemma {:induction false} SettledRefs(ms: seq<Move>, h: nat, refs: seq<Ref>, w: seq<Event>, outer: seq<Event>)
    requires Settled(ms, w, outer)
    ensures Settled(ms, Gets(h, refs) + w, outer) && Settled(ms, Puts(refs) + w, outer)
  {
    if refs == [] {
      assert Gets(h, refs) + w == w && Puts(refs) + w == w;
    } else {
      var e, f := GetBlock(h, refs[0].b, refs[0].k), PutBlock(refs[0].k);
      SettledRefs(ms, h, refs[1..], w, outer);
      SettledCons(ms, e, Gets(h, refs[1..]) + w, outer);
      Assoc([e], Gets(h, refs[1..]), w);
      SettledCons(ms, f, Puts(refs[1..]) + w, outer);
      Assoc([f], Puts(refs[1..]), w);
    }
  }

  lemma {:induction false} RefsTakeNone(h: nat, refs: seq<Ref>)
    ensures forall e, k :: e in Gets(h, refs) || e in Puts(refs) ==> !TakesSession(e, k)
  {
    if refs != [] {
      RefsTakeNone(h, refs[1..]);
    }
  }

  /** Calls that take no session, and those whose session the client keeps. */
  predicate NoSession(e: Event) {
    !e.AddSession? && !e.GetSession? && !e.RemoveSession?
  }

  lemma SettledPlain(ms: seq<Move>, e: Event, w: seq<Event>, outer: seq<Event>)
    requires NoSession(e) && Settled(ms, w, outer)
    ensures Settled(ms, [e] + w, outer)
  {
    SettledCons(ms, e, w, outer);
  }

  lemma ScriptSettled(ms: seq<Move>, t: nat, call: Call)
    ensures ThreadSettled(ms + [Enter(t, call)], Script(call))
  {
    var ns := ms + [Enter(t, call)];
    match call
    case Initialize(_, _, _) =>
    case Finalize(_, _, _) =>
    case Plain(_, _, _) =>
    case OpenSession(_, _, h, x, k) =>
      assert Direct(ns, k, x);
      SettledCons(ns, AddSession(h, x, k), [], []);
      NothingBehind([AddSession(h, x, k)]);
    case CloseSession(_, _, h, x, k) =>
      assert Direct(ns, k, x);
      SettledCons(ns, RemoveSession(h, x, k), [], []);
      NothingBehind([RemoveSession(h, x, k)]);
    case RegisterMemory(_, _, h, b, k) => TwoSettled(ns, RegisterBlock(h, b, k), PutBlock(k));
    case AllocateMemory(_, _, h, b, k, slot) =>
      TwoSettled(ns, PublishBlock(b, k), PutBlock(k));
      SettledPlain(ns, ReserveSlot(h, b, slot), [PublishBlock(b, k), PutBlock(k)], []);
      assert [ReserveSlot(h, b, slot)] + [PublishBlock(b, k), PutBlock(k)] == [ReserveSlot(h, b, slot), PublishBlock(b, k), PutBlock(k)];
    case AllocateFails(_, _, h, b, slot) => TwoSettled(ns, ReserveSlot(h, b, slot), AbandonSlot(b));
    case ReleaseMemory(_, _, h, b, k) => TwoSettled(ns, RemoveBlock(h, b, k), PutBlock(k));
    case ServeOpen(_, _, h, x, k, refs) => ServeOpenSettled(ns, h, x, k, refs);
    case ServeRefused(_, _, h, refs) =>
      SettledRefs(ns, h, refs, [], []);
      NothingBehind(Puts(refs));
      SettledRefs(ns, h, refs, Puts(refs), []);
    case ServeInvoke(_, _, h, x, k, refs) => ServeInvokeSettled(ns, h, x, k, refs);
    case ServeClose(_, _, h, x, k) =>
      SettledPlain(ns, PutSession(k), [], []);
      NothingBehind([PutSession(k)]);
      assert PutSession(k) in [PutSession(k)] + [];
      SettledCons(ns, RemoveSession(h, x, k), [PutSession(k)], []);
      assert [RemoveSession(h, x, k)] + [PutSession(k)] == [RemoveSession(h, x, k), PutSession(k)];
  }

  lemma TwoSettled(ms: seq<Move>, e: Event, f: Event)
    requires NoSession(e) && NoSession(f)
    ensures Settled(ms, [e, f], [])
  {
    SettledPlain(ms, f, [], []);
    NothingBehind([f]);
    SettledPlain(ms, e, [f], []);
    assert [e] + [f] == [e, f];
  }

  lemma ServeOpenSettled(ms: seq<Move>, h: nat, x: nat, k: nat, refs: seq<Ref>)
    ensures Settled(ms, Gets(h, refs) + ([AddSession(h, x, k)] + Puts(refs)), [PutSession(k)])
  {
    var outer := [PutSession(k)];
    SettledRefs(ms, h, refs, [], outer);
    NothingBehind(Puts(refs));
    RefsTakeNone(h, refs);
    assert outer[0] in Puts(refs) + outer;
    SettledCons(ms, AddSession(h, x, k), Puts(refs), outer);
    SettledRefs(ms, h, refs, [AddSession(h, x, k)] + Puts(refs), outer);
  }

  lemma ServeInvokeSettled(ms: seq<Move>, h: nat, x: nat, k: nat, refs: seq<Ref>)
    ensures Settled(ms, [GetSession(h, x, k)] + (Gets(h, refs) + (Puts(refs) + [PutSession(k)])), [])
  {
    var last := [PutSession(k)];
    SettledPlain(ms, PutSession(k), [], []);
    NothingBehind(last);
    SettledRefs(ms, h, refs, last, []);
    SettledRefs(ms, h, refs, Puts(refs) + last, []);
    RefsTakeNone(h, refs);
    var w := Gets(h, refs) + (Puts(refs) + last);
    assert last[0] in w + [];
    SettledCons(ms, GetSession(h, x, k), w, []);
  }

  // ---------------------------------------------------------------- in every run

  lemma DirectLater(ms: seq<Move>, m: Move, k: nat, x: nat)
    requires Direct(ms, k, x)
    ensures Direct(ms + [m], k, x)
  {
    assert (ms + [m])[..|ms|] == ms;
  }

  lemma ThreadSettledLater(ms: seq<Move>, m: Move, th: Thread)
    requires ThreadSettled(ms, th)
    ensures ThreadSettled(ms + [m], th)
  {
    match th
    case Entering(_, inner, outer) => SettledLater(ms, m, inner, outer);
    case Inside(_, inner, outer) => SettledLater(ms, m, inner, outer);
    case Outside(_) =>
  }

  lemma AdvanceSettled(ms: seq<Move>, s: State, th: Thread)
    requires !IsDone(th) && ThreadSettled(ms, th)
    ensures ThreadSettled(ms, Advance(s, th))
  {
    if th.Inside? && th.inner != [] {
      var b := if th.inner[0].PutBlock? && th.inner[0].h in s.handles then s.handles[th.inner[0].h].id else 0;
      SettledPlain(ms, ReleaseSlot(b), th.inner[1..], th.outer);
    }
  }

  lemma ReturnedTail(w: seq<Event>, outer: seq<Event>, k: nat)
    requires w != [] && Returned(w, outer, k) && w[0] != PutSession(k)
    ensures Returned(w[1..], outer, k)
  {
    assert w + outer == [w[0]] + (w[1..] + outer);
    assert forall e :: e in w[1..] ==> e in w;
  }

  lemma ReturnedRelease(b: nat, w: seq<Event>, outer: seq<Event>, k: nat)
    requires Returned(w, outer, k)
    ensures Returned([ReleaseSlot(b)] + w, outer, k)
  {
    assert [ReleaseSlot(b)] + w + outer == [ReleaseSlot(b)] + (w + outer);
  }

  /** A put that is still to come stays so until it is made. */
  lemma StillOwing(s: State, th: Thread, k: nat)
    requires !IsDone(th) && Owing(th, k) && NextEvent(th) != PutSession(k)
    ensures Owing(Advance(s, th), k)
  {
    match th
    case Inside(h, inner, outer) =>
      if inner == [] {
        assert inner + outer == outer;
      } else {
        var b := if inner[0].PutBlock? && inner[0].h in s.handles then s.handles[inner[0].h].id else 0;
        ReturnedTail(inner, outer, k);
        ReturnedRelease(b, inner[1..], outer, k);
      }
    case Outside(outer) =>
      assert outer == [outer[0]] + outer[1..];
  }

  /** A session reference just taken is to be put, or the client keeps it. */
  lemma NewlyOwing(ms: seq<Move>, s: State, th: Thread, k: nat, x: nat)
    requires th.Inside? && th.inner != [] && TakesSess(th.inner[0], k, x) && ThreadSettled(ms, th)
    ensures Direct(ms, k, x) || Owing(Advance(s, th), k)
  {
  }

  lemma SourceOfSession(s: State, e: Event, k: nat)
    requires Enabled(s, e) && k in Next(s, e).handles && Next(s, e).handles[k].Sess?
    ensures var o := Next(s, e).handles[k];
      || (k in s.handles && s.handles[k] == o && e != PutSession(k))
      || TakesSess(e, k, o.id)
  {
    HandleStep(s, e, k);
  }

  lemma OwedAfterGo(ms: seq<Move>, s: System, t: nat, k: nat)
    requires SysInv(s) && CanMove(s, Go(t)) && SessionsOwed(ms, s)
    requires k in Moved(s, Go(t)).lib.handles && Moved(s, Go(t)).lib.handles[k].Sess?
    ensures Direct(ms, k, Moved(s, Go(t)).lib.handles[k].id) || exists u :: SessDebtor(Moved(s, Go(t)), u, k)
  {
    var th, e, s' := s.threads[t], NextEvent(s.threads[t]), Moved(s, Go(t));
    SourceOfSession(s.lib, e, k);
    if TakesSess(e, k, s'.lib.handles[k].id) {
      StepKind(s, t);
      NewlyOwing(ms, s.lib, th, k, s'.lib.handles[k].id);
      assert Direct(ms, k, s'.lib.handles[k].id) || SessDebtor(s', t, k);
    } else if !Direct(ms, k, s'.lib.handles[k].id) {
      var u :| SessDebtor(s, u, k);
      if u == t {
        StillOwing(s.lib, th, k);
      }
      assert SessDebtor(s', u, k);
    }
  }

  lemma OwedAfterTeardown(ms: seq<Move>, s: System, e: Event, k: nat)
    requires SysInv(s) && CanMove(s, Teardown(e)) && SessionsOwed(ms, s)
    requires k in Moved(s, Teardown(e)).lib.handles && Moved(s, Teardown(e)).lib.handles[k].Sess?
    ensures Direct(ms, k, Moved(s, Teardown(e)).lib.handles[k].id) || exists u :: SessDebtor(Moved(s, Teardown(e)), u, k)
  {
    SourceOfSession(s.lib, e, k);
    assert k in s.lib.handles && s.lib.handles[k].Sess?;
    if !Direct(ms, k, s.lib.handles[k].id) {
      var u :| SessDebtor(s, u, k);
      assert SessDebtor(Moved(s, Teardown(e)), u, k);
    }
  }

  lemma OwedAfterEnter(ms: seq<Move>, s: System, t: nat, call: Call, k: nat)
    requires SysInv(s) && CanMove(s, Enter(t, call)) && SessionsOwed(ms, s)
    requires k in s.lib.handles && s.lib.handles[k].Sess?
    ensures Direct(ms, k, s.lib.handles[k].id) || exists u :: SessDebtor(Moved(s, Enter(t, call)), u, k)
  {
    if !Direct(ms, k, s.lib.handles[k].id) {
      var u :| SessDebtor(s, u, k);
      assert u != t;
      assert SessDebtor(Moved(s, Enter(t, call)), u, k);
    }
  }

  lemma ThreadsAfter(ms: seq<Move>, s: System, m: Move, u: nat)
    requires SysInv(s) && CanMove(s, m) && SessionsOwed(ms, s) && u in Moved(s, m).threads
    ensures ThreadSettled(ms + [m], Moved(s, m).threads[u])
  {
    if m.Enter? && u == m.t {
      ScriptSettled(ms, m.t, m.call);
    } else if m.Go? && u == m.t {
      AdvanceSettled(ms, s.lib, s.threads[u]);
      ThreadSettledLater(ms, m, Advance(s.lib, s.threads[u]));
    } else {
      ThreadSettledLater(ms, m, s.threads[u]);
    }
  }

  lemma StepOwed(ms: seq<Move>, s: System, m: Move)
    requires SysInv(s) && CanMove(s, m) && SessionsOwed(ms, s)
    ensures SessionsOwed(ms + [m], Moved(s, m))
  {
    var s' := Moved(s, m);
    forall u | u in s'.threads
      ensures ThreadSettled(ms + [m], s'.threads[u])
    {
      ThreadsAfter(ms, s, m, u);
    }
    forall k | k in s'.lib.handles && s'.lib.handles[k].Sess?
      ensures Direct(ms + [m], k, s'.lib.handles[k].id) || exists u :: SessDebtor(s', u, k)
    {
      match m {
        case Enter(t, call) => OwedAfterEnter(ms, s, t, call, k);
        case Go(t) => OwedAfterGo(ms, s, t, k);
        case Teardown(e) => OwedAfterTeardown(ms, s, e, k);
      }
      if Direct(ms, k, s'.lib.handles[k].id) {
        DirectLater(ms, m, k, s'.lib.handles[k].id);
      }
    }
  }

  lemma {:induction false} SessionsAreOwed(ms: seq<Move>)
    requires Play(ms).Some?
    ensures SessionsOwed(ms, Play(ms).value)
  {
    if ms != [] {
      var n := |ms| - 1;
      SessionsAreOwed(ms[..n]);
      StepOwed(ms[..n], Play(ms[..n]).value, ms[n]);
      SplitLast(ms);
    }
  }

  // ---------------------------------------------------------------- at rest

  /** Every call that was entered has come to its end. */
  predicate AtRest(s: System) {
    forall t :: t in s.threads ==> IsDone(s.threads[t])
  }

  lemma NobodyOwes(ms: seq<Move>)
    requires Play(ms).Some? && AtRest(Play(ms).value)
    ensures forall k :: k in Play(ms).value.lib.handles ==>
      Play(ms).value.lib.handles[k].Sess? && Direct(ms, k, Play(ms).value.lib.handles[k].id)
    ensures forall b :: !InTransit(Play(ms).value.lib, Block(b))
  {
    var s := Play(ms).value;
    SessionsAreOwed(ms);
    assert forall t, k :: !Holder(s, t, k) && !Debtor(s, t, k) && !Mover(s, t, k) && !SessDebtor(s, t, k);
    forall k | k in s.lib.handles
      ensures s.lib.handles[k].Sess?
    {
      assert s.lib.handles[k].Ctx? ==> HoldsContext(s.lib, k);
    }
    forall b
      ensures !InTransit(s.lib, Block(b))
    {
    }
  }

  /** When every call has come to its end, a listed block has the list's one reference, and an unlisted one has ended,
      once. The same of a session, but for one reference for each of the handles that clients of the library itself
      keep on it: none if it was opened and closed through the daemon. */
  lemma CountsAtRest(ms: seq<Move>, o: Obj)
    requires Play(ms).Some? && AtRest(Play(ms).value) && o in Play(ms).value.lib.objects && !o.Ctx?
    ensures var s := Play(ms).value.lib;
      var kept := On(s.handles, o);
      && (forall k :: k in kept ==> o.Sess? && Direct(ms, k, o.id))
      && s.objects[o].ops == |kept| + (if o in s.listed then 1 else 0)
      && (o !in s.listed && kept == {} ==> s.objects[o].ended == 1)
      && ((forall k :: o.Block? || !Direct(ms, k, o.id)) ==>
            if o in s.listed then s.objects[o].ops == 1 && s.objects[o].phase.Live?
            else s.objects[o].ops == 0 && s.objects[o].ended == 1)
  {
    var s := Play(ms).value.lib;
    NobodyOwes(ms);
    assert ObjOk(s, o);
    if forall k :: o.Block? || !Direct(ms, k, o.id) {
      assert On(s.handles, o) == {};
    }
  }

  /** A session or block that has ended did so because a call that takes it away was entered or a teardown came to it,
      or it is a block whose allocation failed, which was never listed. */
  lemma EndsAreAsked(ms: seq<Move>, o: Obj)
    requires Play(ms).Some? && o in Play(ms).value.lib.objects && Play(ms).value.lib.objects[o].ended == 1
    ensures Asked(ms, o, Unlists) || (o.Block? && !EverCreated(EventsOf(ms), o))
    ensures EverCreated(EventsOf(ms), o) ==> Asked(ms, o, Lists)
  {
    UnlistedWasRemoved(ms, o);
    NothingUnasked(ms, o, Unlists);
    NothingUnasked(ms, o, Lists);
  }

  lemma UnlistedWasRemoved(ms: seq<Move>, o: Obj)
    requires Play(ms).Some? && o in Play(ms).value.lib.objects && Play(ms).value.lib.objects[o].ended == 1
    ensures Ever(EventsOf(ms), o, Unlists) || (o.Block? && !EverCreated(EventsOf(ms), o))
  {
    var es, s := EventsOf(ms), Play(ms).value.lib;
    PlayIsRun(ms, 0);
    EndedIsUnlisted(s, o);
    ListedExactly(es, o);
    if !o.Block? {
      KnownIsCreated(es, o);
    }
  }

  lemma EndedIsUnlisted(s: State, o: Obj)
    requires Inv(s) && o in s.objects && s.objects[o].ended == 1
    ensures o !in s.listed
  {
    assert ObjOk(s, o);
  }

  /** Contexts and sessions exist only once they were created. */
  lemma {:induction false} KnownIsCreated(es: seq<Event>, o: Obj)
    requires Exec(es).Some? && !o.Block? && o in Exec(es).value.objects
    ensures EverCreated(es, o)
  {
    if es != [] {
      var n := |es| - 1;
      var s := Exec(es[..n]).value;
      if o in s.objects {
        KnownIsCreated(es[..n], o);
      } else {
        BornIsCreated(s, es[n], o);
      }
    }
  }

  lemma BornIsCreated(s: State, e: Event, o: Obj)
    requires Inv(s) && Enabled(s, e) && !o.Block? && o !in s.objects && o in Next(s, e).objects
    ensures Creates(e, o)
  {
    StepFindsLive(s, e);
    if OfContext(e) || OfSession(e) {
      NotBlockBorn(s, e, o);
    } else {
      BlockBorn(s, e, o);
    }
  }

  // ---------------------------------------------------------------- a run

  lemma PlayMore(ms: seq<Move>, s: System, m: Move)
    requires Play(ms) == Some(s) && CanMove(s, m)
    ensures Play(ms + [m]) == Some(Moved(s, m))
  {
    assert (ms + [m])[..|ms|] == ms;
  }

  function OneThread(lib: State, th: Thread): System {
    System(lib, map[0 := th])
  }

  lemma ThreadSet(lib: State, th: Thread, lib': State, th': Thread)
    ensures System(lib', OneThread(lib, th).threads[0 := th']) == OneThread(lib', th')
  {
  }

  /** The thread makes its next step. */
  lemma GoOn(ms: seq<Move>, lib: State, th: Thread, lib': State, th': Thread)
    requires Play(ms) == Some(OneThread(lib, th)) && !IsDone(th)
    requires Witnesses.Leads(lib, NextEvent(th), lib') && th' == Advance(lib, th)
    ensures Play(ms + [Go(0)]) == Some(OneThread(lib', th'))
  {
    PlayMore(ms, OneThread(lib, th), Go(0));
    ThreadSet(lib, th, lib', th');
  }

  lemma EnterNext(ms: seq<Move>, lib: State, call: Call)
    requires Play(ms) == Some(OneThread(lib, Outside([]))) && Named(call)
    ensures Play(ms + [Enter(0, call)]) == Some(OneThread(lib, Script(call)))
  {
    PlayMore(ms, OneThread(lib, Outside([])), Enter(0, call));
    ThreadSet(lib, Outside([]), lib, Script(call));
  }

  const C := Ctx(0)
  const X := Sess(7)
  const ONE := Info(0, Live, 1, 0)
  const TWO := Info(0, Live, 2, 0)

  const STARTED: seq<Move> := [] + [Enter(0, Initialize(0, 3, 0))] + [Go(0)] + [Go(0)]
  const SERVED: seq<Move> := STARTED + [Enter(0, ServeOpen(3, 0, 1, 7, 2, []))] + [Go(0)] + [Go(0)] + [Go(0)] + [Go(0)]

  function Started(c: Info, handles: map<nat, Obj>): State {
    Witnesses.Alone(c, handles)
  }

  function Served(c: Info, x: Info, handles: map<nat, Obj>): State {
    Witnesses.World(c, X, x, {C, X}, handles)
  }

  lemma InitializeTakes(ms: seq<Move>)
    requires Play(ms) == Some(OneThread(EMPTY, Script(Initialize(0, 3, 0))))
    ensures Play(ms + [Go(0)]) == Some(OneThread(Started(TWO, map[0 := C]), Inside(0, [], [])))
  {
    Witnesses.ServedSteps();
    GoOn(ms, EMPTY, Script(Initialize(0, 3, 0)), Started(TWO, map[0 := C]), Inside(0, [], []));
  }

  lemma InitializePuts(ms: seq<Move>)
    requires Play(ms) == Some(OneThread(Started(TWO, map[0 := C]), Inside(0, [], [])))
    ensures Play(ms + [Go(0)]) == Some(OneThread(Started(ONE, map[]), Outside([])))
  {
    Witnesses.ServedSteps();
    GoOn(ms, Started(TWO, map[0 := C]), Inside(0, [], []), Started(ONE, map[]), Outside([]));
  }

  /** A client initializes a context: at rest it is listed, and counted for the list alone. */
  lemma StartedPlays()
    ensures Play(STARTED) == Some(OneThread(Started(ONE, map[]), Outside([])))
  {
    var call := Initialize(0, 3, 0);
    var ms: seq<Move> := [] + [Enter(0, call)];
    PlayMore([], System(EMPTY, map[]), Enter(0, call));
    assert map[][0 := Script(call)] == map[0 := Script(call)];
    InitializeTakes(ms);
    InitializePuts(ms + [Go(0)]);
  }

  lemma ServeTakes(ms: seq<Move>, inner: seq<Event>, outer: seq<Event>)
    requires Play(ms) == Some(OneThread(Started(ONE, map[]), Entering(GetContext(3, 0, 1), inner, outer)))
    ensures Play(ms + [Go(0)]) == Some(OneThread(Started(TWO, map[1 := C]), Inside(1, inner, outer)))
  {
    Witnesses.ServedSteps();
    GoOn(ms, Started(ONE, map[]), Entering(GetContext(3, 0, 1), inner, outer), Started(TWO, map[1 := C]), Inside(1, inner, outer));
  }

  lemma ServeAdds(ms: seq<Move>, outer: seq<Event>)
    requires Play(ms) == Some(OneThread(Started(TWO, map[1 := C]), Inside(1, [AddSession(1, 7, 2)], outer)))
    ensures Play(ms + [Go(0)]) == Some(OneThread(Served(TWO, TWO, map[1 := C, 2 := X]), Inside(1, [], outer)))
  {
    Witnesses.SessionAdded();
    AdvanceAdd(Started(TWO, map[1 := C]), outer);
    GoOn(ms, Started(TWO, map[1 := C]), Inside(1, [AddSession(1, 7, 2)], outer), Served(TWO, TWO, map[1 := C, 2 := X]), Inside(1, [], outer));
  }

  lemma AdvanceAdd(s: State, outer: seq<Event>)
    ensures Advance(s, Inside(1, [AddSession(1, 7, 2)], outer)) == Inside(1, [], outer)
  {
    assert [AddSession(1, 7, 2)][1..] == [];
  }

  lemma ServePutsContext(ms: seq<Move>, outer: seq<Event>)
    requires Play(ms) == Some(OneThread(Served(TWO, TWO, map[1 := C, 2 := X]), Inside(1, [], outer)))
    ensures Play(ms + [Go(0)]) == Some(OneThread(Served(ONE, TWO, map[2 := X]), Outside(outer)))
  {
    Witnesses.OpenSteps();
    GoOn(ms, Served(TWO, TWO, map[1 := C, 2 := X]), Inside(1, [], outer), Served(ONE, TWO, map[2 := X]), Outside(outer));
  }

  lemma ServePutsSession(ms: seq<Move>)
    requires Play(ms) == Some(OneThread(Served(ONE, TWO, map[2 := X]), Outside([PutSession(2)])))
    ensures Play(ms + [Go(0)]) == Some(OneThread(Served(ONE, ONE, map[]), Outside([])))
  {
    Witnesses.OpenSteps();
    GoOn(ms, Served(ONE, TWO, map[2 := X]), Outside([PutSession(2)]), Served(ONE, ONE, map[]), Outside([]));
  }

  /** The daemon then opens a session in it: at rest both are listed, and counted for their lists alone. */
  lemma ServedPlays()
    ensures Play(SERVED) == Some(OneThread(Served(ONE, ONE, map[]), Outside([])))
  {
    StartedPlays();
    var call, outer := ServeOpen(3, 0, 1, 7, 2, []), [PutSession(2)];
    ServeOpenScript();
    EnterNext(STARTED, Started(ONE, map[]), call);
    var ms := STARTED + [Enter(0, call)];
    ServeTakes(ms, [AddSession(1, 7, 2)], outer);
    ServeAdds(ms + [Go(0)], outer);
    ServePutsContext(ms + [Go(0)] + [Go(0)], outer);
    ServePutsSession(ms + [Go(0)] + [Go(0)] + [Go(0)]);
  }

  lemma ServeOpenScript()
    ensures Script(ServeOpen(3, 0, 1, 7, 2, [])) == Entering(GetContext(3, 0, 1), [AddSession(1, 7, 2)], [PutSession(2)])
  {
    assert [] + ([AddSession(1, 7, 2)] + []) == [AddSession(1, 7, 2)];
  }
}
