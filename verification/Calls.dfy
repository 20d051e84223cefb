/** The library's calls and the daemon's regular paths as sequences of Lifetime steps, any number of them at once, in
    any interleaving. */
module Calls {
  import opened Wrappers
  import opened Lifetime
  import opened Sequences

  // A reference on a block: the block and the handle it is taken with.
  datatype Ref = Ref(b: nat, k: nat)

  // What a call goes through, by how it ends. `h` is its context handle, `k` its handle on the session or block.
  datatype Call =
    | Initialize(c: nat, fd: int, h: nat)
    | Finalize(fd: int, c: nat, h: nat)
    | Plain(fd: int, c: nat, h: nat)          // InvokeCommand, RequestCancellation, and every refused call
    | OpenSession(fd: int, c: nat, h: nat, x: nat, k: nat)
    | CloseSession(fd: int, c: nat, h: nat, x: nat, k: nat)
    | RegisterMemory(fd: int, c: nat, h: nat, b: nat, k: nat)
    | AllocateMemory(fd: int, c: nat, h: nat, b: nat, k: nat, slot: nat)
    | AllocateFails(fd: int, c: nat, h: nat, b: nat, slot: nat)
    | ReleaseMemory(fd: int, c: nat, h: nat, b: nat, k: nat)
    | ServeOpen(fd: int, c: nat, h: nat, x: nat, k: nat, refs: seq<Ref>)      // the daemon's OpenSession
    | ServeRefused(fd: int, c: nat, h: nat, refs: seq<Ref>)                   // the same when the TEE opens no session
    | ServeInvoke(fd: int, c: nat, h: nat, x: nat, k: nat, refs: seq<Ref>)    // the daemon's InvokeCommand
    | ServeClose(fd: int, c: nat, h: nat, x: nat, k: nat)                     // the daemon's CloseSession

  // A thread: about to take its context, at work under handle `h`, or past the put of the context.
  datatype Thread =
    | Entering(take: Event, inner: seq<Event>, outer: seq<Event>)
    | Inside(h: nat, inner: seq<Event>, outer: seq<Event>)
    | Outside(outer: seq<Event>)

  /** GetTeecOptMem's references, and PutAllocShrMem's return of them. */
  function Gets(h: nat, refs: seq<Ref>): seq<Event> {
    if refs == [] then [] else [GetBlock(h, refs[0].b, refs[0].k)] + Gets(h, refs[1..])
  }

  function Puts(refs: seq<Ref>): seq<Event> {
    if refs == [] then [] else [PutBlock(refs[0].k)] + Puts(refs[1..])
  }

  function Script(call: Call): Thread {
    match call
    case Initialize(c, fd, h) => Entering(InitContext(c, fd, h), [], [])
    case Finalize(fd, c, h) => Entering(RemoveContext(fd, c, h), [], [])
    case Plain(fd, c, h) => Entering(GetContext(fd, c, h), [], [])
    case OpenSession(fd, c, h, x, k) => Entering(GetContext(fd, c, h), [AddSession(h, x, k)], [])
    case CloseSession(fd, c, h, x, k) => Entering(GetContext(fd, c, h), [RemoveSession(h, x, k)], [])
    case RegisterMemory(fd, c, h, b, k) => Entering(GetContext(fd, c, h), [RegisterBlock(h, b, k), PutBlock(k)], [])
    case AllocateMemory(fd, c, h, b, k, slot) =>
      Entering(GetContext(fd, c, h), [ReserveSlot(h, b, slot), PublishBlock(b, k), PutBlock(k)], [])
    case AllocateFails(fd, c, h, b, slot) => Entering(GetContext(fd, c, h), [ReserveSlot(h, b, slot), AbandonSlot(b)], [])
    case ReleaseMemory(fd, c, h, b, k) => Entering(GetContext(fd, c, h), [RemoveBlock(h, b, k), PutBlock(k)], [])
    case ServeOpen(fd, c, h, x, k, refs) =>
      Entering(GetContext(fd, c, h), Gets(h, refs) + ([AddSession(h, x, k)] + Puts(refs)), [PutSession(k)])
    case ServeRefused(fd, c, h, refs) => Entering(GetContext(fd, c, h), Gets(h, refs) + Puts(refs), [])
    case ServeInvoke(fd, c, h, x, k, refs) =>
      Entering(GetContext(fd, c, h), [GetSession(h, x, k)] + (Gets(h, refs) + (Puts(refs) + [PutSession(k)])), [])
    case ServeClose(fd, c, h, x, k) => Entering(GetContext(fd, c, h), [RemoveSession(h, x, k), PutSession(k)], [])
  }

  /** Handles are names: a call gives each of its block references one of its own. */
  predicate Named(call: Call) {
    call.ServeOpen? || call.ServeRefused? || call.ServeInvoke? ==> Apart(call.refs)
  }

  predicate Apart(refs: seq<Ref>) {
    forall i, j :: 0 <= i < j < |refs| ==> refs[i].k != refs[j].k
  }

  // ---------------------------------------------------------------- how a call is built

  predicate TakesBlock(e: Event, k: nat) {
    (e.RegisterBlock? || e.GetBlock? || e.RemoveBlock? || e.PublishBlock?) && e.h == k
  }

  /** A step on the way of block `b` onto its list or off its bit. */
  predicate MovesBlock(e: Event, b: nat) {
    (e.PublishBlock? || e.AbandonSlot? || e.ReleaseSlot?) && e.b == b
  }

  predicate IsInner(h: nat, e: Event) {
    match e
    case AddSession(u, _, _) => u == h
    case GetSession(u, _, _) => u == h
    case RemoveSession(u, _, _) => u == h
    case PutSession(_) => true
    case RegisterBlock(u, _, _) => u == h
    case ReserveSlot(u, _, _) => u == h
    case AbandonSlot(_) => true
    case PublishBlock(_, _) => true
    case GetBlock(u, _, _) => u == h
    case RemoveBlock(u, _, _) => u == h
    case PutBlock(_) => true
    case ReleaseSlot(_) => true
    case _ => false
  }

  /** What the first step asks of the others: a block handle taken is put later and not taken again, a put is the
      only one, a reserved slot is published or abandoned at once, and only then. */
  ghost predicate HeadOk(e: Event, rest: seq<Event>) {
    && (forall k :: TakesBlock(e, k) ==> PutBlock(k) in rest && NotTaken(rest, k))
    && (e.PutBlock? ==> e !in rest)
    && (if e.ReserveSlot? then rest != [] && !rest[0].ReleaseSlot? && MovesBlock(rest[0], e.b) else NoMove(rest))
  }

  predicate NotTaken(w: seq<Event>, k: nat) {
    forall e :: e in w ==> !TakesBlock(e, k)
  }

  /** The first step does not move a block. */
  predicate NoMove(w: seq<Event>) {
    w != [] ==> !(w[0].PublishBlock? || w[0].AbandonSlot? || w[0].ReleaseSlot?)
  }

  ghost predicate Orderly(h: nat, w: seq<Event>) {
    w != [] ==> IsInner(h, w[0]) && HeadOk(w[0], w[1..]) && Orderly(h, w[1..])
  }

  /** The steps have a put whose take lies behind. */
  predicate Owes(w: seq<Event>, k: nat) {
    w != [] && (w[0] == PutBlock(k) || (!TakesBlock(w[0], k) && Owes(w[1..], k)))
  }

  lemma {:induction false} OwedIsPut(w: seq<Event>, k: nat)
    requires Owes(w, k)
    ensures PutBlock(k) in w
  {
    if w[0] != PutBlock(k) {
      OwedIsPut(w[1..], k);
    }
  }

  lemma {:induction false} PutIsOwed(w: seq<Event>, k: nat)
    requires PutBlock(k) in w && NotTaken(w, k)
    ensures Owes(w, k)
  {
    if w[0] != PutBlock(k) {
      assert w == [w[0]] + w[1..];
      PutIsOwed(w[1..], k);
    }
  }

  /** What the rest of the steps owes: what all of them owed, without a put just made and with a take just made. */
  lemma OwesTail(h: nat, w: seq<Event>, k: nat)
    requires Orderly(h, w) && w != []
    ensures Owes(w[1..], k) <==> (Owes(w, k) && w[0] != PutBlock(k)) || TakesBlock(w[0], k)
  {
    if w[0] == PutBlock(k) && Owes(w[1..], k) {
      OwedIsPut(w[1..], k);
    }
    if TakesBlock(w[0], k) {
      PutIsOwed(w[1..], k);
    }
  }

  /** A step put in front that clears the bit of a block just put. */
  lemma OrderlyRelease(h: nat, w: seq<Event>, b: nat)
    requires Orderly(h, w) && NoMove(w)
    ensures Orderly(h, [ReleaseSlot(b)] + w)
    ensures forall k :: Owes([ReleaseSlot(b)] + w, k) <==> Owes(w, k)
  {
    var v := [ReleaseSlot(b)] + w;
    assert v[1..] == w;
  }

  // ---------------------------------------------------------------- the scripts are built so

  predicate Keys(refs: seq<Ref>, k: nat) {
    exists i :: 0 <= i < |refs| && refs[i].k == k
  }

  lemma Cons(h: nat, e: Event, w: seq<Event>)
    requires IsInner(h, e) && HeadOk(e, w) && Orderly(h, w)
    ensures Orderly(h, [e] + w)
    ensures forall k :: Owes([e] + w, k) <==> e == PutBlock(k) || (!TakesBlock(e, k) && Owes(w, k))
    ensures forall k :: PutBlock(k) in [e] + w <==> e == PutBlock(k) || PutBlock(k) in w
    ensures forall k :: NotTaken([e] + w, k) <==> !TakesBlock(e, k) && NotTaken(w, k)
  {
    assert ([e] + w)[1..] == w;
    forall k
      ensures NotTaken([e] + w, k) <==> !TakesBlock(e, k) && NotTaken(w, k)
    {
      assert e in [e] + w;
      assert forall f :: f in w ==> f in [e] + w;
    }
  }

  /** One step alone. */
  lemma Single(h: nat, e: Event)
    requires IsInner(h, e) && !e.ReserveSlot? && forall k :: !TakesBlock(e, k)
    ensures Orderly(h, [e]) && forall k :: Owes([e], k) <==> e == PutBlock(k)
  {
    Cons(h, e, []);
    assert [e] + [] == [e];
  }

  lemma Pair(h: nat, e: Event, f: Event)
    requires IsInner(h, e) && Orderly(h, [f]) && HeadOk(e, [f])
    ensures Orderly(h, [e, f])
    ensures forall k :: Owes([e, f], k) <==> e == PutBlock(k) || (!TakesBlock(e, k) && Owes([f], k))
  {
    Cons(h, e, [f]);
    assert [e] + [f] == [e, f];
  }

  /** `v` is `w` with the puts of `refs` before it. */
  ghost predicate PutsBefore(h: nat, refs: seq<Ref>, w: seq<Event>, v: seq<Event>) {
    && Orderly(h, v) && NoMove(v)
    && (forall k :: PutBlock(k) in v <==> Keys(refs, k) || PutBlock(k) in w)
    && (forall k :: NotTaken(v, k) <==> NotTaken(w, k))
    && (forall k :: Owes(v, k) ==> Keys(refs, k) || Owes(w, k))
  }

  lemma {:induction false} PutsOrderly(h: nat, refs: seq<Ref>, w: seq<Event>)
    requires Apart(refs) && Orderly(h, w) && NoMove(w) && forall k :: Keys(refs, k) ==> PutBlock(k) !in w
    ensures PutsBefore(h, refs, w, Puts(refs) + w)
  {
    if refs == [] {
      assert Puts(refs) + w == w;
    } else {
      KeysTail(refs);
      PutsOrderly(h, refs[1..], w);
      PutsCons(h, refs, w, Puts(refs[1..]) + w);
      Assoc([PutBlock(refs[0].k)], Puts(refs[1..]), w);
    }
  }

  lemma PutsCons(h: nat, refs: seq<Ref>, w: seq<Event>, v: seq<Event>)
    requires refs != [] && Apart(refs) && PutsBefore(h, refs[1..], w, v)
    requires forall k :: Keys(refs, k) ==> PutBlock(k) !in w
    ensures PutsBefore(h, refs, w, [PutBlock(refs[0].k)] + v)
  {
    KeysTail(refs);
    assert !Keys(refs[1..], refs[0].k);
    Cons(h, PutBlock(refs[0].k), v);
  }

  lemma KeysTail(refs: seq<Ref>)
    requires refs != []
    ensures forall k :: Keys(refs, k) <==> k == refs[0].k || Keys(refs[1..], k)
  {
    forall k
      ensures Keys(refs, k) <==> k == refs[0].k || Keys(refs[1..], k)
    {
      if Keys(refs, k) && k != refs[0].k {
        var i :| 0 <= i < |refs| && refs[i].k == k;
        assert refs[1..][i - 1].k == k;
      }
      if Keys(refs[1..], k) {
        var i :| 0 <= i < |refs[1..]| && refs[1..][i].k == k;
        assert refs[i + 1].k == k;
      }
      if k == refs[0].k {
        assert refs[0].k == k;
      }
    }
  }

  /** `v` is `w` with the gets of `refs` before it. */
  ghost predicate GetsBefore(h: nat, refs: seq<Ref>, w: seq<Event>, v: seq<Event>) {
    && Orderly(h, v) && NoMove(v)
    && (forall k :: PutBlock(k) in v <==> PutBlock(k) in w)
    && (forall k :: !Keys(refs, k) && NotTaken(w, k) ==> NotTaken(v, k))
    && (forall k :: Owes(v, k) ==> !Keys(refs, k) && Owes(w, k))
  }

  lemma {:induction false} GetsOrderly(h: nat, refs: seq<Ref>, w: seq<Event>)
    requires Apart(refs) && Orderly(h, w) && NoMove(w)
    requires forall k :: Keys(refs, k) ==> PutBlock(k) in w && NotTaken(w, k)
    ensures GetsBefore(h, refs, w, Gets(h, refs) + w)
  {
    if refs == [] {
      assert Gets(h, refs) + w == w;
    } else {
      KeysTail(refs);
      GetsOrderly(h, refs[1..], w);
      GetsCons(h, refs, w, Gets(h, refs[1..]) + w);
      Assoc([GetBlock(h, refs[0].b, refs[0].k)], Gets(h, refs[1..]), w);
    }
  }

  lemma GetsCons(h: nat, refs: seq<Ref>, w: seq<Event>, v: seq<Event>)
    requires refs != [] && Apart(refs) && GetsBefore(h, refs[1..], w, v)
    requires forall k :: Keys(refs, k) ==> PutBlock(k) in w && NotTaken(w, k)
    ensures GetsBefore(h, refs, w, [GetBlock(h, refs[0].b, refs[0].k)] + v)
  {
    KeysTail(refs);
    assert !Keys(refs[1..], refs[0].k);
    Cons(h, GetBlock(h, refs[0].b, refs[0].k), v);
  }

  predicate IsTake(e: Event) {
    e.InitContext? || e.GetContext? || e.RemoveContext?
  }

  /** The first part takes the context, the second is in order and owes nothing, the third touches sessions alone. */
  ghost predicate WellBuilt(th: Thread) {
    && th.Entering? && IsTake(th.take) && Orderly(th.take.h, th.inner) && NoMove(th.inner)
    && (forall k :: !Owes(th.inner, k)) && OuterOk(th.outer)
  }

  predicate OuterOk(outer: seq<Event>) {
    forall e :: e in outer ==> e.PutSession?
  }

  ghost predicate InnerOk(h: nat, w: seq<Event>) {
    Orderly(h, w) && NoMove(w) && forall k :: !Owes(w, k)
  }

  lemma PairOk(h: nat, e: Event, k: nat)
    requires IsInner(h, e) && TakesBlock(e, k) && !e.PublishBlock?
    ensures InnerOk(h, [e, PutBlock(k)])
  {
    Single(h, PutBlock(k));
    Pair(h, e, PutBlock(k));
  }

  lemma AllocateOk(h: nat, b: nat, k: nat, slot: nat)
    ensures InnerOk(h, [ReserveSlot(h, b, slot), PublishBlock(b, k), PutBlock(k)])
  {
    Single(h, PutBlock(k));
    Pair(h, PublishBlock(b, k), PutBlock(k));
    var w := [PublishBlock(b, k), PutBlock(k)];
    Cons(h, ReserveSlot(h, b, slot), w);
    assert [ReserveSlot(h, b, slot)] + w == [ReserveSlot(h, b, slot), PublishBlock(b, k), PutBlock(k)];
  }

  lemma AllocateFailsOk(h: nat, b: nat, slot: nat)
    ensures InnerOk(h, [ReserveSlot(h, b, slot), AbandonSlot(b)])
  {
    Single(h, AbandonSlot(b));
    Pair(h, ReserveSlot(h, b, slot), AbandonSlot(b));
  }

  lemma ServeOpenOk(h: nat, x: nat, k: nat, refs: seq<Ref>)
    requires Apart(refs)
    ensures InnerOk(h, Gets(h, refs) + ([AddSession(h, x, k)] + Puts(refs)))
  {
    PutsOrderly(h, refs, []);
    assert Puts(refs) + [] == Puts(refs);
    Cons(h, AddSession(h, x, k), Puts(refs));
    GetsOrderly(h, refs, [AddSession(h, x, k)] + Puts(refs));
  }

  lemma ServeRefusedOk(h: nat, refs: seq<Ref>)
    requires Apart(refs)
    ensures InnerOk(h, Gets(h, refs) + Puts(refs))
  {
    PutsOrderly(h, refs, []);
    assert Puts(refs) + [] == Puts(refs);
    GetsOrderly(h, refs, Puts(refs));
  }

  lemma ServeInvokeOk(h: nat, x: nat, k: nat, refs: seq<Ref>)
    requires Apart(refs)
    ensures InnerOk(h, [GetSession(h, x, k)] + (Gets(h, refs) + (Puts(refs) + [PutSession(k)])))
  {
    Single(h, PutSession(k));
    PutsOrderly(h, refs, [PutSession(k)]);
    GetsOrderly(h, refs, Puts(refs) + [PutSession(k)]);
    Cons(h, GetSession(h, x, k), Gets(h, refs) + (Puts(refs) + [PutSession(k)]));
  }

  /** Every call, however it ends, takes a context, puts every block it takes under it, and then puts it. */
  lemma ScriptsWellBuilt(call: Call)
    requires Named(call)
    ensures WellBuilt(Script(call))
  {
    match call
    case Initialize(_, _, _) =>
    case Finalize(_, _, _) =>
    case Plain(_, _, _) =>
    case OpenSession(_, _, h, x, k) => Single(h, AddSession(h, x, k));
    case CloseSession(_, _, h, x, k) => Single(h, RemoveSession(h, x, k));
    case RegisterMemory(_, _, h, b, k) => PairOk(h, RegisterBlock(h, b, k), k);
    case AllocateMemory(_, _, h, b, k, slot) => AllocateOk(h, b, k, slot);
    case AllocateFails(_, _, h, b, slot) => AllocateFailsOk(h, b, slot);
    case ReleaseMemory(_, _, h, b, k) => PairOk(h, RemoveBlock(h, b, k), k);
    case ServeOpen(_, _, h, x, k, refs) => ServeOpenOk(h, x, k, refs);
    case ServeRefused(_, _, h, refs) => ServeRefusedOk(h, refs);
    case ServeInvoke(_, _, h, x, k, refs) => ServeInvokeOk(h, x, k, refs);
    case ServeClose(_, _, h, x, k) =>
      Single(h, PutSession(k));
      Pair(h, RemoveSession(h, x, k), PutSession(k));
  }
}
