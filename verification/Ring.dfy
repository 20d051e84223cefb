/** The intrusive circular list every table of the library is kept on, refined to a sequence of its entries. */
module Ring {
  import opened Wrappers
  import opened Sequences

  class ListNode {
    var next: ListNode
    var prev: ListNode

    /** A node linked to itself: an empty list, or an entry on no list. */
    constructor ()
      ensures next == this && prev == this
    {
      next := this;
      prev := this;
    }
  }

  ghost predicate Distinct(s: seq<ListNode>) {
    forall i, j :: 0 <= i < j < |s| ==> s[i] != s[j]
  }

  /** Entry `i`, with the list itself on both sides of the entries. */
  ghost function At(list: ListNode, s: seq<ListNode>, i: int): ListNode {
    if 0 <= i < |s| then s[i] else list
  }

  ghost predicate Linked(list: ListNode, s: seq<ListNode>, i: int)
    reads list, s
  {
    At(list, s, i).next == At(list, s, i + 1) && At(list, s, i + 1).prev == At(list, s, i)
  }

  /** Following `next` from `list` meets exactly `s` before it is back at `list`, and `prev` is its inverse. */
  ghost predicate IsRing(list: ListNode, s: seq<ListNode>)
    reads list, s
  {
    && list !in s && Distinct(s)
    && forall i {:trigger Linked(list, s, i)} :: -1 <= i < |s| ==> Linked(list, s, i)
  }

  method ListInit(list: ListNode)
    modifies list
    ensures IsRing(list, [])
  {
    list.next := list;
    list.prev := list;
  }

  method ListInsertHead(list: ListNode, entry: ListNode, ghost s: seq<ListNode>)
    requires IsRing(list, s) && entry != list && entry !in s
    modifies list, entry, list.next
    ensures IsRing(list, [entry] + s)
  {
    assert Linked(list, s, -1);
    list.next.prev := entry;
    entry.next := list.next;
    entry.prev := list;
    list.next := entry;
    ghost var t := [entry] + s;
    forall i | -1 <= i < |t|
      ensures Linked(list, t, i)
    {
      assert i > -1 ==> old(Linked(list, s, i - 1));
    }
  }

  method ListInsertTail(list: ListNode, entry: ListNode, ghost s: seq<ListNode>)
    requires IsRing(list, s) && entry != list && entry !in s
    modifies list, entry, list.prev
    ensures IsRing(list, s + [entry])
  {
    assert Linked(list, s, |s| - 1);
    entry.next := list;
    entry.prev := list.prev;
    list.prev.next := entry;
    list.prev := entry;
    ghost var t := s + [entry];
    forall i | -1 <= i < |t|
      ensures Linked(list, t, i)
    {
      assert i < |s| ==> old(Linked(list, s, i));
    }
  }

  /** The entry is unlinked; its own pointers stay as they were. */
  method ListRemoveEntry(entry: ListNode, ghost list: ListNode, ghost s: seq<ListNode>, ghost k: nat)
    requires IsRing(list, s) && k < |s| && s[k] == entry
    modifies entry.prev, entry.next
    ensures IsRing(list, RemoveAt(s, k))
    ensures entry !in RemoveAt(s, k) && entry.next == old(entry.next) && entry.prev == old(entry.prev)
  {
    assert Linked(list, s, k - 1) && Linked(list, s, k);
    entry.prev.next := entry.next;
    entry.next.prev := entry.prev;
    ghost var t := RemoveAt(s, k);
    forall i | -1 <= i < |t|
      ensures Linked(list, t, i)
    {
      assert old(Linked(list, s, i)) && old(Linked(list, s, i + 1));
    }
  }

  method ListRemoveHead(list: ListNode, ghost s: seq<ListNode>) returns (entry: Option<ListNode>)
    requires IsRing(list, s)
    modifies list, list.next, list.next.next
    ensures entry == if s == [] then None else Some(s[0])
    ensures IsRing(list, if s == [] then s else s[1..])
  {
    assert Linked(list, s, -1);
    if list == list.next {
      return None;
    }
    entry := Some(list.next);
    assert Linked(list, s, -1) && Linked(list, s, 0);
    ListRemoveEntry(list.next, list, s, 0);
    assert RemoveAt(s, 0) == s[1..];
  }

  method ListRemoveTail(list: ListNode, ghost s: seq<ListNode>) returns (entry: Option<ListNode>)
    requires IsRing(list, s)
    modifies list, list.prev, list.prev.prev
    ensures entry == if s == [] then None else Some(s[|s| - 1])
    ensures IsRing(list, if s == [] then s else s[..|s| - 1])
  {
    assert Linked(list, s, -1);
    if list == list.next {
      return None;
    }
    entry := Some(list.prev);
    assert Linked(list, s, -1) && Linked(list, s, |s| - 1) && Linked(list, s, |s| - 2);
    ListRemoveEntry(list.prev, list, s, |s| - 1);
    assert RemoveAt(s, |s| - 1) == s[..|s| - 1];
  }

  /** LIST_FOR_EACH with a test that stops: walks the entries in order up to the one looked for. */
  method Contains(list: ListNode, wanted: ListNode, ghost s: seq<ListNode>) returns (found: bool, ghost k: nat)
    requires IsRing(list, s)
    ensures found <==> wanted in s
    ensures found ==> k < |s| && s[k] == wanted
  {
    assert Linked(list, s, -1);
    var pos := list.next;
    k := 0;
    while pos != list
      invariant 0 <= k <= |s| && wanted !in s[..k] && pos == At(list, s, k)
      decreases |s| - k
    {
      assert Linked(list, s, k);
      if pos == wanted {
        return true, k;
      }
      pos := pos.next;
      k := k + 1;
    }
    return false, 0;
  }

  /** LIST_FOR_EACH_SAFE whose body unlinks the current entry, as context teardown does: every entry is visited
      once, in order, and the list ends empty. */
  method RemoveAll(list: ListNode, ghost s: seq<ListNode>) returns (visited: seq<ListNode>)
    requires IsRing(list, s)
    modifies list, s
    ensures visited == s && IsRing(list, [])
  {
    visited := [];
    assert Linked(list, s, -1);
    var pos := list.next;
    var n := pos.next;
    ghost var i := 0;
    while pos != list
      invariant 0 <= i <= |s| && visited == s[..i]
      invariant IsRing(list, s[i..])
      invariant pos == At(list, s, i) && n == pos.next
      decreases |s| - i
    {
      ghost var t := s[i..];
      assert Linked(list, t, -1) && Linked(list, t, 0);
      ListRemoveEntry(pos, list, t, 0);
      assert RemoveAt(t, 0) == s[i + 1..];
      visited := visited + [pos];
      pos := n;
      n := pos.next;
      i := i + 1;
    }
    assert s[i..] == [];
  }

  /** `s` without `x`. */
  ghost function Minus(s: seq<ListNode>, x: ListNode): (r: seq<ListNode>)
    ensures x !in r && forall y :: y in r ==> y in s
    ensures x !in s ==> r == s
    ensures Distinct(s) ==> Distinct(r)
  {
    if s == [] then []
    else
      var r := Minus(s[..|s| - 1], x);
      if s[|s| - 1] == x then r
      else
        assert Distinct(s) ==> Distinct(s[..|s| - 1]) && s[|s| - 1] !in s[..|s| - 1];
        r + [s[|s| - 1]]
  }

  lemma {:induction false} MinusAt(s: seq<ListNode>, k: nat)
    requires k < |s| && Distinct(s)
    ensures Minus(s, s[k]) == RemoveAt(s, k)
  {
    var n := |s| - 1;
    if k < n {
      MinusAt(s[..n], k);
      SplitLast(s);
      RemoveBefore(s[..n], [s[n]], k);
    } else {
      assert s[n] !in s[..n];
    }
  }

  /** AddSessionList: whether or not the session was still listed, afterwards it is listed once, at the end. */
  method AddSessionList(list: ListNode, session: ListNode, ghost s: seq<ListNode>)
    requires IsRing(list, s) && session != list
    modifies list, s, session
    ensures IsRing(list, Minus(s, session) + [session])
  {
    ghost var t := s;
    assert Linked(list, s, -1);
    var pos := list.next;
    var n := pos.next;
    ghost var k := 0;
    while pos != list
      invariant IsRing(list, t) && 0 <= k <= |t|
      invariant forall x :: x in t ==> x in s
      invariant t == s || (session in s && t == Minus(s, session))
      invariant session !in t[..k]
      invariant pos == At(list, t, k) && n == pos.next
      decreases |t| - k
    {
      assert Linked(list, t, k) && Linked(list, t, k - 1);
      if pos == session {
        ListRemoveEntry(pos, list, t, k);
        MinusAt(t, k);
        t := RemoveAt(t, k);
      } else {
        k := k + 1;
      }
      pos := n;
      n := pos.next;
    }
    assert session !in t by {
      assert t[..k] == t;
    }
    ListInit(session);
    assert Linked(list, t, |t| - 1);
    ListInsertTail(list, session, t);
  }
}
