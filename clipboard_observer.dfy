/** The in-process publish/subscribe hub: a `ClipboardSubject` keeps a list of
    observers with set semantics and tells each of them, in the order they
    were attached, about a clipboard change. Observers are compared by
    identity (`O` is any type with equality); what an observer's `update` does
    is outside this model, so `Notify` returns the calls it makes. */
module ClipboardObservers {
  import opened ClipObjects

  /** One call `observer.update(userId, item)`. */
  datatype Update<O> = Update(observer: O, userId: int, item: ClipObject)

  predicate NoDuplicates<O(==)>(s: seq<O>) {
    forall i, j :: 0 <= i < j < |s| ==> s[i] != s[j]
  }

  /** The position of the first `x` in `s`. */
  function IndexOf<O(==)>(s: seq<O>, x: O): (i: nat)
    requires x in s
    ensures i < |s| && s[i] == x && x !in s[..i]
  {
    if s[0] == x then 0 else 1 + IndexOf(s[1..], x)
  }

  /** Python's `list.remove(x)`: drops the first `x`, if any. */
  function RemoveFirst<O(==)>(s: seq<O>, x: O): seq<O> {
    if s == [] then []
    else if s[0] == x then s[1..]
    else [s[0]] + RemoveFirst(s[1..], x)
  }

  /** The list after `attach(x)`. */
  function Attached<O(==)>(s: seq<O>, x: O): seq<O> {
    if x in s then s else s + [x]
  }

  /** The list after `detach(x)`. */
  function Detached<O(==)>(s: seq<O>, x: O): seq<O> {
    if x in s then RemoveFirst(s, x) else s
  }

  /** Removing the first `x` cuts the list at `x` and keeps both sides in order. */
  lemma {:induction false} RemoveFirstSplits<O>(s: seq<O>, x: O)
    requires x in s
    ensures RemoveFirst(s, x) == s[..IndexOf(s, x)] + s[IndexOf(s, x) + 1..]
  {
    if s[0] != x {
      RemoveFirstSplits(s[1..], x);
      assert s[1..][..IndexOf(s[1..], x)] == s[1..IndexOf(s, x)];
      assert [s[0]] + s[1..IndexOf(s, x)] == s[..IndexOf(s, x)];
    }
  }

  // ---------------------------------------------------------------------------
  // Properties of attach and detach

  /** Attaching appends a new observer at the end and leaves one already
      present where it is; no observer is listed twice afterwards. */
  lemma AttachedSpec<O>(s: seq<O>, x: O)
    requires NoDuplicates(s)
    ensures NoDuplicates(Attached(s, x))
    ensures x in s ==> Attached(s, x) == s
    ensures x !in s ==> Attached(s, x) == s + [x]
    ensures forall y :: y in Attached(s, x) <==> y in s || y == x
  {
  }

  /** Attaching twice is attaching once. */
  lemma AttachIdempotent<O>(s: seq<O>, x: O)
    ensures Attached(Attached(s, x), x) == Attached(s, x)
  {
  }

  /** Dropping one element of a duplicate-free list keeps it duplicate-free. */
  lemma DropAtNoDuplicates<O>(s: seq<O>, i: nat)
    requires NoDuplicates(s) && i < |s|
    ensures NoDuplicates(s[..i] + s[i + 1..])
  {
    var r := s[..i] + s[i + 1..];
    forall a, b | 0 <= a < b < |r| ensures r[a] != r[b] {
      var a', b' := if a < i then a else a + 1, if b < i then b else b + 1;
      assert r[a] == s[a'] && r[b] == s[b'];
    }
  }

  /** Dropping position `i` of a duplicate-free list drops exactly the value there. */
  lemma DropAtMembers<O>(s: seq<O>, i: nat)
    requires NoDuplicates(s) && i < |s|
    ensures forall y :: y in s[..i] + s[i + 1..] <==> y in s && y != s[i]
  {
    var r := s[..i] + s[i + 1..];
    forall y | y in r ensures y in s && y != s[i] {
      var k :| 0 <= k < |r| && r[k] == y;
      assert y == s[if k < i then k else k + 1];
    }
    forall y | y in s && y != s[i] ensures y in r {
      var k :| 0 <= k < |s| && s[k] == y;
      assert y == r[if k < i then k else k - 1];
    }
  }

  /** Detaching a present observer removes exactly it, keeps the others in
      their order, and leaves no duplicates; detaching an absent one changes
      nothing. */
  lemma DetachedSpec<O>(s: seq<O>, x: O)
    requires NoDuplicates(s)
    ensures x !in s ==> Detached(s, x) == s
    ensures x in s ==> Detached(s, x) == s[..IndexOf(s, x)] + s[IndexOf(s, x) + 1..]
    ensures NoDuplicates(Detached(s, x))
    ensures forall y :: y in Detached(s, x) <==> y in s && y != x
  {
    if x in s {
      RemoveFirstSplits(s, x);
      DropAtNoDuplicates(s, IndexOf(s, x));
      DropAtMembers(s, IndexOf(s, x));
    }
  }

  /** Detaching an observer just attached restores the list. */
  lemma DetachUndoesAttach<O>(s: seq<O>, x: O)
    requires x !in s
    ensures Detached(Attached(s, x), x) == s
  {
    var t := s + [x];
    assert t[..|s|] == s;
    assert IndexOf(t, x) == |s|;
    RemoveFirstSplits(t, x);
  }

  // ---------------------------------------------------------------------------
  // The subject

  class ClipboardSubject<O(==)> {
    var observers: seq<O>

    ghost predicate Valid()
      reads this
    {
      NoDuplicates(observers)
    }

    /** `ClipboardSubject()`: no observers yet. */
    constructor ()
      ensures Valid() && observers == []
    {
      observers := [];
    }

    /** `attach(observer)`: appends the observer unless it is already attached. */
    method Attach(observer: O)
      requires Valid()
      modifies this
      ensures Valid()
      ensures observers == Attached(old(observers), observer)
    {
      AttachedSpec(observers, observer);
      if observer !in observers {
        observers := observers + [observer];
      }
    }

    /** `detach(observer)`: removes the observer if it is attached. */
    method Detach(observer: O)
      requires Valid()
      modifies this
      ensures Valid()
      ensures observers == Detached(old(observers), observer)
    {
      DetachedSpec(observers, observer);
      if observer in observers {
        observers := RemoveFirst(observers, observer);
      }
    }

    /** `notify(userId, item)`: calls `update(userId, item)` on every attached
        observer, once each, in the order they were attached. */
    method Notify(userId: int, item: ClipObject) returns (calls: seq<Update<O>>)
      ensures |calls| == |observers|
      ensures forall i :: 0 <= i < |calls| ==> calls[i] == Update(observers[i], userId, item)
    {
      calls := [];
      for i := 0 to |observers|
        invariant |calls| == i
        invariant forall k :: 0 <= k < i ==> calls[k] == Update(observers[k], userId, item)
      {
        calls := calls + [Update(observers[i], userId, item)];
      }
    }
  }
}
