/**
 * Reordering a task within its bucket after a drag (`handleDragEnd`), with
 * `arrayMove` from the drag-and-drop library written out as a sequence
 * function.
 */
module Reorder {
  import opened Wrappers
  import opened Tasks

  /** `list.indexOf(x)`: the first index holding `x` (strict equality), or -1. */
  function IndexOf(list: seq<string>, x: string): (i: int)
    ensures -1 <= i < |list|
    ensures i == -1 <==> x !in list
    ensures 0 <= i ==> list[i] == x && x !in list[..i]
  {
    if |list| == 0 then -1
    else if list[0] == x then 0
    else
      var j := IndexOf(list[1..], x);
      if j == -1 then -1 else j + 1
  }

  /** The sequence without its element at index `i`. */
  function RemoveAt<T>(s: seq<T>, i: nat): (r: seq<T>)
    requires i < |s|
    ensures |r| == |s| - 1
  {
    s[..i] + s[i + 1..]
  }

  /** Inserting an element adds it to the multiset. */
  lemma MultisetInsert<T>(s: seq<T>, i: nat, x: T)
    requires i <= |s|
    ensures multiset(s[..i] + [x] + s[i..]) == multiset(s) + multiset{x}
  {
    assert s[..i] + s[i..] == s;
  }

  /** Removing an element takes it out of the multiset. */
  lemma MultisetRemove<T>(s: seq<T>, i: nat)
    requires i < |s|
    ensures multiset(RemoveAt(s, i)) + multiset{s[i]} == multiset(s)
  {
    assert s == s[..i] + [s[i]] + s[i + 1..];
  }

  /**
   * `arrayMove(array, from, to)`: the element at `from` is taken out and put
   * back so that it sits at index `to`. The three facts below pin the result
   * down completely (see ArrayMoveUnique).
   */
  function ArrayMove<T>(s: seq<T>, from: nat, to: nat): (r: seq<T>)
    requires from < |s| && to < |s|
    ensures |r| == |s|
    ensures r[to] == s[from]
    ensures RemoveAt(r, to) == RemoveAt(s, from)
    ensures multiset(r) == multiset(s)
  {
    var rest := RemoveAt(s, from);
    var r := rest[..to] + [s[from]] + rest[to..];
    assert rest[..to] + rest[to..] == rest;
    assert RemoveAt(r, to) == rest by {
      assert r[..to] == rest[..to];
      assert r[to + 1..] == rest[to..];
    }
    MultisetInsert(rest, to, s[from]);
    MultisetRemove(s, from);
    r
  }

  /** Putting the removed element back where it was restores the sequence. */
  lemma InsertRemoved<T>(s: seq<T>, i: nat)
    requires i < |s|
    ensures RemoveAt(s, i)[..i] + [s[i]] + RemoveAt(s, i)[i..] == s
  {
    var rest := RemoveAt(s, i);
    assert rest[..i] == s[..i];
    assert rest[i..] == s[i + 1..];
  }

  /** Any sequence with the three properties of ArrayMove is its result. */
  lemma ArrayMoveUnique<T>(s: seq<T>, from: nat, to: nat, r: seq<T>)
    requires from < |s| && to < |s|
    requires |r| == |s| && r[to] == s[from] && RemoveAt(r, to) == RemoveAt(s, from)
    ensures r == ArrayMove(s, from, to)
  {
    InsertRemoved(r, to);
  }

  /** Moving an element onto its own index changes nothing. */
  lemma ArrayMoveInPlace<T>(s: seq<T>, i: nat)
    requires i < |s|
    ensures ArrayMove(s, i, i) == s
  {
    InsertRemoved(s, i);
  }

  /** Moving back from `to` to `from` undoes a move. */
  lemma ArrayMoveUndo<T>(s: seq<T>, from: nat, to: nat)
    requires from < |s| && to < |s|
    ensures ArrayMove(ArrayMove(s, from, to), to, from) == s
  {
    var r := ArrayMove(s, from, to);
    InsertRemoved(s, from);
    assert RemoveAt(r, to) == RemoveAt(s, from);
  }

  /**
   * Element by element: entries between the two indices shift by one towards
   * `from`, the moved entry lands on `to`, everything else stays put; so the
   * other entries keep their relative order.
   */
  lemma ArrayMoveAt<T>(s: seq<T>, from: nat, to: nat, k: nat)
    requires from < |s| && to < |s| && k < |s|
    ensures ArrayMove(s, from, to)[k] ==
      if k == to then s[from]
      else if from < to && from <= k < to then s[k + 1]
      else if to < from && to < k <= from then s[k - 1]
      else s[k]
  {
    var r := ArrayMove(s, from, to);
    var rest := RemoveAt(s, from);
    if k < to {
      assert r[k] == RemoveAt(r, to)[k];
    } else if k > to {
      assert r[k] == RemoveAt(r, to)[k - 1];
    }
  }

  /** Both drag ids occur in `list`. */
  predicate HoldsBoth(list: seq<string>, active: string, over: string)
  {
    active in list && over in list
  }

  /** The first bucket, in key order, that holds both ids. */
  function MatchingBucket(t: TaskSet, active: string, over: string): (p: Option<Priority>)
    ensures p.Some? ==> HoldsBoth(t.Get(p.value), active, over)
    ensures p.Some? ==> forall q :: Rank(q) < Rank(p.value) ==> !HoldsBoth(t.Get(q), active, over)
    ensures p.None? <==> forall q :: !HoldsBoth(t.Get(q), active, over)
  {
    if HoldsBoth(t.highPriority, active, over) then Some(High)
    else if HoldsBoth(t.mediumPriority, active, over) then Some(Medium)
    else if HoldsBoth(t.lowPriority, active, over) then Some(Low)
    else None
  }

  /**
   * What a drag ending with `active` dropped on `over` (None: no drop target)
   * does to the board.
   */
  function DragEnd(t: TaskSet, active: string, over: Option<string>): (r: TaskSet)
    // no target, or dropped on itself: nothing changes
    ensures over.None? || over.value == active ==> r == t
    // no bucket holds both ids: nothing changes
    ensures over.Some? && MatchingBucket(t, active, over.value).None? ==> r == t
    // otherwise only the first bucket holding both changes: it is a
    // permutation in which `active` now sits where `over` was first found,
    // and the other entries keep their relative order
    ensures over.Some? && over.value != active && MatchingBucket(t, active, over.value).Some? ==>
      var p := MatchingBucket(t, active, over.value).value;
      var list := t.Get(p);
      var oldIndex := IndexOf(list, active);
      var newIndex := IndexOf(list, over.value);
      && (forall q :: q != p ==> r.Get(q) == t.Get(q))
      && |r.Get(p)| == |list|
      && multiset(r.Get(p)) == multiset(list)
      && r.Get(p)[newIndex] == active
      && RemoveAt(r.Get(p), newIndex) == RemoveAt(list, oldIndex)
    // no bucket ever gains or loses an entry
    ensures forall q :: multiset(r.Get(q)) == multiset(t.Get(q))
  {
    if over.None? || active == over.value then t
    else match MatchingBucket(t, active, over.value)
      case None => t
      case Some(p) =>
        var list := t.Get(p);
        t.With(p, ArrayMove(list, IndexOf(list, active), IndexOf(list, over.value)))
  }

  /**
   * `handleDragEnd`: a shallow copy of the record, a scan over its keys in
   * order, and the first bucket that holds both ids rearranged by `arrayMove`.
   */
  method HandleDragEnd(response: TaskSet, active: string, over: Option<string>) returns (updated: TaskSet)
    ensures updated == DragEnd(response, active, over)
  {
    if over.None? || active == over.value {
      return response;
    }
    updated := response;
    var i := 0;
    while i < |Keys|
      invariant 0 <= i <= |Keys|
      invariant updated == response
      invariant forall j :: 0 <= j < i ==> !HoldsBoth(response.Get(Keys[j]), active, over.value)
    {
      var key := Keys[i];
      var list := updated.Get(key);
      var oldIndex := IndexOf(list, active);
      var newIndex := IndexOf(list, over.value);
      if oldIndex != -1 && newIndex != -1 {
        updated := updated.With(key, ArrayMove(list, oldIndex, newIndex));
        assert MatchingBucket(response, active, over.value) == Some(key) by {
          forall q | Rank(q) < Rank(key) ensures !HoldsBoth(response.Get(q), active, over.value) {
            assert Keys[Rank(q)] == q;
          }
        }
        break;
      }
      i := i + 1;
    }
    if i == |Keys| {
      assert MatchingBucket(response, active, over.value).None? by {
        forall q ensures !HoldsBoth(response.Get(q), active, over.value) {
          assert Keys[Rank(q)] == q;
        }
      }
    }
  }
}
