/** The bounded set of ids already handled, and the window of deliveries it deduplicates. */
module SeenIds {
  import opened Base

  /** The last `cap` entries; nothing for a capacity of zero or less. */
  function LastCap<T>(s: seq<T>, cap: int): seq<T> {
    if cap <= 0 then [] else if |s| <= cap then s else s[|s| - cap..]
  }

  ghost predicate Distinct<T>(s: seq<T>) {
    forall i, j :: 0 <= i < j < |s| ==> s[i] != s[j]
  }

  // ----- a run of deliveries -----

  /** Every id accepted over a run, in order: an id is accepted unless it is in the window. */
  function Accepted(stream: seq<string>, cap: int): seq<string> {
    if stream == [] then []
    else
      var before := Accepted(stream[..|stream| - 1], cap);
      var id := stream[|stream| - 1];
      if id in LastCap(before, cap) then before else before + [id]
  }

  /** Each id once, at its first delivery. */
  function FirstDeliveries(stream: seq<string>): seq<string> {
    if stream == [] then []
    else
      var before := FirstDeliveries(stream[..|stream| - 1]);
      var id := stream[|stream| - 1];
      if id in before then before else before + [id]
  }

  /** Every re-delivery comes while its id is among the last `cap` new ids. */
  predicate WithinWindow(stream: seq<string>, cap: int) {
    stream == []
    || (WithinWindow(stream[..|stream| - 1], cap)
        && var before := FirstDeliveries(stream[..|stream| - 1]);
        (stream[|stream| - 1] in before ==> stream[|stream| - 1] in LastCap(before, cap)))
  }

  lemma InAppend<T>(s: seq<T>, x: T, y: T)
    ensures y in s + [x] <==> y in s || y == x
  {
  }

  lemma LastCapMembers<T>(s: seq<T>, cap: int, x: T)
    ensures x in LastCap(s, cap) ==> x in s
  {
  }

  /** Exactly the delivered ids are accepted, however short the window. */
  lemma {:induction false} AcceptedIsDelivered(stream: seq<string>, cap: int, x: string)
    ensures x in FirstDeliveries(stream) <==> x in stream
    ensures x in Accepted(stream, cap) <==> x in stream
  {
    if stream != [] {
      var front, id := stream[..|stream| - 1], stream[|stream| - 1];
      var accepted, first := Accepted(front, cap), FirstDeliveries(front);
      AcceptedIsDelivered(front, cap, x);
      assert stream == front + [id];
      LastCapMembers(accepted, cap, id);
      InAppend(front, id, x);
      InAppend(accepted, id, x);
      InAppend(first, id, x);
    }
  }

  /**
   * Each id is accepted exactly once, at its first delivery, if and only if no id is delivered
   * again after it has left the window.
   */
  lemma {:induction false} AcceptedOnceIff(stream: seq<string>, cap: int)
    ensures Accepted(stream, cap) == FirstDeliveries(stream) <==> WithinWindow(stream, cap)
    ensures !WithinWindow(stream, cap) ==> |Accepted(stream, cap)| > |FirstDeliveries(stream)|
  {
    if stream != [] {
      var front, id := stream[..|stream| - 1], stream[|stream| - 1];
      AcceptedOnceIff(front, cap);
      AcceptedIsDelivered(front, cap, id);
      var accepted, first := Accepted(front, cap), FirstDeliveries(front);
      LastCapMembers(accepted, cap, id);
      if WithinWindow(front, cap) {
        assert accepted == first;
      }
    }
  }

  /** A window of one: an id that returns after another one is accepted again. */
  lemma ReturningIdIsAcceptedAgain()
    ensures Accepted(["a", "b", "a"], 1) == ["a", "b", "a"]
    ensures FirstDeliveries(["a", "b", "a"]) == ["a", "b"] && !WithinWindow(["a", "b", "a"], 1)
  {
    var one, two, three := ["a"], ["a", "b"], ["a", "b", "a"];
    assert one[..0] == [] && two[..1] == one && three[..2] == two;
    assert Accepted(one, 1) == one && FirstDeliveries(one) == one;
    assert LastCap(one, 1) == ["a"] && Accepted(two, 1) == two && FirstDeliveries(two) == two;
    assert LastCap(two, 1) == ["b"];
  }

  /** With no more ids than the capacity, every delivery is within the window. */
  lemma {:induction false} FewIdsStayInWindow(stream: seq<string>, cap: int)
    requires |FirstDeliveries(stream)| <= cap
    ensures WithinWindow(stream, cap)
  {
    if stream != [] {
      FewIdsStayInWindow(stream[..|stream| - 1], cap);
    }
  }

  /** Appending one entry pushes the oldest out of a full window. */
  lemma WindowSlides<T>(s: seq<T>, x: T, cap: int)
    ensures LastCap(s + [x], cap) ==
      var grown := LastCap(s, cap) + [x];
      if |grown| > cap then grown[1..] else grown
  {
    if 0 < cap <= |s| {
      assert (s + [x])[|s| + 1 - cap..] == s[|s| + 1 - cap..] + [x];
      assert LastCap(s, cap)[1..] == s[|s| - cap + 1..];
    }
  }

  ghost predicate Matches(ids: set<string>, order: seq<string>) {
    forall x :: x in ids <==> x in order
  }

  lemma Push(ids: set<string>, order: seq<string>, id: string)
    requires Matches(ids, order) && Distinct(order) && id !in ids
    ensures Matches(ids + {id}, order + [id]) && Distinct(order + [id])
  {
    forall x ensures x in order + [id] <==> x in order || x == id {
      InAppend(order, id, x);
    }
  }

  lemma Pop(ids: set<string>, order: seq<string>)
    requires Matches(ids, order) && Distinct(order) && order != []
    ensures Matches(ids - {order[0]}, order[1..]) && Distinct(order[1..])
  {
    assert order == [order[0]] + order[1..];
    forall x ensures x in order[1..] <==> x in order && x != order[0] {
      if x in order[1..] {
        var i :| 0 <= i < |order[1..]| && order[1..][i] == x;
        assert order[i + 1] == x;
      }
    }
  }

  // ----- the class -----

  class Seen {
    var ids: set<string>
    var order: seq<string>
    const cap: int
    /** Every id accepted so far. */
    ghost var accepted: seq<string>

    ghost predicate Valid()
      reads this
    {
      && order == LastCap(accepted, cap)
      && Distinct(order)
      && Matches(ids, order)
    }

    constructor (cap: int)
      ensures Valid() && accepted == [] && this.cap == cap
    {
      ids, order, accepted := {}, [], [];
      this.cap := cap;
    }

    /** Accepts an id that is not in the window, and forgets the oldest one past the capacity. */
    method Insert(id: string) returns (isNew: bool)
      requires Valid()
      modifies this
      ensures Valid()
      ensures isNew <==> id !in old(order)
      ensures accepted == if isNew then old(accepted) + [id] else old(accepted)
    {
      if id in ids {
        return false;
      }
      WindowSlides(accepted, id, cap);
      Push(ids, order, id);
      ids := ids + {id};
      order := order + [id];
      accepted := accepted + [id];
      if |order| > cap {
        var oldest := order[0];
        Pop(ids, order);
        order := order[1..];
        ids := ids - {oldest};
      }
      return true;
    }

    method Contains(id: string) returns (seen: bool)
      requires Valid()
      ensures seen <==> id in LastCap(accepted, cap)
    {
      seen := id in ids;
    }
  }

  /** Feeding a stream through one shared set accepts exactly what Accepted says. */
  method Deliver(stream: seq<string>, cap: int) returns (handled: seq<string>)
    ensures handled == Accepted(stream, cap)
    ensures WithinWindow(stream, cap) ==> handled == FirstDeliveries(stream)
  {
    var seen := new Seen(cap);
    handled := [];
    for i := 0 to |stream|
      invariant seen.Valid() && fresh(seen) && seen.cap == cap
      invariant handled == seen.accepted == Accepted(stream[..i], cap)
    {
      assert stream[..i + 1][..i] == stream[..i];
      var isNew := seen.Insert(stream[i]);
      if isNew {
        handled := handled + [stream[i]];
      }
    }
    assert stream[..|stream|] == stream;
    AcceptedOnceIff(stream, cap);
  }
}
