/** List operations shared by the model: `filter` with a predicate, and the two
    updates the client caches apply to a locally held list of server documents
    identified by their `_id` string, `list.map(x => x._id === id ? replacement : x)`
    and `list.filter(x => x._id !== id)`. */
module ListOps {

  /** `xs.filter(p)` */
  function Where<T>(xs: seq<T>, p: T -> bool): (r: seq<T>)
    ensures |r| <= |xs|
    ensures forall i | 0 <= i < |r| :: p(r[i])
  {
    if xs == [] then []
    else if p(xs[0]) then [xs[0]] + Where(xs[1..], p)
    else Where(xs[1..], p)
  }

  /** The filter keeps exactly the elements that satisfy the predicate. */
  lemma {:induction false} WhereMembers<T>(xs: seq<T>, p: T -> bool)
    ensures forall x :: x in Where(xs, p) <==> x in xs && p(x)
  {
    if xs != [] {
      WhereMembers(xs[1..], p);
      assert xs == [xs[0]] + xs[1..];
    }
  }

  /** Filtering an appended element. */
  lemma {:induction false} WhereAppend<T>(xs: seq<T>, x: T, p: T -> bool)
    ensures Where(xs + [x], p) == Where(xs, p) + (if p(x) then [x] else [])
  {
    if xs != [] {
      assert (xs + [x])[1..] == xs[1..] + [x];
      WhereAppend(xs[1..], x, p);
    } else {
      assert xs + [x] == [x];
    }
  }

  /** `xs.map(x => idOf(x) == id ? y : x)` */
  function ReplaceById<T>(xs: seq<T>, id: string, y: T, idOf: T -> string): (r: seq<T>)
    ensures |r| == |xs|
  {
    if xs == [] then []
    else [if idOf(xs[0]) == id then y else xs[0]] + ReplaceById(xs[1..], id, y, idOf)
  }

  /** `xs.filter(x => idOf(x) != id)` */
  function RemoveById<T>(xs: seq<T>, id: string, idOf: T -> string): (r: seq<T>)
    ensures |r| <= |xs|
  {
    if xs == [] then []
    else if idOf(xs[0]) == id then RemoveById(xs[1..], id, idOf)
    else [xs[0]] + RemoveById(xs[1..], id, idOf)
  }

  /** Position by position, a matching element becomes the replacement and every
      other element stays where it was. */
  lemma {:induction false} ReplaceByIdPointwise<T>(xs: seq<T>, id: string, y: T, idOf: T -> string)
    ensures forall i | 0 <= i < |xs| ::
      ReplaceById(xs, id, y, idOf)[i] == (if idOf(xs[i]) == id then y else xs[i])
  {
    if xs != [] {
      ReplaceByIdPointwise(xs[1..], id, y, idOf);
      var r := ReplaceById(xs, id, y, idOf);
      forall i | 0 <= i < |xs|
        ensures r[i] == (if idOf(xs[i]) == id then y else xs[i])
      {
        if i > 0 { assert r[i] == ReplaceById(xs[1..], id, y, idOf)[i - 1]; }
      }
    }
  }

  /** A replacement whose id is looked up again finds no old element with that id. */
  lemma ReplaceByIdNoStale<T>(xs: seq<T>, id: string, y: T, idOf: T -> string)
    ensures forall i | 0 <= i < |xs| && idOf(xs[i]) == id :: ReplaceById(xs, id, y, idOf)[i] == y
    ensures forall i | 0 <= i < |xs| && idOf(xs[i]) != id :: ReplaceById(xs, id, y, idOf)[i] == xs[i]
  {
    ReplaceByIdPointwise(xs, id, y, idOf);
  }

  /** When nothing carries the id, the replacement changes nothing. */
  lemma {:induction false} ReplaceByIdAbsent<T>(xs: seq<T>, id: string, y: T, idOf: T -> string)
    requires forall i | 0 <= i < |xs| :: idOf(xs[i]) != id
    ensures ReplaceById(xs, id, y, idOf) == xs
  {
    if xs != [] {
      ReplaceByIdAbsent(xs[1..], id, y, idOf);
    }
  }

  /** The filter keeps exactly the elements whose id differs. */
  lemma {:induction false} RemoveByIdMembers<T>(xs: seq<T>, id: string, idOf: T -> string)
    ensures forall x :: x in RemoveById(xs, id, idOf) <==> x in xs && idOf(x) != id
  {
    if xs != [] {
      RemoveByIdMembers(xs[1..], id, idOf);
      assert xs == [xs[0]] + xs[1..];
    }
  }

  /** The filter keeps the relative order: it distributes over concatenation. */
  lemma {:induction false} RemoveByIdAppend<T>(a: seq<T>, b: seq<T>, id: string, idOf: T -> string)
    ensures RemoveById(a + b, id, idOf) == RemoveById(a, id, idOf) + RemoveById(b, id, idOf)
  {
    if a != [] {
      RemoveByIdAppend(a[1..], b, id, idOf);
      assert (a + b)[1..] == a[1..] + b;
    } else {
      assert a + b == b;
    }
  }

  /** When nothing carries the id, the filter changes nothing. */
  lemma {:induction false} RemoveByIdAbsent<T>(xs: seq<T>, id: string, idOf: T -> string)
    requires forall i | 0 <= i < |xs| :: idOf(xs[i]) != id
    ensures RemoveById(xs, id, idOf) == xs
  {
    if xs != [] {
      RemoveByIdAbsent(xs[1..], id, idOf);
    }
  }

  /** Exactly the matching elements are dropped: the length falls by their number. */
  lemma {:induction false} RemoveByIdCount<T>(xs: seq<T>, id: string, idOf: T -> string)
    ensures |RemoveById(xs, id, idOf)| == |xs| - CountId(xs, id, idOf)
  {
    if xs != [] {
      RemoveByIdCount(xs[1..], id, idOf);
    }
  }

  /** How many elements carry the id. */
  function CountId<T>(xs: seq<T>, id: string, idOf: T -> string): (n: nat)
    ensures n <= |xs|
  {
    if xs == [] then 0
    else (if idOf(xs[0]) == id then 1 else 0) + CountId(xs[1..], id, idOf)
  }
}
