/** What the list endpoints do after filtering: order the matches by one numeric
    field (`.sort({ field: 1 | -1 })`), skip `(page - 1) * limit` of them, return at
    most `limit`, and report `Math.ceil(total / limit)` pages. The sort is modelled
    as a stable insertion sort; the database may order ties differently. */
module Sorting {

  predicate SortedDesc<T>(s: seq<T>, key: T -> int) {
    forall i, j | 0 <= i < j < |s| :: key(s[i]) >= key(s[j])
  }

  /** Insert x after every element whose key is at least x's. */
  function InsertDesc<T>(x: T, s: seq<T>, key: T -> int): seq<T>
  {
    if s == [] then [x]
    else if key(s[0]) >= key(x) then [s[0]] + InsertDesc(x, s[1..], key)
    else [x] + s
  }

  /** `.sort({ field: -1 })` */
  function SortDesc<T>(s: seq<T>, key: T -> int): seq<T>
  {
    if s == [] then [] else InsertDesc(s[|s| - 1], SortDesc(s[..|s| - 1], key), key)
  }

  /** `.sort({ field: direction })`: ascending iff direction is 1. */
  function SortBy<T>(s: seq<T>, key: T -> int, direction: int): seq<T>
  {
    if direction == 1 then SortDesc(s, x => -key(x)) else SortDesc(s, key)
  }

  lemma {:induction false} InsertDescProperties<T>(x: T, s: seq<T>, key: T -> int)
    requires SortedDesc(s, key)
    ensures SortedDesc(InsertDesc(x, s, key), key)
    ensures multiset(InsertDesc(x, s, key)) == multiset(s) + multiset{x}
  {
    InsertDescPermutes(x, s, key);
    InsertDescSorted(x, s, key);
  }

  lemma {:induction false} InsertDescPermutes<T>(x: T, s: seq<T>, key: T -> int)
    ensures multiset(InsertDesc(x, s, key)) == multiset(s) + multiset{x}
  {
    if s != [] && key(s[0]) >= key(x) {
      InsertDescPermutes(x, s[1..], key);
      assert s == [s[0]] + s[1..];
    }
  }

  /** Every element of the result is x or an element of s. */
  lemma {:induction false} InsertDescMembers<T>(x: T, s: seq<T>, key: T -> int)
    ensures forall k | 0 <= k < |InsertDesc(x, s, key)| ::
      InsertDesc(x, s, key)[k] == x || InsertDesc(x, s, key)[k] in s
  {
    if s != [] && key(s[0]) >= key(x) {
      InsertDescMembers(x, s[1..], key);
      var r := InsertDesc(x, s, key);
      forall k | 0 <= k < |r| ensures r[k] == x || r[k] in s {
        if k > 0 {
          assert r[k] == InsertDesc(x, s[1..], key)[k - 1];
          assert forall y | y in s[1..] :: y in s;
        }
      }
    }
  }

  lemma {:induction false} InsertDescSorted<T>(x: T, s: seq<T>, key: T -> int)
    requires SortedDesc(s, key)
    ensures SortedDesc(InsertDesc(x, s, key), key)
  {
    if s != [] && key(s[0]) >= key(x) {
      var tail := s[1..];
      assert SortedDesc(tail, key) by {
        forall i, j | 0 <= i < j < |tail| ensures key(tail[i]) >= key(tail[j]) {
          assert tail[i] == s[i + 1] && tail[j] == s[j + 1];
        }
      }
      InsertDescSorted(x, tail, key);
      InsertDescMembers(x, tail, key);
      var r := InsertDesc(x, tail, key);
      forall k | 0 <= k < |r| ensures key(s[0]) >= key(r[k]) {
        if r[k] != x {
          var m :| 0 <= m < |tail| && tail[m] == r[k];
          assert s[m + 1] == r[k];
        }
      }
      var full := InsertDesc(x, s, key);
      assert full == [s[0]] + r;
      forall i, j | 0 <= i < j < |full| ensures key(full[i]) >= key(full[j]) {
        assert full[j] == r[j - 1];
        if i > 0 {
          assert full[i] == r[i - 1];
        }
      }
    } else if s != [] {
      var full := InsertDesc(x, s, key);
      assert full == [x] + s;
      forall i, j | 0 <= i < j < |full| ensures key(full[i]) >= key(full[j]) {
        assert full[j] == s[j - 1];
        if i > 0 {
          assert full[i] == s[i - 1];
        }
      }
    }
  }

  /** The result is in non-increasing key order and is a permutation of the input. */
  lemma {:induction false} SortDescCorrect<T>(s: seq<T>, key: T -> int)
    ensures SortedDesc(SortDesc(s, key), key)
    ensures multiset(SortDesc(s, key)) == multiset(s)
  {
    if s != [] {
      var init := s[..|s| - 1];
      SortDescCorrect(init, key);
      InsertDescProperties(s[|s| - 1], SortDesc(init, key), key);
      assert s == init + [s[|s| - 1]];
    }
  }

  /** Sorting in either direction keeps exactly the input elements, and puts them in
      ascending key order for direction 1 and descending order otherwise. */
  lemma SortByCorrect<T>(s: seq<T>, key: T -> int, direction: int)
    ensures multiset(SortBy(s, key, direction)) == multiset(s)
    ensures direction == 1 ==>
      forall i, j | 0 <= i < j < |SortBy(s, key, direction)| ::
        key(SortBy(s, key, direction)[i]) <= key(SortBy(s, key, direction)[j])
    ensures direction != 1 ==> SortedDesc(SortBy(s, key, direction), key)
  {
    if direction == 1 {
      var neg := (x: T) => -key(x);
      SortDescCorrect(s, neg);
      var r := SortDesc(s, neg);
      assert forall i, j | 0 <= i < j < |r| :: neg(r[i]) >= neg(r[j]);
    } else {
      SortDescCorrect(s, key);
    }
  }

  // ---------------------------------------------------------------------------
  // Paging

  /** `(page - 1) * limit` */
  function Skip(page: int, limit: int): int
  {
    (page - 1) * limit
  }

  /** `.skip(skip).limit(limit)` applied to an ordered result. */
  function PageOf<T>(s: seq<T>, page: int, limit: int): (r: seq<T>)
    requires page >= 1 && limit >= 1
    ensures |r| <= limit
    ensures forall k | 0 <= k < |r| :: Skip(page, limit) + k < |s| && r[k] == s[Skip(page, limit) + k]
  {
    var lo := if Skip(page, limit) < |s| then Skip(page, limit) else |s|;
    var hi := if lo + limit < |s| then lo + limit else |s|;
    s[lo..hi]
  }

  /** `Math.ceil(total / limit)` for a positive limit. */
  function TotalPages(total: nat, limit: int): (pages: nat)
    requires limit >= 1
  {
    (total + limit - 1) / limit
  }

  /** TotalPages is the ceiling of total / limit: the least page count whose pages
      hold every item. */
  lemma TotalPagesIsCeiling(total: nat, limit: int)
    requires limit >= 1
    ensures TotalPages(total, limit) * limit >= total
    ensures total > 0 ==> (TotalPages(total, limit) - 1) * limit < total
    ensures TotalPages(total, limit) == 0 <==> total == 0
  {
    var p := TotalPages(total, limit);
    var q := total + limit - 1;
    assert q == p * limit + q % limit;
  }

  /** Every item of an ordered result is on exactly the page numbered
      index / limit + 1, and that page exists. */
  lemma PageHoldsItem<T>(s: seq<T>, k: nat, limit: int)
    requires k < |s| && limit >= 1
    ensures 1 <= k / limit + 1 <= TotalPages(|s|, limit)
    ensures var page := k / limit + 1;
      |PageOf(s, page, limit)| <= limit &&
      PageOf(s, page, limit)[k % limit] == s[k]
  {
    var page := k / limit + 1;
    assert Skip(page, limit) == (k / limit) * limit;
    assert k == (k / limit) * limit + k % limit;
    TotalPagesIsCeiling(|s|, limit);
    assert (k / limit) * limit <= k;
    if page > TotalPages(|s|, limit) {
      assert page - 1 >= TotalPages(|s|, limit);
      MulMonotone(TotalPages(|s|, limit), page - 1, limit);
      assert false;
    }
  }

  lemma MulMonotone(a: int, b: int, c: int)
    requires a <= b && c >= 0
    ensures a * c <= b * c
  {
  }
}
