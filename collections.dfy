/** The JavaScript array operations the services are built from:
    `filter`, `find`, and `Math.max(...s.map(key))`, together
    with the max+1 id allocation that both services use. */
module Collections {
  import opened Wrappers

  /** `s.filter(keep)`: the elements of `s` that satisfy `keep`. */
  function Filter<T(!new)>(keep: T -> bool, s: seq<T>): (r: seq<T>)
    ensures |r| <= |s|
    ensures forall x :: x in r <==> x in s && keep(x)
  {
    if s == [] then []
    else if keep(s[0]) then [s[0]] + Filter(keep, s[1..])
    else Filter(keep, s[1..])
  }

  /** Filtering distributes over concatenation, so the kept elements stay
      in their original relative order. */
  lemma {:induction false} FilterConcat<T(!new)>(keep: T -> bool, s: seq<T>, t: seq<T>)
    ensures Filter(keep, s + t) == Filter(keep, s) + Filter(keep, t)
  {
    if s == [] {
      assert s + t == t;
    } else {
      assert (s + t)[0] == s[0];
      assert (s + t)[1..] == s[1..] + t;
      FilterConcat(keep, s[1..], t);
    }
  }

  /** Filtering a second time with the same test changes nothing. */
  lemma {:induction false} FilterIdempotent<T(!new)>(keep: T -> bool, s: seq<T>)
    ensures Filter(keep, Filter(keep, s)) == Filter(keep, s)
  {
    if s != [] {
      var rest := Filter(keep, s[1..]);
      FilterIdempotent(keep, s[1..]);
      if keep(s[0]) {
        assert ([s[0]] + rest)[1..] == rest;
      }
    }
  }

  /** When every element passes, filtering is the identity. */
  lemma {:induction false} FilterKeepsAll<T(!new)>(keep: T -> bool, s: seq<T>)
    requires forall x :: x in s ==> keep(x)
    ensures Filter(keep, s) == s
  {
    if s != [] {
      assert s[0] in s;
      assert forall x :: x in s[1..] ==> x in s;
      FilterKeepsAll(keep, s[1..]);
    }
  }

  /** When no element passes, filtering gives the empty sequence. */
  lemma FilterDropsAll<T(!new)>(keep: T -> bool, s: seq<T>)
    requires forall x :: x in s ==> !keep(x)
    ensures Filter(keep, s) == []
  {
  }

  /** The position `s.find(matches)` stops at: the first element that
      matches, or None when no element does. Both services call `find`, and
      their `FindOne` turns this position back into the element. */
  function FindIndex<T(!new)>(matches: T -> bool, s: seq<T>): (r: Option<nat>)
    ensures r.Some? ==> r.value < |s| && matches(s[r.value])
    ensures r.Some? ==> forall j :: 0 <= j < r.value ==> !matches(s[j])
    ensures r.None? <==> forall x :: x in s ==> !matches(x)
  {
    if s == [] then None
    else if matches(s[0]) then Some(0)
    else match FindIndex(matches, s[1..])
      case None => None
      case Some(i) => Some(i + 1)
  }

  /** No two elements of `s` share a key. */
  predicate DistinctKeys<T(!new)>(key: T -> int, s: seq<T>)
  {
    forall i, j :: 0 <= i < j < |s| ==> key(s[i]) != key(s[j])
  }

  /** Filtering never introduces a duplicate key. */
  lemma {:induction false} FilterKeepsDistinctKeys<T(!new)>(keep: T -> bool, key: T -> int, s: seq<T>)
    requires DistinctKeys(key, s)
    ensures DistinctKeys(key, Filter(keep, s))
  {
    if s != [] {
      var tail := s[1..];
      var rest := Filter(keep, tail);
      FilterKeepsDistinctKeys(keep, key, tail);
      if keep(s[0]) {
        var r := [s[0]] + rest;
        forall i, j | 0 <= i < j < |r|
          ensures key(r[i]) != key(r[j])
        {
          if i == 0 {
            var x := r[j];
            assert x in rest;
            var k :| 0 <= k < |tail| && tail[k] == x;
            assert s[k + 1] == x;
          }
        }
      }
    }
  }

  /** `Math.max(...s.map(key))` over a non-empty sequence. */
  function MaxKey<T(!new)>(key: T -> int, s: seq<T>): (m: int)
    requires s != []
    ensures exists x :: x in s && key(x) == m
    ensures forall x :: x in s ==> key(x) <= m
  {
    if |s| == 1 then key(s[0])
    else
      var m := MaxKey(key, s[1..]);
      assert forall x :: x in s ==> x == s[0] || x in s[1..];
      if key(s[0]) >= m then key(s[0]) else m
  }

  /** The id a service gives the next record it creates: one more than the
      largest id present, or 1 when the collection is empty. It is computed
      over the live collection, so it is fresh for the current contents only. */
  function NextId<T(!new)>(key: T -> int, s: seq<T>): (r: int)
    ensures forall x :: x in s ==> key(x) < r
    ensures s == [] ==> r == 1
    ensures s != [] ==> exists x :: x in s && key(x) == r - 1
  {
    if |s| > 0 then MaxKey(key, s) + 1 else 1
  }

  /** Right after an element with a fresh key is appended, the next id is
      one more than that key: consecutive creates hand out consecutive ids. */
  lemma NextIdAfterFreshAppend<T(!new)>(key: T -> int, s: seq<T>, x: T)
    requires forall y :: y in s ==> key(y) < key(x)
    ensures NextId(key, s + [x]) == key(x) + 1
  {
  }

  /** Appending an element whose key exceeds every key present keeps the
      keys distinct. */
  lemma AppendFreshKeepsDistinctKeys<T(!new)>(key: T -> int, s: seq<T>, x: T)
    requires DistinctKeys(key, s)
    requires forall y :: y in s ==> key(y) < key(x)
    ensures DistinctKeys(key, s + [x])
  {
  }

  /** Replacing one element by another with the same key keeps the keys
      distinct. */
  lemma ReplaceSameKeyKeepsDistinctKeys<T(!new)>(key: T -> int, s: seq<T>, i: nat, x: T)
    requires DistinctKeys(key, s)
    requires i < |s| && key(x) == key(s[i])
    ensures DistinctKeys(key, s[i := x])
  {
  }
}
