/**
 * The stable sort behind Python's sorted() and ECMAScript's
 * Array.prototype.sort (stable since ES2019), as an insertion sort.
 * `keep(x, y)` says that x may stay in front of y: Python keeps x first
 * unless y < x, and ECMAScript keeps x first when compare(x, y) <= 0.
 */
module Sorting {

  /** Places x in front of the first element it may stay in front of. */
  function Insert<T>(x: T, s: seq<T>, keep: (T, T) -> bool): (r: seq<T>)
    ensures multiset(r) == multiset(s) + multiset{x}
  {
    if s == [] then [x]
    else if keep(x, s[0]) then [x] + s
    else
      assert s == [s[0]] + s[1..];
      [s[0]] + Insert(x, s[1..], keep)
  }

  /** Sorts by inserting each element, last first, so that ties keep input order. */
  function SortBy<T>(s: seq<T>, keep: (T, T) -> bool): (r: seq<T>)
    ensures multiset(r) == multiset(s)
  {
    if s == [] then []
    else
      assert s == [s[0]] + s[1..];
      Insert(s[0], SortBy(s[1..], keep), keep)
  }

  ghost predicate StrictlySorted<T>(s: seq<T>, lt: (T, T) -> bool) {
    forall i, j :: 0 <= i < j < |s| ==> lt(s[i], s[j])
  }

  ghost predicate Transitive<T(!new)>(lt: (T, T) -> bool) {
    forall a, b, c :: lt(a, b) && lt(b, c) ==> lt(a, c)
  }

  /**
   * lt orders every earlier element of s before or after every later one, and
   * keep agrees with lt whenever the first argument comes earlier in s.
   */
  ghost predicate Compatible<T>(s: seq<T>, keep: (T, T) -> bool, lt: (T, T) -> bool) {
    forall i, j :: 0 <= i < j < |s| ==>
      (keep(s[i], s[j]) <==> lt(s[i], s[j])) && (lt(s[i], s[j]) || lt(s[j], s[i]))
  }

  /** Insert adds x and keeps every element. */
  lemma {:induction false} InsertMembers<T>(x: T, s: seq<T>, keep: (T, T) -> bool)
    ensures forall e :: e in Insert(x, s, keep) <==> e == x || e in s
  {
    var r := Insert(x, s, keep);
    forall e ensures e in r <==> e == x || e in s {
      assert e in r <==> e in multiset(r);
      assert e in s <==> e in multiset(s);
    }
  }

  /** The head of a strictly sorted sequence comes before every later element. */
  lemma {:induction false} HeadFirst<T>(t: seq<T>, lt: (T, T) -> bool)
    requires t != [] && StrictlySorted(t, lt)
    ensures forall e :: e in t[1..] ==> lt(t[0], e)
  {
    forall e | e in t[1..] ensures lt(t[0], e) {
      var k :| 0 <= k < |t[1..]| && t[1..][k] == e;
      assert t[k + 1] == e;
    }
  }

  /** An element before all of a strictly sorted sequence extends it. */
  lemma {:induction false} ConsSorted<T>(h: T, t: seq<T>, lt: (T, T) -> bool)
    requires StrictlySorted(t, lt)
    requires forall e :: e in t ==> lt(h, e)
    ensures StrictlySorted([h] + t, lt)
  {
    var r := [h] + t;
    forall i, j | 0 <= i < j < |r| ensures lt(r[i], r[j]) {
      if i == 0 {
        assert r[j] == t[j - 1];
      } else {
        assert r[i] == t[i - 1] && r[j] == t[j - 1];
      }
    }
  }

  lemma {:induction false} InsertSorted<T(!new)>(x: T, t: seq<T>, keep: (T, T) -> bool, lt: (T, T) -> bool)
    requires Transitive(lt)
    requires StrictlySorted(t, lt)
    requires forall e :: e in t ==> (keep(x, e) <==> lt(x, e)) && (lt(x, e) || lt(e, x))
    ensures StrictlySorted(Insert(x, t, keep), lt)
  {
    if t != [] {
      var tail := t[1..];
      HeadFirst(t, lt);
      if !keep(x, t[0]) {
        assert StrictlySorted(tail, lt);
        assert forall e :: e in tail ==> e in t;
        InsertSorted(x, tail, keep, lt);
        InsertMembers(x, tail, keep);
        ConsSorted(t[0], Insert(x, tail, keep), lt);
      } else {
        assert forall e :: e in t ==> e == t[0] || e in tail;
        ConsSorted(x, t, lt);
      }
    }
  }

  /** A stable sort by a keep test that agrees with a strict order sorts strictly by it. */
  lemma {:induction false} SortByStrictlySorted<T(!new)>(s: seq<T>, keep: (T, T) -> bool, lt: (T, T) -> bool)
    requires Transitive(lt)
    requires Compatible(s, keep, lt)
    ensures StrictlySorted(SortBy(s, keep), lt)
  {
    if s != [] {
      var tail := s[1..];
      assert Compatible(tail, keep, lt) by {
        forall i, j | 0 <= i < j < |tail|
          ensures (keep(tail[i], tail[j]) <==> lt(tail[i], tail[j])) && (lt(tail[i], tail[j]) || lt(tail[j], tail[i]))
        {
          assert tail[i] == s[i + 1] && tail[j] == s[j + 1];
        }
      }
      SortByStrictlySorted(tail, keep, lt);
      var t := SortBy(tail, keep);
      forall e | e in t ensures (keep(s[0], e) <==> lt(s[0], e)) && (lt(s[0], e) || lt(e, s[0])) {
        assert e in multiset(tail);
        var k :| 0 <= k < |tail| && tail[k] == e;
        assert s[k + 1] == e;
      }
      InsertSorted(s[0], t, keep, lt);
    }
  }
}
