/** The reads the handlers make through the database client, stated once for
    every table: `findFirst` (the first matching row in insertion order) and
    `findMany` with a filter and an `orderBy` on one column. */
module Tables {

  import opened Common

  /** Every row is stored under its own id. */
  ghost predicate Keyed<T>(rows: map<Id, T>, idOf: T -> Id) {
    forall k :: k in rows ==> idOf(rows[k]) == k
  }

  ghost predicate Distinct<T>(s: seq<T>) {
    forall i, j :: 0 <= i < j < |s| ==> s[i] != s[j]
  }

  ghost predicate IdsIncreasing<T>(s: seq<T>, idOf: T -> Id) {
    forall i, j :: 0 <= i < j < |s| ==> idOf(s[i]) < idOf(s[j])
  }

  /** `findFirst({ where: p })`: the smallest id below `n` whose row satisfies `p`. */
  function Find<T>(rows: map<Id, T>, n: nat, p: T -> bool): (r: Option<Id>)
    ensures r.Some? ==> r.value in rows && r.value < n && p(rows[r.value])
    ensures r.Some? ==> forall k :: k in rows && k < r.value ==> !p(rows[k])
    ensures r.None? <==> forall k :: k in rows && k < n ==> !p(rows[k])
  {
    if n == 0 then None
    else
      var earlier := Find(rows, n - 1, p);
      if earlier.Some? then earlier
      else if n - 1 in rows && p(rows[n - 1]) then Some(n - 1)
      else None
  }

  /** The rows with ids below `n`, in id order (the table as the database
      returns it when no order is asked for). */
  function InIdOrder<T(!new)>(rows: map<Id, T>, n: nat, ghost idOf: T -> Id): (r: seq<T>)
    requires Keyed(rows, idOf)
    ensures forall x :: x in r <==> exists k :: k in rows && k < n && rows[k] == x
    ensures forall i :: 0 <= i < |r| ==> idOf(r[i]) < n
    ensures IdsIncreasing(r, idOf)
  {
    if n == 0 then []
    else
      var front := InIdOrder(rows, n - 1, idOf);
      if n - 1 in rows then front + [rows[n - 1]] else front
  }

  lemma IncreasingIsDistinct<T(!new)>(s: seq<T>, idOf: T -> Id)
    requires IdsIncreasing(s, idOf)
    ensures Distinct(s)
  {
  }

  /** `filter(p)` keeping order. */
  function Filter<T(!new)>(s: seq<T>, p: T -> bool): (r: seq<T>)
    ensures forall x :: x in r <==> x in s && p(x)
    ensures |r| <= |s|
    ensures forall i :: 0 <= i < |r| ==> p(r[i])
  {
    if s == [] then []
    else
      var rest := Filter(s[1..], p);
      assert forall x :: x in s <==> x == s[0] || x in s[1..];
      if p(s[0]) then [s[0]] + rest else rest
  }

  lemma {:induction false} FilterKeepsIdOrder<T(!new)>(s: seq<T>, p: T -> bool, idOf: T -> Id)
    requires IdsIncreasing(s, idOf)
    ensures IdsIncreasing(Filter(s, p), idOf)
  {
    if s != [] {
      FilterKeepsIdOrder(s[1..], p, idOf);
      var rest := Filter(s[1..], p);
      assert forall i :: 0 <= i < |rest| ==> idOf(s[0]) < idOf(rest[i]) by {
        forall i | 0 <= i < |rest| ensures idOf(s[0]) < idOf(rest[i]) {
          assert rest[i] in s[1..];
        }
      }
    }
  }

  /** Filtering commutes with concatenation, which is what keeping the order means. */
  lemma {:induction false} FilterAppend<T(!new)>(a: seq<T>, b: seq<T>, p: T -> bool)
    ensures Filter(a + b, p) == Filter(a, p) + Filter(b, p)
  {
    if a == [] {
      assert a + b == b;
    } else {
      assert (a + b)[0] == a[0];
      assert (a + b)[1..] == a[1..] + b;
      FilterAppend(a[1..], b, p);
    }
  }

  /** `a` may come before `b` under `orderBy: { key: 'asc' }` or `'desc'`. */
  predicate Ordered<T>(a: T, b: T, key: T -> int, ascending: bool) {
    if ascending then key(a) <= key(b) else key(a) >= key(b)
  }

  predicate SortedBy<T>(s: seq<T>, key: T -> int, ascending: bool) {
    forall i, j :: 0 <= i < j < |s| ==> Ordered(s[i], s[j], key, ascending)
  }

  /** An element that may precede every element of a sorted sequence can be
      put in front of it. */
  lemma SortedCons<T>(a: T, t: seq<T>, key: T -> int, ascending: bool)
    requires SortedBy(t, key, ascending)
    requires forall y :: y in t ==> Ordered(a, y, key, ascending)
    ensures SortedBy([a] + t, key, ascending)
  {
    var u := [a] + t;
    forall i, j | 0 <= i < j < |u| ensures Ordered(u[i], u[j], key, ascending) {
      assert u[j] == t[j - 1];
      if i == 0 {
        assert t[j - 1] in t;
      } else {
        assert u[i] == t[i - 1];
      }
    }
  }

  function Insert<T(!new)>(x: T, s: seq<T>, key: T -> int, ascending: bool): (r: seq<T>)
    requires SortedBy(s, key, ascending)
    ensures SortedBy(r, key, ascending)
    ensures multiset(r) == multiset(s) + multiset{x}
  {
    if s == [] then [x]
    else if Ordered(x, s[0], key, ascending) then
      assert forall y :: y in s ==> Ordered(x, y, key, ascending) by {
        forall y | y in s ensures Ordered(x, y, key, ascending) {
          var j :| 0 <= j < |s| && s[j] == y;
          if j > 0 { assert Ordered(s[0], s[j], key, ascending); }
        }
      }
      SortedCons(x, s, key, ascending);
      [x] + s
    else
      var tail := s[1..];
      assert SortedBy(tail, key, ascending) by {
        forall i, j | 0 <= i < j < |tail| ensures Ordered(tail[i], tail[j], key, ascending) {
          assert tail[i] == s[i + 1] && tail[j] == s[j + 1];
        }
      }
      var rest := Insert(x, tail, key, ascending);
      assert s == [s[0]] + tail;
      assert forall y :: y in rest ==> Ordered(s[0], y, key, ascending) by {
        forall y | y in rest ensures Ordered(s[0], y, key, ascending) {
          assert y in multiset(rest);
          if y != x {
            assert y in tail;
            var j :| 0 <= j < |tail| && tail[j] == y;
            assert tail[j] == s[j + 1];
          }
        }
      }
      SortedCons(s[0], rest, key, ascending);
      [s[0]] + rest
  }

  /** A sequence has no repeated element exactly when every element occurs once. */
  lemma {:induction false} DistinctCounts<T>(s: seq<T>)
    ensures Distinct(s) <==> forall y :: multiset(s)[y] <= 1
  {
    if s != [] {
      DistinctCounts(s[1..]);
      assert s == [s[0]] + s[1..];
      if Distinct(s) {
        assert s[0] !in s[1..];
        assert Distinct(s[1..]) by {
          forall i, j | 0 <= i < j < |s[1..]| ensures s[1..][i] != s[1..][j] {
            assert s[1..][i] == s[i + 1] && s[1..][j] == s[j + 1];
          }
        }
      } else {
        var i, j :| 0 <= i < j < |s| && s[i] == s[j];
        if i == 0 {
          assert s[j] in s[1..];
          assert multiset(s) == multiset{s[0]} + multiset(s[1..]);
          assert multiset(s)[s[0]] >= 2;
        } else {
          assert s[1..][i - 1] == s[1..][j - 1];
          assert !Distinct(s[1..]);
          var y :| multiset(s[1..])[y] > 1;
          assert multiset(s)[y] > 1;
        }
      }
    }
  }

  /** The rows of `s` ordered by `key`; ties keep no particular order, as in
      the database. */
  function SortBy<T(!new)>(s: seq<T>, key: T -> int, ascending: bool): (r: seq<T>)
    ensures SortedBy(r, key, ascending)
    ensures multiset(r) == multiset(s)
  {
    if s == [] then []
    else
      assert s == [s[0]] + s[1..];
      Insert(s[0], SortBy(s[1..], key, ascending), key, ascending)
  }

  /** What `findMany({ where: p, orderBy })` returns: exactly the matching rows,
      each once, in the requested order. */
  lemma {:induction false} QueryContents<T(!new)>(rows: map<Id, T>, n: nat, idOf: T -> Id, p: T -> bool, key: T -> int, ascending: bool)
    requires Keyed(rows, idOf)
    ensures var r := SortBy(Filter(InIdOrder(rows, n, idOf), p), key, ascending);
      && (forall x :: x in r <==> p(x) && exists k :: k in rows && k < n && rows[k] == x)
      && Distinct(r)
      && SortedBy(r, key, ascending)
  {
    var all := InIdOrder(rows, n, idOf);
    var matching := Filter(all, p);
    FilterKeepsIdOrder(all, p, idOf);
    IncreasingIsDistinct(matching, idOf);
    var r := SortBy(matching, key, ascending);
    DistinctCounts(matching);
    DistinctCounts(r);
    forall x ensures x in r <==> x in matching {
      assert x in r <==> x in multiset(r);
    }
  }
}
