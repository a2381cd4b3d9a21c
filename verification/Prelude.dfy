/** Sequence vocabulary shared by the other modules: what a SQL filter, a first-row lookup,
    an ORDER BY and an UPDATE ... WHERE mean on a table held as a sequence of rows. */
module Prelude {
  datatype Option<+T> = None | Some(value: T)

  datatype Result<+T, +E> = Ok(value: T) | Err(error: E)

  // ---- SELECT ... WHERE ----

  function Filter<T(!new)>(s: seq<T>, p: T -> bool): (r: seq<T>)
    ensures |r| <= |s|
    ensures forall x :: x in r <==> x in s && p(x)
  {
    if s == [] then []
    else if p(s[0]) then [s[0]] + Filter(s[1..], p)
    else Filter(s[1..], p)
  }

  lemma FilterCons<T(!new)>(x: T, s: seq<T>, p: T -> bool)
    ensures Filter([x] + s, p) == if p(x) then [x] + Filter(s, p) else Filter(s, p)
  {
    assert ([x] + s)[1..] == s;
  }

  lemma {:induction false} FilterConcat<T(!new)>(s: seq<T>, t: seq<T>, p: T -> bool)
    ensures Filter(s + t, p) == Filter(s, p) + Filter(t, p)
  {
    if s == [] {
      assert s + t == t && Filter(s, p) == [];
    } else {
      var head, tail := s[0], s[1..];
      FilterConcat(tail, t, p);
      FilterCons(head, tail + t, p);
      FilterCons(head, tail, p);
      ConcatAssociative([head], tail, t);
      ConcatAssociative([head], Filter(tail, p), Filter(t, p));
      assert s == [head] + tail;
    }
  }

  lemma FilterLast<T(!new)>(s: seq<T>, x: T, p: T -> bool)
    ensures Filter(s + [x], p) == if p(x) then Filter(s, p) + [x] else Filter(s, p)
  {
    FilterConcat(s, [x], p);
    FilterCons(x, [], p);
    assert [x] + [] == [x];
  }

  lemma ConcatAssociative<T>(a: seq<T>, b: seq<T>, c: seq<T>)
    ensures a + (b + c) == a + b + c
  {}

  lemma {:induction false} FilterSame<T(!new)>(s: seq<T>, p: T -> bool, q: T -> bool)
    requires forall x | x in s :: p(x) == q(x)
    ensures Filter(s, p) == Filter(s, q)
  {
    if s != [] {
      FilterSame(s[1..], p, q);
    }
  }

  lemma {:induction false} FilterAll<T(!new)>(s: seq<T>, p: T -> bool)
    requires forall x | x in s :: p(x)
    ensures Filter(s, p) == s
  {
    if s != [] {
      FilterAll(s[1..], p);
    }
  }

  lemma {:induction false} FilterNone<T(!new)>(s: seq<T>, p: T -> bool)
    requires forall x | x in s :: !p(x)
    ensures Filter(s, p) == []
  {
    if s != [] {
      FilterNone(s[1..], p);
    }
  }

  // Rows that satisfy the predicate and rows that do not add up to the table.
  lemma {:induction false} FilterSplit<T(!new)>(s: seq<T>, p: T -> bool, q: T -> bool)
    requires forall x | x in s :: q(x) == !p(x)
    ensures |Filter(s, p)| + |Filter(s, q)| == |s|
  {
    if s != [] {
      FilterSplit(s[1..], p, q);
    }
  }

  // The number of rows a WHERE selects is the number of places where it holds.
  ghost function Places<T(!new)>(s: seq<T>, p: T -> bool): set<nat> { set i: nat | i < |s| && p(s[i]) }

  lemma OneMorePlace<T(!new)>(s: seq<T>, x: T, p: T -> bool)
    ensures |Places(s + [x], p)| == |Places(s, p)| + if p(x) then 1 else 0
  {
    if p(x) {
      assert Places(s + [x], p) == Places(s, p) + {|s|};
    } else {
      assert Places(s + [x], p) == Places(s, p);
    }
  }

  lemma {:induction false} FilterCounts<T(!new)>(s: seq<T>, p: T -> bool)
    ensures |Filter(s, p)| == |Places(s, p)|
  {
    if s == [] {
      assert Places(s, p) == {};
    } else {
      var rest, last := s[..|s| - 1], s[|s| - 1];
      FilterCounts(rest, p);
      FilterLast(rest, last, p);
      OneMorePlace(rest, last, p);
      assert s == rest + [last];
    }
  }

  // ---- first row of a query ----

  function Find<T(!new)>(s: seq<T>, p: T -> bool): (r: Option<T>)
    ensures r.Some? ==> r.value in s && p(r.value)
    ensures r.None? ==> forall x | x in s :: !p(x)
  {
    if s == [] then None else if p(s[0]) then Some(s[0]) else Find(s[1..], p)
  }

  lemma {:induction false} FindConcat<T(!new)>(s: seq<T>, t: seq<T>, p: T -> bool)
    ensures Find(s + t, p) == if Find(s, p).Some? then Find(s, p) else Find(t, p)
  {
    if s == [] {
      assert s + t == t;
    } else {
      FindConcat(s[1..], t, p);
      assert (s + t)[1..] == s[1..] + t;
    }
  }

  // The row found is the first with the property, and one is found if there is any.
  lemma {:induction false} FindIsFirst<T(!new)>(s: seq<T>, p: T -> bool)
    ensures (exists x :: x in s && p(x)) <==> Find(s, p).Some?
    ensures Find(s, p).Some? ==>
              exists i :: 0 <= i < |s| && s[i] == Find(s, p).value && p(s[i]) && forall j | 0 <= j < i :: !p(s[j])
  {
    if s != [] && !p(s[0]) {
      FindIsFirst(s[1..], p);
      if Find(s, p).Some? {
        var i :| 0 <= i < |s[1..]| && s[1..][i] == Find(s, p).value && p(s[1..][i]) && forall j | 0 <= j < i :: !p(s[1..][j]);
        forall j | 0 <= j < i + 1 ensures !p(s[j]) {
          if j > 0 { assert s[j] == s[1..][j - 1]; }
        }
        assert s[i + 1] == Find(s, p).value;
      }
    }
  }

  lemma FindStays<T(!new)>(s: seq<T>, t: seq<T>, p: T -> bool)
    requires s <= t && Find(s, p).Some?
    ensures Find(t, p) == Find(s, p)
  {
    assert t == s + t[|s|..];
    FindConcat(s, t[|s|..], p);
  }

  lemma {:induction false} FindInFilter<T(!new)>(s: seq<T>, p: T -> bool, q: T -> bool, both: T -> bool)
    requires forall x | x in s :: both(x) == (p(x) && q(x))
    ensures Find(Filter(s, p), q) == Find(s, both)
  {
    if s != [] {
      FindInFilter(s[1..], p, q, both);
      if p(s[0]) { assert Filter(s, p)[1..] == Filter(s[1..], p); }
    }
  }

  // ---- UPDATE ... ----

  function MapSeq<A, B>(s: seq<A>, f: A -> B): (r: seq<B>)
    ensures |r| == |s|
    ensures forall i | 0 <= i < |s| :: r[i] == f(s[i])
  {
    seq(|s|, i requires 0 <= i < |s| => f(s[i]))
  }

  // A table keyed by k: no two rows share a key.
  ghost predicate Distinct<T, K(!new)>(s: seq<T>, key: T -> K) {
    forall i, j | 0 <= i < j < |s| :: key(s[i]) != key(s[j])
  }

  lemma SameKeySameRow<T(!new), K(!new)>(s: seq<T>, key: T -> K, a: T, b: T)
    requires Distinct(s, key) && a in s && b in s && key(a) == key(b)
    ensures a == b
  {
    var i :| 0 <= i < |s| && s[i] == a;
    var j :| 0 <= j < |s| && s[j] == b;
    assert !(i < j) && !(j < i);
  }

  lemma DistinctAppend<T(!new), K(!new)>(s: seq<T>, key: T -> K, x: T)
    requires Distinct(s, key) && forall y | y in s :: key(y) != key(x)
    ensures Distinct(s + [x], key)
  {
    forall i | 0 <= i < |s| ensures key(s[i]) != key(x) {
      assert s[i] in s;
    }
  }

  lemma DistinctPrefix<T(!new), K(!new)>(s: seq<T>, key: T -> K, n: nat)
    requires Distinct(s, key) && n <= |s|
    ensures Distinct(s[..n], key)
  {
    forall i, j | 0 <= i < j < n ensures key(s[..n][i]) != key(s[..n][j]) {
      assert key(s[i]) != key(s[j]);
    }
  }

  ghost predicate AllDifferent<T>(s: seq<T>) { forall i, j | 0 <= i < j < |s| :: s[i] != s[j] }

  lemma SetMinus<T>(a: set<T>, b: set<T>)
    requires b <= a
    ensures |a - b| == |a| - |b|
  {
    assert a == (a - b) + b;
  }

  // ---- a row written under its key: the row of that key is replaced, or one is added ----

  function Put<T, K(==)>(rows: seq<T>, row: T, key: T -> K): (r: seq<T>)
    ensures row in r
  {
    if rows == [] then [row]
    else if key(rows[0]) == key(row) then [row] + rows[1..]
    else [rows[0]] + Put(rows[1..], row, key)
  }

  lemma {:induction false} PutContents<T(!new), K(!new)>(rows: seq<T>, row: T, key: T -> K)
    requires Distinct(rows, key)
    ensures Distinct(Put(rows, row, key), key)
    ensures forall x :: x in Put(rows, row, key) <==> x == row || (x in rows && key(x) != key(row))
  {
    if rows != [] {
      var head, tail := rows[0], rows[1..];
      assert rows == [head] + tail;
      forall i | 0 <= i < |tail| ensures key(head) != key(tail[i]) {
        assert tail[i] == rows[i + 1];
      }
      if key(head) != key(row) {
        PutContents(tail, row, key);
        var t := Put(tail, row, key);
        forall j | 0 <= j < |t| ensures key(head) != key(t[j]) {
          assert t[j] in t;
        }
      }
    }
  }

  // LIMIT
  function Take<T>(s: seq<T>, limit: nat): seq<T> { if limit < |s| then s[..limit] else s }

  // ---- ORDER BY ----

  ghost predicate TotalPreorder<T(!new)>(le: (T, T) -> bool) {
    && (forall x, y :: le(x, y) || le(y, x))
    && (forall x, y, z :: le(x, y) && le(y, z) ==> le(x, z))
  }

  ghost predicate Sorted<T>(s: seq<T>, le: (T, T) -> bool) {
    forall i, j | 0 <= i < j < |s| :: le(s[i], s[j])
  }

  function Insert<T>(x: T, s: seq<T>, le: (T, T) -> bool): (r: seq<T>)
    ensures |r| == |s| + 1
  {
    if s == [] || le(x, s[0]) then [x] + s else [s[0]] + Insert(x, s[1..], le)
  }

  // A stable sort: rows that compare equal keep their table order.
  function Sort<T>(s: seq<T>, le: (T, T) -> bool): (r: seq<T>)
    ensures |r| == |s|
  {
    if s == [] then [] else Insert(s[0], Sort(s[1..], le), le)
  }

  lemma {:induction false} InsertContents<T>(x: T, s: seq<T>, le: (T, T) -> bool)
    ensures multiset(Insert(x, s, le)) == multiset{x} + multiset(s)
  {
    if s == [] || le(x, s[0]) {
    } else {
      InsertContents(x, s[1..], le);
      assert s == [s[0]] + s[1..];
    }
  }

  lemma {:induction false} SortContents<T>(s: seq<T>, le: (T, T) -> bool)
    ensures multiset(Sort(s, le)) == multiset(s)
    ensures forall x :: x in Sort(s, le) <==> x in s
  {
    if s != [] {
      SortContents(s[1..], le);
      InsertContents(s[0], Sort(s[1..], le), le);
      assert s == [s[0]] + s[1..];
    }
    forall x
      ensures x in Sort(s, le) <==> x in s
    {
      assert x in Sort(s, le) <==> x in multiset(Sort(s, le));
      assert x in s <==> x in multiset(s);
    }
  }

  lemma {:induction false} InsertSorted<T(!new)>(x: T, s: seq<T>, le: (T, T) -> bool)
    requires TotalPreorder(le) && Sorted(s, le)
    ensures Sorted(Insert(x, s, le), le)
  {
    if s == [] {
    } else if le(x, s[0]) {
      forall j | 0 <= j < |s| ensures le(x, s[j]) {
        assert le(s[0], s[0]);
        assert le(s[0], s[j]);
      }
    } else {
      InsertSorted(x, s[1..], le);
      InsertContents(x, s[1..], le);
      var t := Insert(x, s[1..], le);
      forall j | 0 <= j < |t| ensures le(s[0], t[j]) {
        assert t[j] in multiset(t);
        assert t[j] in multiset{x} + multiset(s[1..]);
        if t[j] != x {
          assert t[j] in s[1..];
        }
      }
    }
  }

  lemma {:induction false} SortSorted<T(!new)>(s: seq<T>, le: (T, T) -> bool)
    requires TotalPreorder(le)
    ensures Sorted(Sort(s, le), le)
  {
    if s != [] {
      SortSorted(s[1..], le);
      InsertSorted(s[0], Sort(s[1..], le), le);
    }
  }

  lemma {:induction false} InsertKeepsCount<T(!new)>(x: T, s: seq<T>, le: (T, T) -> bool, p: T -> bool)
    ensures |Filter(Insert(x, s, le), p)| == |Filter(s, p)| + if p(x) then 1 else 0
  {
    FilterCons(x, s, p);
    if s == [] || le(x, s[0]) {
    } else {
      InsertKeepsCount(x, s[1..], le, p);
      FilterCons(s[0], Insert(x, s[1..], le), p);
    }
  }

  lemma {:induction false} SortKeepsCount<T(!new)>(s: seq<T>, le: (T, T) -> bool, p: T -> bool)
    ensures |Filter(Sort(s, le), p)| == |Filter(s, p)|
  {
    if s != [] {
      SortKeepsCount(s[1..], le, p);
      InsertKeepsCount(s[0], Sort(s[1..], le), le, p);
    }
  }

  lemma {:induction false} InsertStable<T(!new)>(x: T, s: seq<T>, le: (T, T) -> bool, p: T -> bool)
    requires forall a, b | p(a) && p(b) :: le(a, b)
    ensures Filter(Insert(x, s, le), p) == if p(x) then [x] + Filter(s, p) else Filter(s, p)
  {
    FilterCons(x, s, p);
    if s != [] && !le(x, s[0]) {
      InsertStable(x, s[1..], le, p);
      FilterCons(s[0], Insert(x, s[1..], le), p);
    }
  }

  // Rows the order does not tell apart keep the order they had.
  lemma {:induction false} SortStable<T(!new)>(s: seq<T>, le: (T, T) -> bool, p: T -> bool)
    requires forall a, b | p(a) && p(b) :: le(a, b)
    ensures Filter(Sort(s, le), p) == Filter(s, p)
  {
    if s != [] {
      SortStable(s[1..], le, p);
      InsertStable(s[0], Sort(s[1..], le), le, p);
    }
  }

  lemma {:induction false} DistinctOnce<T(!new), K(!new)>(s: seq<T>, key: T -> K)
    requires Distinct(s, key)
    ensures forall x :: multiset(s)[x] <= 1
  {
    if s != [] {
      DistinctOnce(s[1..], key);
      assert s == [s[0]] + s[1..];
      assert s[0] !in s[1..];
    }
  }

  // Sorting moves rows but keeps a key distinct.
  lemma {:induction false} DistinctPermuted<T(!new), K(!new)>(s: seq<T>, t: seq<T>, key: T -> K)
    requires multiset(s) == multiset(t) && Distinct(s, key)
    ensures Distinct(t, key)
  {
    DistinctOnce(s, key);
    forall i, j | 0 <= i < j < |t|
      ensures key(t[i]) != key(t[j])
    {
      assert t[i] in multiset(s) && t[j] in multiset(s);
      if key(t[i]) == key(t[j]) {
        SplitCount(t, i, j);
      }
    }
  }

  lemma {:induction false} SplitCount<T>(t: seq<T>, i: nat, j: nat)
    requires i < j < |t| && t[i] == t[j]
    ensures multiset(t)[t[i]] >= 2
  {
    assert t == t[..j] + t[j..];
    assert t[i] in t[..j] && t[j] in t[j..] by { assert t[..j][i] == t[i]; assert t[j..][0] == t[j]; }
  }

  lemma {:induction false} DistinctFilter<T(!new), K(!new)>(s: seq<T>, p: T -> bool, key: T -> K)
    requires Distinct(s, key)
    ensures Distinct(Filter(s, p), key)
  {
    if s != [] {
      DistinctFilter(s[1..], p, key);
      forall j | 0 <= j < |Filter(s[1..], p)|
        ensures key(s[0]) != key(Filter(s[1..], p)[j])
      {
        assert Filter(s[1..], p)[j] in s[1..];
      }
    }
  }

  // ---- the same rows in another order ----

  lemma {:induction false} FilterContents<T(!new)>(s: seq<T>, p: T -> bool)
    ensures forall x :: multiset(Filter(s, p))[x] == if p(x) then multiset(s)[x] else 0
  {
    if s != [] {
      FilterContents(s[1..], p);
      assert s == [s[0]] + s[1..];
      assert Filter(s, p) == (if p(s[0]) then [s[0]] else []) + Filter(s[1..], p);
    }
  }

  lemma FilterPermuted<T(!new)>(s: seq<T>, t: seq<T>, p: T -> bool)
    requires multiset(s) == multiset(t)
    ensures multiset(Filter(s, p)) == multiset(Filter(t, p)) && |Filter(s, p)| == |Filter(t, p)|
  {
    FilterContents(s, p);
    FilterContents(t, p);
    assert |multiset(Filter(s, p))| == |multiset(Filter(t, p))|;
  }

  lemma {:induction false} FilterFilter<T(!new)>(s: seq<T>, p: T -> bool, q: T -> bool, both: T -> bool)
    requires forall x | x in s :: both(x) == (p(x) && q(x))
    ensures Filter(Filter(s, p), q) == Filter(s, both)
  {
    if s != [] {
      FilterFilter(s[1..], p, q, both);
      FilterCons(s[0], Filter(s[1..], p), q);
    }
  }

  lemma MapCons<A, B>(x: A, s: seq<A>, f: A -> B)
    ensures MapSeq([x] + s, f) == [f(x)] + MapSeq(s, f)
  {}

  lemma {:induction false} FilterOfMap<A(!new), B(!new)>(s: seq<A>, f: A -> B, p: B -> bool, q: A -> bool)
    requires forall x | x in s :: q(x) == p(f(x))
    ensures Filter(MapSeq(s, f), p) == MapSeq(Filter(s, q), f)
  {
    if s == [] {
      assert MapSeq(s, f) == [] && MapSeq(Filter(s, q), f) == [];
    } else {
      var head, tail := s[0], s[1..];
      FilterOfMap(tail, f, p, q);
      MapCons(head, tail, f);
      MapCons(head, Filter(tail, q), f);
      FilterCons(f(head), MapSeq(tail, f), p);
      FilterCons(head, tail, q);
      assert s == [head] + tail;
    }
  }

  // A row taken out of the middle.
  lemma TakenOut<T>(s: seq<T>, i: nat)
    requires i < |s|
    ensures multiset(s) == multiset{s[i]} + multiset(s[..i] + s[i + 1..])
  {
    assert s == s[..i] + [s[i]] + s[i + 1..];
  }

  lemma SameRest<T>(s: seq<T>, t: seq<T>, i: nat)
    requires s != [] && i < |t| && t[i] == s[0] && multiset(s) == multiset(t)
    ensures multiset(s[1..]) == multiset(t[..i] + t[i + 1..])
  {
    assert s == [s[0]] + s[1..];
    assert multiset(s[1..]) == multiset(s) - multiset{s[0]};
    TakenOut(t, i);
  }

  lemma MapTakenOut<A, B>(s: seq<A>, i: nat, rest: seq<A>, f: A -> B)
    requires i < |s| && rest == s[..i] + s[i + 1..]
    ensures multiset(MapSeq(s, f)) == multiset{f(s[i])} + multiset(MapSeq(rest, f))
  {
    var mapped := MapSeq(s, f);
    TakenOut(mapped, i);
    assert mapped[..i] + mapped[i + 1..] == MapSeq(rest, f);
  }

  lemma MapGrows<A, B>(s: seq<A>, sRest: seq<A>, t: seq<A>, i: nat, tRest: seq<A>, f: A -> B)
    requires s != [] && sRest == s[1..] && i < |t| && t[i] == s[0] && tRest == t[..i] + t[i + 1..]
    requires multiset(MapSeq(sRest, f)) == multiset(MapSeq(tRest, f))
    ensures multiset(MapSeq(s, f)) == multiset(MapSeq(t, f))
  {
    assert sRest == s[..0] + s[1..];
    MapTakenOut(s, 0, sRest, f);
    MapTakenOut(t, i, tRest, f);
  }

  lemma {:induction false} MapPermuted<A, B>(s: seq<A>, t: seq<A>, f: A -> B)
    requires multiset(s) == multiset(t)
    ensures multiset(MapSeq(s, f)) == multiset(MapSeq(t, f))
  {
    if s == [] {
      assert |multiset(t)| == 0;
    } else {
      assert s[0] in multiset(t);
      var i :| 0 <= i < |t| && t[i] == s[0];
      SameRest(s, t, i);
      MapPermuted(s[1..], t[..i] + t[i + 1..], f);
      MapGrows(s, s[1..], t, i, t[..i] + t[i + 1..], f);
    }
  }

  // ---- quotients ----

  lemma QuotientIs(k: nat, d: nat, q: nat)
    requires d >= 1 && d * q <= k < d * (q + 1)
    ensures k / d == q
  {
    var p := k / d;
    assert d * p <= k < d * (p + 1);
    if p < q { MultiplyLe(d, p + 1, q); }
    if q < p { MultiplyLe(d, q + 1, p); }
  }

  lemma MultiplyLe(d: nat, x: nat, y: nat)
    requires x <= y
    ensures d * x <= d * y
  {}
}
