/** Generic operations over tables held as sequences of records: the pandas
    operations the engine is built from (column sums, boolean-mask filters,
    group-by-sum, `sort_values`/`sort_index`, `cumsum`, `drop_duplicates`),
    with the facts about them that the rest of the model relies on. */
module Tables {

  function Abs(x: real): (r: real)
    ensures r >= 0.0 && (r == x || r == -x)
  {
    if x < 0.0 then -x else x
  }

  /** `Series.sum()` over a column of reals; the empty sum is 0. */
  function Total(xs: seq<real>): real
  {
    if |xs| == 0 then 0.0 else Total(xs[..|xs| - 1]) + xs[|xs| - 1]
  }

  lemma {:induction false} TotalConcat(a: seq<real>, b: seq<real>)
    ensures Total(a + b) == Total(a) + Total(b)
  {
    if |b| == 0 {
      assert a + b == a;
    } else {
      TotalConcat(a, b[..|b| - 1]);
      assert (a + b)[..|a + b| - 1] == a + b[..|b| - 1];
    }
  }

  /** The column `val` of a table. */
  function Column<R>(rows: seq<R>, val: R -> real): (c: seq<real>)
    ensures |c| == |rows|
    ensures forall i :: 0 <= i < |rows| ==> c[i] == val(rows[i])
  {
    seq(|rows|, i requires 0 <= i < |rows| => val(rows[i]))
  }

  /** Sum of the column `val` of a table. */
  function Sum<R>(rows: seq<R>, val: R -> real): real
  {
    Total(Column(rows, val))
  }

  lemma SumConcat<R>(a: seq<R>, b: seq<R>, val: R -> real)
    ensures Sum(a + b, val) == Sum(a, val) + Sum(b, val)
  {
    assert Column(a + b, val) == Column(a, val) + Column(b, val);
    TotalConcat(Column(a, val), Column(b, val));
  }

  lemma SumSnoc<R>(a: seq<R>, x: R, val: R -> real)
    ensures Sum(a + [x], val) == Sum(a, val) + val(x)
  {
    SumConcat(a, [x], val);
    assert Column([x], val) == [val(x)];
    assert Total([val(x)]) == Total([]) + val(x);
  }

  /** A column that is, row by row, a constant multiple of a column of another
      table of the same length sums to that multiple of its sum. */
  lemma {:induction false} SumScale<R, S>(a: seq<R>, f: R -> real, b: seq<S>, g: S -> real, c: real)
    requires |a| == |b|
    requires forall i :: 0 <= i < |a| ==> f(a[i]) == c * g(b[i])
    ensures Sum(a, f) == c * Sum(b, g)
  {
    if |a| > 0 {
      var a', x := a[..|a| - 1], a[|a| - 1];
      var b', y := b[..|b| - 1], b[|b| - 1];
      assert a == a' + [x] && b == b' + [y];
      SumScale(a', f, b', g, c);
      SumSnoc(a', x, f);
      SumSnoc(b', y, g);
    }
  }

  /** The rows of `rows` that satisfy `keep`, in their original order (a boolean mask). */
  function Filter<R>(rows: seq<R>, keep: R -> bool): seq<R>
  {
    if |rows| == 0 then []
    else
      var last := rows[|rows| - 1];
      Filter(rows[..|rows| - 1], keep) + (if keep(last) then [last] else [])
  }

  lemma {:induction false} FilterMembers<R>(rows: seq<R>, keep: R -> bool)
    ensures |Filter(rows, keep)| <= |rows|
    ensures forall x :: x in Filter(rows, keep) <==> x in rows && keep(x)
  {
    if |rows| > 0 {
      var p := rows[..|rows| - 1];
      FilterMembers(p, keep);
      assert rows == p + [rows[|rows| - 1]];
    }
  }

  lemma {:induction false} FilterConcat<R>(a: seq<R>, b: seq<R>, keep: R -> bool)
    ensures Filter(a + b, keep) == Filter(a, keep) + Filter(b, keep)
  {
    if |b| == 0 {
      assert a + b == a;
    } else {
      FilterConcat(a, b[..|b| - 1], keep);
      assert (a + b)[..|a + b| - 1] == a + b[..|b| - 1];
    }
  }

  lemma {:induction false} FilterAll<R>(rows: seq<R>, keep: R -> bool)
    requires forall i :: 0 <= i < |rows| ==> keep(rows[i])
    ensures Filter(rows, keep) == rows
  {
    if |rows| > 0 {
      FilterAll(rows[..|rows| - 1], keep);
      assert rows == rows[..|rows| - 1] + [rows[|rows| - 1]];
    }
  }

  lemma {:induction false} FilterNone<R>(rows: seq<R>, keep: R -> bool)
    requires forall i :: 0 <= i < |rows| ==> !keep(rows[i])
    ensures Filter(rows, keep) == []
  {
    if |rows| > 0 {
      FilterNone(rows[..|rows| - 1], keep);
    }
  }

  /** No element occurs twice. */
  predicate NoDup<K(==)>(s: seq<K>)
  {
    forall i, j :: 0 <= i < j < |s| ==> s[i] != s[j]
  }

  /** The distinct elements of `s` in order of first occurrence. */
  function Distinct<K(==)>(s: seq<K>): seq<K>
  {
    if |s| == 0 then []
    else
      var d := Distinct(s[..|s| - 1]);
      if s[|s| - 1] in d then d else d + [s[|s| - 1]]
  }

  lemma {:induction false} DistinctProps<K>(s: seq<K>)
    ensures NoDup(Distinct(s))
    ensures forall x :: x in Distinct(s) <==> x in s
    ensures forall i :: 0 <= i < |Distinct(s)| ==> Distinct(s)[i] in s
  {
    if |s| > 0 {
      DistinctProps(s[..|s| - 1]);
      assert s == s[..|s| - 1] + [s[|s| - 1]];
    }
  }

  /** The elements of `s` are in non-decreasing order of `rank`. */
  predicate SortedBy<T>(s: seq<T>, rank: T -> real)
  {
    forall i, j :: 0 <= i < j < |s| ==> rank(s[i]) <= rank(s[j])
  }

  /** A strictly increasing sequence of reals. */
  predicate StrictlyIncreasing(s: seq<real>)
  {
    forall i, j :: 0 <= i < j < |s| ==> s[i] < s[j]
  }

  lemma {:induction false} DistinctOfSorted<T>(s: seq<T>, rank: T -> real)
    requires SortedBy(s, rank)
    ensures SortedBy(Distinct(s), rank)
  {
    if |s| > 0 {
      var p := s[..|s| - 1];
      var x := s[|s| - 1];
      DistinctOfSorted(p, rank);
      DistinctProps(p);
      var d := Distinct(p);
      if x !in d {
        forall i | 0 <= i < |d| ensures rank(d[i]) <= rank(x) {
          assert d[i] in p;
          var k :| 0 <= k < |p| && p[k] == d[i];
          assert s[k] == d[i];
        }
      }
    }
  }

  /** Insertion of `x` into `s` ahead of the first element whose rank is not smaller;
      sorting from the back with it keeps equal-rank elements in their original order. */
  function Insert<T>(x: T, s: seq<T>, rank: T -> real): seq<T>
  {
    if |s| == 0 then [x]
    else if rank(x) <= rank(s[0]) then [x] + s
    else [s[0]] + Insert(x, s[1..], rank)
  }

  /** Stable ascending sort by `rank` (`sort_values(kind="stable")`). */
  function SortBy<T>(s: seq<T>, rank: T -> real): seq<T>
  {
    if |s| == 0 then [] else Insert(s[0], SortBy(s[1..], rank), rank)
  }

  lemma {:induction false} InsertProps<T>(x: T, s: seq<T>, rank: T -> real)
    requires SortedBy(s, rank)
    ensures SortedBy(Insert(x, s, rank), rank)
    ensures multiset(Insert(x, s, rank)) == multiset(s) + multiset{x}
  {
    if |s| > 0 && rank(x) > rank(s[0]) {
      var u := s[1..];
      assert SortedBy(u, rank);
      InsertProps(x, u, rank);
      InsertBehind(x, s, Insert(x, u, rank), rank);
    } else if |s| > 0 {
      InsertAhead(x, s, rank);
    }
  }

  /** `x` ranked above the head goes behind it, into the sorted tail. */
  lemma InsertBehind<T>(x: T, s: seq<T>, t: seq<T>, rank: T -> real)
    requires SortedBy(s, rank) && |s| > 0 && rank(x) > rank(s[0])
    requires t == Insert(x, s[1..], rank)
    requires SortedBy(t, rank) && multiset(t) == multiset(s[1..]) + multiset{x}
    ensures SortedBy(Insert(x, s, rank), rank)
    ensures multiset(Insert(x, s, rank)) == multiset(s) + multiset{x}
  {
    var u := s[1..];
    assert Insert(x, s, rank) == [s[0]] + t;
    assert multiset(s) == multiset{s[0]} + multiset(u) by {
      assert s == [s[0]] + u;
    }
    assert forall k :: 0 <= k < |u| ==> rank(s[0]) <= rank(u[k]) by {
      assert forall k :: 0 <= k < |u| ==> u[k] == s[k + 1];
    }
    LowerBoundKept(t, u, x, rank, rank(s[0]));
    ConsSorted(s[0], t, rank);
  }

  /** `x` ranked no higher than the head goes in front. */
  lemma InsertAhead<T>(x: T, s: seq<T>, rank: T -> real)
    requires SortedBy(s, rank) && |s| > 0 && rank(x) <= rank(s[0])
    ensures SortedBy(Insert(x, s, rank), rank)
    ensures multiset(Insert(x, s, rank)) == multiset(s) + multiset{x}
  {
    assert Insert(x, s, rank) == [x] + s;
    assert forall k :: 0 <= k < |s| ==> rank(s[0]) <= rank(s[k]);
    ConsSorted(x, s, rank);
  }

  /** A permutation of `u` plus `x` keeps a lower bound on rank that `u` and `x` both
      respect. */
  lemma LowerBoundKept<T>(t: seq<T>, u: seq<T>, x: T, rank: T -> real, b: real)
    requires multiset(t) == multiset(u) + multiset{x}
    requires forall k :: 0 <= k < |u| ==> b <= rank(u[k])
    requires b <= rank(x)
    ensures forall j :: 0 <= j < |t| ==> b <= rank(t[j])
  {
    forall j | 0 <= j < |t| ensures b <= rank(t[j]) {
      assert t[j] in multiset(t);
      if t[j] != x {
        assert t[j] in multiset(u);
        var k :| 0 <= k < |u| && u[k] == t[j];
      }
    }
  }

  /** A sorted sequence stays sorted with an element no greater than all of it in front. */
  lemma ConsSorted<T>(y: T, t: seq<T>, rank: T -> real)
    requires SortedBy(t, rank)
    requires forall j :: 0 <= j < |t| ==> rank(y) <= rank(t[j])
    ensures SortedBy([y] + t, rank)
  {
    var r := [y] + t;
    forall i, j | 0 <= i < j < |r| ensures rank(r[i]) <= rank(r[j]) {
      assert r[j] == t[j - 1];
      if i > 0 {
        assert r[i] == t[i - 1];
      }
    }
  }

  lemma {:induction false} SortByProps<T>(s: seq<T>, rank: T -> real)
    ensures SortedBy(SortBy(s, rank), rank)
    ensures multiset(SortBy(s, rank)) == multiset(s)
    ensures |SortBy(s, rank)| == |s|
  {
    if |s| > 0 {
      SortByProps(s[1..], rank);
      InsertProps(s[0], SortBy(s[1..], rank), rank);
      assert s == [s[0]] + s[1..];
    }
    assert |multiset(SortBy(s, rank))| == |multiset(s)|;
  }

  /** The sum of `val` over the rows whose `key` is `k`. */
  function SumAt<R, K(==)>(rows: seq<R>, key: R -> K, val: R -> real, k: K): real
  {
    if |rows| == 0 then 0.0
    else
      var last := rows[|rows| - 1];
      SumAt(rows[..|rows| - 1], key, val, k) + (if key(last) == k then val(last) else 0.0)
  }

  /** One `(k, sum of val over rows with key k)` entry per element of `ks`, in the
      order of `ks`: `groupby(key)[val].sum()` once `ks` lists the distinct keys. */
  function GroupOver<R, K(==)>(rows: seq<R>, key: R -> K, val: R -> real, ks: seq<K>): (g: seq<(K, real)>)
    ensures |g| == |ks|
    ensures forall i :: 0 <= i < |ks| ==> g[i] == (ks[i], SumAt(rows, key, val, ks[i]))
  {
    if |ks| == 0 then []
    else GroupOver(rows, key, val, ks[..|ks| - 1]) + [(ks[|ks| - 1], SumAt(rows, key, val, ks[|ks| - 1]))]
  }

  /** The value column of a grouped result. */
  function Values<K>(g: seq<(K, real)>): (v: seq<real>)
    ensures |v| == |g| && forall i :: 0 <= i < |g| ==> v[i] == g[i].1
  {
    seq(|g|, i requires 0 <= i < |g| => g[i].1)
  }

  /** The key column of a grouped result. */
  function Keys<K>(g: seq<(K, real)>): (v: seq<K>)
    ensures |v| == |g| && forall i :: 0 <= i < |g| ==> v[i] == g[i].0
  {
    seq(|g|, i requires 0 <= i < |g| => g[i].0)
  }

  /** The sum, over the keys `ks`, of `val(x)` counted at the key of `x`. */
  function Indicator<R, K(==)>(x: R, key: R -> K, val: R -> real, ks: seq<K>): real
  {
    if |ks| == 0 then 0.0
    else Indicator(x, key, val, ks[..|ks| - 1]) + (if key(x) == ks[|ks| - 1] then val(x) else 0.0)
  }

  lemma {:induction false} IndicatorOnce<R, K>(x: R, key: R -> K, val: R -> real, ks: seq<K>)
    requires NoDup(ks)
    ensures Indicator(x, key, val, ks) == if key(x) in ks then val(x) else 0.0
  {
    if |ks| > 0 {
      var q := ks[..|ks| - 1];
      IndicatorOnce(x, key, val, q);
      assert ks == q + [ks[|ks| - 1]];
      if key(x) == ks[|ks| - 1] {
        assert key(x) !in q;
      }
    }
  }

  lemma {:induction false} GroupOverSnoc<R, K>(p: seq<R>, x: R, key: R -> K, val: R -> real, ks: seq<K>)
    ensures Total(Values(GroupOver(p + [x], key, val, ks)))
         == Total(Values(GroupOver(p, key, val, ks))) + Indicator(x, key, val, ks)
  {
    if |ks| > 0 {
      var q := ks[..|ks| - 1];
      var k := ks[|ks| - 1];
      GroupOverSnoc(p, x, key, val, q);
      SumAtSnoc(p, x, key, val, k);
      LastGroup(p + [x], key, val, ks);
      LastGroup(p, key, val, ks);
    }
  }

  /** The grouped total over `ks` is the total over all but the last key plus the
      sum at the last key. */
  lemma LastGroup<R, K>(rows: seq<R>, key: R -> K, val: R -> real, ks: seq<K>)
    requires |ks| > 0
    ensures Total(Values(GroupOver(rows, key, val, ks)))
         == Total(Values(GroupOver(rows, key, val, ks[..|ks| - 1]))) + SumAt(rows, key, val, ks[|ks| - 1])
  {
    var v := Values(GroupOver(rows, key, val, ks));
    assert v[..|ks| - 1] == Values(GroupOver(rows, key, val, ks[..|ks| - 1]));
  }

  /** Group-by consistency: when `ks` lists every key once, the group sums add up to
      the sum of the whole column. */
  lemma {:induction false} GroupTotal<R, K>(rows: seq<R>, key: R -> K, val: R -> real, ks: seq<K>)
    requires NoDup(ks)
    requires forall i :: 0 <= i < |rows| ==> key(rows[i]) in ks
    ensures Total(Values(GroupOver(rows, key, val, ks))) == Sum(rows, val)
  {
    if |rows| == 0 {
      GroupZero(rows, key, val, ks);
    } else {
      var p := rows[..|rows| - 1];
      var x := rows[|rows| - 1];
      assert rows == p + [x];
      GroupTotal(p, key, val, ks);
      GroupOverSnoc(p, x, key, val, ks);
      IndicatorOnce(x, key, val, ks);
      SumSnoc(p, x, val);
    }
  }

  lemma {:induction false} GroupZero<R, K>(rows: seq<R>, key: R -> K, val: R -> real, ks: seq<K>)
    requires |rows| == 0
    ensures Total(Values(GroupOver(rows, key, val, ks))) == 0.0
  {
    if |ks| > 0 {
      GroupZero(rows, key, val, ks[..|ks| - 1]);
      assert Values(GroupOver(rows, key, val, ks))[..|ks| - 1] == Values(GroupOver(rows, key, val, ks[..|ks| - 1]));
    }
  }

  /** `cumsum()`: the running totals of `xs`. */
  function PrefixSums(xs: seq<real>): seq<real>
  {
    if |xs| == 0 then []
    else
      var p := PrefixSums(xs[..|xs| - 1]);
      p + [(if |p| == 0 then 0.0 else p[|p| - 1]) + xs[|xs| - 1]]
  }

  /** Entry `i` of the running totals is the sum of the first `i + 1` values. */
  lemma {:induction false} PrefixSumsAt(xs: seq<real>)
    ensures |PrefixSums(xs)| == |xs|
    ensures forall i :: 0 <= i < |xs| ==> PrefixSums(xs)[i] == Total(xs[..i + 1])
  {
    if |xs| > 0 {
      var q := xs[..|xs| - 1];
      PrefixSumsAt(q);
      forall i | 0 <= i < |q| ensures PrefixSums(xs)[i] == Total(xs[..i + 1]) {
        assert xs[..i + 1] == q[..i + 1];
      }
      assert xs[..|xs|] == xs;
      if |q| > 0 {
        assert q[..|q|] == q;
      }
    }
  }

  /** Each running total is the previous one plus the next value. */
  lemma {:induction false} PrefixSumsStep(xs: seq<real>)
    ensures |PrefixSums(xs)| == |xs|
    ensures |xs| > 0 ==> PrefixSums(xs)[0] == xs[0]
    ensures forall i :: 0 < i < |xs| ==> PrefixSums(xs)[i] == PrefixSums(xs)[i - 1] + xs[i]
  {
    if |xs| > 0 {
      var q := xs[..|xs| - 1];
      PrefixSumsStep(q);
      var p := PrefixSums(q);
      assert PrefixSums(xs) == p + [(if |p| == 0 then 0.0 else p[|p| - 1]) + xs[|xs| - 1]];
      forall i | 0 < i < |xs| ensures PrefixSums(xs)[i] == PrefixSums(xs)[i - 1] + xs[i] {
        if i < |q| {
          assert q[i] == xs[i];
        }
      }
    }
  }

  /** The products `xs[i] * ws[i]`, summed. */
  function Dot(xs: seq<real>, ws: seq<real>): real
    requires |xs| == |ws|
  {
    if |xs| == 0 then 0.0
    else Dot(xs[..|xs| - 1], ws[..|xs| - 1]) + xs[|xs| - 1] * ws[|xs| - 1]
  }

  /** A non-negatively weighted sum of values in `[lo, hi]` lies between `lo` and `hi`
      times the total weight. */
  lemma DotBounds(xs: seq<real>, ws: seq<real>, lo: real, hi: real)
    requires |xs| == |ws|
    requires forall i :: 0 <= i < |xs| ==> lo <= xs[i] <= hi && ws[i] >= 0.0
    ensures lo * Total(ws) <= Dot(xs, ws) <= hi * Total(ws)
  {
    DotAbove(xs, ws, lo);
    DotBelow(xs, ws, hi);
  }

  lemma {:induction false} DotAbove(xs: seq<real>, ws: seq<real>, lo: real)
    requires |xs| == |ws|
    requires forall i :: 0 <= i < |xs| ==> lo <= xs[i] && ws[i] >= 0.0
    ensures lo * Total(ws) <= Dot(xs, ws)
  {
    if |xs| > 0 {
      var n := |xs| - 1;
      DotAbove(xs[..n], ws[..n], lo);
      DotSnoc(xs, ws);
      StepAbove(lo, Total(ws[..n]), Dot(xs[..n], ws[..n]), xs[n], ws[n], Total(ws), Dot(xs, ws));
    }
  }

  lemma {:induction false} DotBelow(xs: seq<real>, ws: seq<real>, hi: real)
    requires |xs| == |ws|
    requires forall i :: 0 <= i < |xs| ==> xs[i] <= hi && ws[i] >= 0.0
    ensures Dot(xs, ws) <= hi * Total(ws)
  {
    if |xs| > 0 {
      var n := |xs| - 1;
      DotBelow(xs[..n], ws[..n], hi);
      DotSnoc(xs, ws);
      StepBelow(hi, Total(ws[..n]), Dot(xs[..n], ws[..n]), xs[n], ws[n], Total(ws), Dot(xs, ws));
    }
  }

  /** The last term of a weighted sum and of its total weight, split off. */
  lemma DotSnoc(xs: seq<real>, ws: seq<real>)
    requires |xs| == |ws| > 0
    ensures var n := |xs| - 1;
      Total(ws) == Total(ws[..n]) + ws[n] && Dot(xs, ws) == Dot(xs[..n], ws[..n]) + xs[n] * ws[n] &&
      forall i :: 0 <= i < n ==> xs[..n][i] == xs[i] && ws[..n][i] == ws[i]
  {
  }

  /** One more weighted term `x * w` keeps a weighted sum `d` of total weight `t`
      above its lower bound. */
  lemma StepAbove(lo: real, t: real, d: real, x: real, w: real, t': real, d': real)
    requires lo * t <= d && lo <= x && w >= 0.0
    requires t' == t + w && d' == d + x * w
    ensures lo * t' <= d'
  {
    assert (x - lo) * w >= 0.0;
    assert lo * t' == lo * t + lo * w;
  }

  /** One more weighted term `x * w` keeps a weighted sum `d` of total weight `t`
      below its upper bound. */
  lemma StepBelow(hi: real, t: real, d: real, x: real, w: real, t': real, d': real)
    requires d <= hi * t && x <= hi && w >= 0.0
    requires t' == t + w && d' == d + x * w
    ensures d' <= hi * t'
  {
    assert (hi - x) * w >= 0.0;
    assert hi * t' == hi * t + hi * w;
  }

  /** `s[:n]` for a non-negative `n`. */
  function Take<T>(s: seq<T>, n: nat): (t: seq<T>)
    ensures |t| <= n && |t| <= |s| && t == s[..|t|]
    ensures |s| <= n ==> t == s
  {
    if n <= |s| then s[..n] else s
  }

  /** The column `f` of a table, for any column type. */
  function Project<R, K>(rows: seq<R>, f: R -> K): (c: seq<K>)
    ensures |c| == |rows|
    ensures forall i :: 0 <= i < |rows| ==> c[i] == f(rows[i])
  {
    seq(|rows|, i requires 0 <= i < |rows| => f(rows[i]))
  }

  lemma ProjectMembers<R, K>(rows: seq<R>, f: R -> K)
    ensures forall r :: r in rows ==> f(r) in Project(rows, f)
    ensures forall k :: k in Project(rows, f) ==> exists r :: r in rows && f(r) == k
  {
    var c := Project(rows, f);
    forall r | r in rows ensures f(r) in c {
      var i :| 0 <= i < |rows| && rows[i] == r;
      assert c[i] == f(r);
    }
    forall k | k in c ensures exists r :: r in rows && f(r) == k {
      var i :| 0 <= i < |c| && c[i] == k;
      assert rows[i] in rows;
    }
  }

  /** The distinct values of `s` in ascending order of `rank` (`groupby` keys,
      `sort_index`). */
  function SortedUnique<T(==)>(s: seq<T>, rank: T -> real): seq<T>
  {
    Distinct(SortBy(s, rank))
  }

  lemma SortedUniqueProps<T>(s: seq<T>, rank: T -> real)
    ensures SortedBy(SortedUnique(s, rank), rank)
    ensures NoDup(SortedUnique(s, rank))
    ensures forall x :: x in SortedUnique(s, rank) <==> x in s
    ensures forall i :: 0 <= i < |SortedUnique(s, rank)| ==> SortedUnique(s, rank)[i] in s
  {
    var t := SortBy(s, rank);
    SortByProps(s, rank);
    DistinctOfSorted(t, rank);
    DistinctProps(t);
    forall x ensures x in t <==> x in s {
      assert x in t <==> x in multiset(t);
      assert x in s <==> x in multiset(s);
    }
    var d := Distinct(t);
    forall i | 0 <= i < |d| ensures d[i] in s {
      assert d[i] in t;
    }
  }

  /** Sorted without repeats is strictly increasing when the rank is injective. */
  lemma StrictlyIncreasingReals(s: seq<real>, rank: real -> real)
    requires SortedBy(s, rank) && NoDup(s)
    requires forall i :: 0 <= i < |s| ==> rank(s[i]) == s[i]
    ensures StrictlyIncreasing(s)
  {
    forall i, j | 0 <= i < j < |s| ensures s[i] < s[j] {
      assert rank(s[i]) <= rank(s[j]);
    }
  }

  lemma KeysGroupOver<R, K>(rows: seq<R>, key: R -> K, val: R -> real, ks: seq<K>)
    ensures Keys(GroupOver(rows, key, val, ks)) == ks
  {
  }

  /** Dropping rows never changes a group whose key the filter keeps whole. */
  lemma {:induction false} SumAtFilter<R, K>(rows: seq<R>, keep: R -> bool, key: R -> K, val: R -> real, k: K)
    requires forall i :: 0 <= i < |rows| && key(rows[i]) == k ==> keep(rows[i])
    ensures SumAt(Filter(rows, keep), key, val, k) == SumAt(rows, key, val, k)
  {
    if |rows| > 0 {
      var p := rows[..|rows| - 1];
      var x := rows[|rows| - 1];
      SumAtFilter(p, keep, key, val, k);
      if keep(x) {
        assert Filter(rows, keep) == Filter(p, keep) + [x];
        SumAtSnoc(Filter(p, keep), x, key, val, k);
      } else {
        assert Filter(rows, keep) == Filter(p, keep);
      }
    }
  }

  lemma SumAtSnoc<R, K>(a: seq<R>, x: R, key: R -> K, val: R -> real, k: K)
    ensures SumAt(a + [x], key, val, k) == SumAt(a, key, val, k) + (if key(x) == k then val(x) else 0.0)
  {
    assert (a + [x])[..|a + [x]| - 1] == a;
  }

  /** A key no row carries sums to 0. */
  lemma {:induction false} SumAtAbsent<R, K>(rows: seq<R>, key: R -> K, val: R -> real, k: K)
    requires forall i :: 0 <= i < |rows| ==> key(rows[i]) != k
    ensures SumAt(rows, key, val, k) == 0.0
  {
    if |rows| > 0 {
      SumAtAbsent(rows[..|rows| - 1], key, val, k);
    }
  }

  /** When every row satisfies exactly one of `p` and `q`, the two filtered sums add
      up to the whole sum. */
  lemma {:induction false} SumSplit<R>(rows: seq<R>, p: R -> bool, q: R -> bool, val: R -> real)
    requires forall i :: 0 <= i < |rows| ==> (p(rows[i]) <==> !q(rows[i]))
    ensures Sum(Filter(rows, p), val) + Sum(Filter(rows, q), val) == Sum(rows, val)
  {
    if |rows| == 0 {
      assert Filter(rows, p) == [] && Filter(rows, q) == [];
    } else {
      var a := rows[..|rows| - 1];
      var x := rows[|rows| - 1];
      SumSplit(a, p, q, val);
      assert rows == a + [x];
      SumSnoc(a, x, val);
      if p(x) {
        assert Filter(rows, p) == Filter(a, p) + [x];
        SumSnoc(Filter(a, p), x, val);
        assert Filter(rows, q) == Filter(a, q);
      } else {
        assert Filter(rows, q) == Filter(a, q) + [x];
        SumSnoc(Filter(a, q), x, val);
        assert Filter(rows, p) == Filter(a, p);
      }
    }
  }

  /** The three-way version of `SumSplit`. */
  /** Two disjoint masks whose union is a third split that mask's sum. */
  lemma {:induction false} SumPartition<R>(rows: seq<R>, p: R -> bool, q: R -> bool, o: R -> bool, val: R -> real)
    requires forall i :: 0 <= i < |rows| ==> (o(rows[i]) <==> p(rows[i]) || q(rows[i])) && !(p(rows[i]) && q(rows[i]))
    ensures Sum(Filter(rows, p), val) + Sum(Filter(rows, q), val) == Sum(Filter(rows, o), val)
  {
    if |rows| == 0 {
      assert Filter(rows, p) == [] && Filter(rows, q) == [] && Filter(rows, o) == [];
    } else {
      var a := rows[..|rows| - 1];
      var x := rows[|rows| - 1];
      SumPartition(a, p, q, o, val);
      assert rows == a + [x];
      if p(x) {
        assert Filter(rows, p) == Filter(a, p) + [x];
        assert Filter(rows, o) == Filter(a, o) + [x];
        SumSnoc(Filter(a, p), x, val);
        SumSnoc(Filter(a, o), x, val);
        assert Filter(rows, q) == Filter(a, q);
      } else if q(x) {
        assert Filter(rows, q) == Filter(a, q) + [x];
        assert Filter(rows, o) == Filter(a, o) + [x];
        SumSnoc(Filter(a, q), x, val);
        SumSnoc(Filter(a, o), x, val);
        assert Filter(rows, p) == Filter(a, p);
      } else {
        assert Filter(rows, p) == Filter(a, p);
        assert Filter(rows, q) == Filter(a, q);
        assert Filter(rows, o) == Filter(a, o);
      }
    }
  }

  lemma {:induction false} SumSplit3<R>(rows: seq<R>, p: R -> bool, q: R -> bool, o: R -> bool, val: R -> real)
    requires forall i :: 0 <= i < |rows| ==>
      (p(rows[i]) && !q(rows[i]) && !o(rows[i])) || (!p(rows[i]) && q(rows[i]) && !o(rows[i])) ||
      (!p(rows[i]) && !q(rows[i]) && o(rows[i]))
    ensures Sum(Filter(rows, p), val) + Sum(Filter(rows, q), val) + Sum(Filter(rows, o), val) == Sum(rows, val)
  {
    if |rows| == 0 {
      assert Filter(rows, p) == [] && Filter(rows, q) == [] && Filter(rows, o) == [];
    } else {
      var a := rows[..|rows| - 1];
      var x := rows[|rows| - 1];
      SumSplit3(a, p, q, o, val);
      assert rows == a + [x];
      SumSnoc(a, x, val);
      var fp, fq, fo := Filter(a, p), Filter(a, q), Filter(a, o);
      if p(x) {
        assert Filter(rows, p) == fp + [x];
        SumSnoc(fp, x, val);
        assert Filter(rows, q) == fq && Filter(rows, o) == fo;
      } else if q(x) {
        assert Filter(rows, q) == fq + [x];
        SumSnoc(fq, x, val);
        assert Filter(rows, p) == fp && Filter(rows, o) == fo;
      } else {
        assert Filter(rows, o) == fo + [x];
        SumSnoc(fo, x, val);
        assert Filter(rows, p) == fp && Filter(rows, q) == fq;
      }
    }
  }

  lemma {:induction false} SumSign<R>(rows: seq<R>, val: R -> real)
    ensures (forall i :: 0 <= i < |rows| ==> val(rows[i]) >= 0.0) ==> Sum(rows, val) >= 0.0
    ensures (forall i :: 0 <= i < |rows| ==> val(rows[i]) <= 0.0) ==> Sum(rows, val) <= 0.0
  {
    if |rows| > 0 {
      var a := rows[..|rows| - 1];
      SumSign(a, val);
      SumSnoc(a, rows[|rows| - 1], val);
      assert rows == a + [rows[|rows| - 1]];
    }
  }

  /** The first `n` elements in ascending order of `rank` (`nsmallest(n)`;
      `nlargest(n)` with a negated rank). A negative `n` selects nothing. */
  function TopN<T>(s: seq<T>, rank: T -> real, n: int): seq<T>
  {
    Take(SortBy(s, rank), if n < 0 then 0 else n)
  }

  lemma TopNProps<T>(s: seq<T>, rank: T -> real, n: int)
    ensures SortedBy(TopN(s, rank, n), rank)
    ensures |TopN(s, rank, n)| == if n < 0 then 0 else if n < |s| then n else |s|
    ensures multiset(TopN(s, rank, n)) <= multiset(s)
    ensures forall x :: x in TopN(s, rank, n) ==> x in s
    ensures forall x, y :: x in s && x !in TopN(s, rank, n) && y in TopN(s, rank, n) ==> rank(y) <= rank(x)
  {
    var t := SortBy(s, rank);
    SortByProps(s, rank);
    var m := |TopN(s, rank, n)|;
    assert TopN(s, rank, n) == t[..m];
    PrefixProps(t, m, rank);
  }

  /** A prefix of a sorted sequence is sorted, is part of it, and ranks no higher
      than anything left out. */
  lemma PrefixProps<T>(t: seq<T>, m: nat, rank: T -> real)
    requires SortedBy(t, rank) && m <= |t|
    ensures SortedBy(t[..m], rank)
    ensures multiset(t[..m]) <= multiset(t)
    ensures forall x :: x in t[..m] ==> x in multiset(t)
    ensures forall x, y :: x in multiset(t) && x !in t[..m] && y in t[..m] ==> rank(y) <= rank(x)
  {
    assert t == t[..m] + t[m..];
    assert multiset(t) == multiset(t[..m]) + multiset(t[m..]);
    forall x, y | x in multiset(t) && x !in t[..m] && y in t[..m] ensures rank(y) <= rank(x) {
      TopNBelow(t, m, rank, x, y);
    }
  }

  lemma TopNBelow<T>(t: seq<T>, m: nat, rank: T -> real, x: T, y: T)
    requires SortedBy(t, rank) && m <= |t|
    requires x in multiset(t) && x !in t[..m] && y in t[..m]
    ensures rank(y) <= rank(x)
  {
    var j :| 0 <= j < |t| && t[j] == x;
    var i :| 0 <= i < m && t[..m][i] == y;
  }

  /** The row mask `key(r) == k`. */
  function KeyIs<R, K(==)>(key: R -> K, k: K): R -> bool
  {
    (r: R) => key(r) == k
  }

  /** Summing the rows selected by key `k` is the group sum at `k`. */
  lemma {:induction false} SumFilterKey<R, K>(rows: seq<R>, key: R -> K, val: R -> real, k: K)
    ensures Sum(Filter(rows, KeyIs(key, k)), val) == SumAt(rows, key, val, k)
  {
    if |rows| > 0 {
      var p := rows[..|rows| - 1];
      var x := rows[|rows| - 1];
      SumFilterKey(p, key, val, k);
      if key(x) == k {
        assert Filter(rows, KeyIs(key, k)) == Filter(p, KeyIs(key, k)) + [x];
        SumSnoc(Filter(p, KeyIs(key, k)), x, val);
      } else {
        assert Filter(rows, KeyIs(key, k)) == Filter(p, KeyIs(key, k));
      }
    }
  }

  /** When the key column has no repeats, a key selects at most one row. */
  lemma {:induction false} FilterKeyUnique<R, K>(rows: seq<R>, key: R -> K, k: K)
    requires NoDup(Project(rows, key))
    ensures |Filter(rows, KeyIs(key, k))| <= 1
  {
    if |rows| > 0 {
      var p := rows[..|rows| - 1];
      var x := rows[|rows| - 1];
      assert Project(p, key) == Project(rows, key)[..|rows| - 1];
      FilterKeyUnique(p, key, k);
      if key(x) == k {
        forall i | 0 <= i < |p| ensures !KeyIs(key, k)(p[i]) {
          assert Project(rows, key)[i] != Project(rows, key)[|rows| - 1];
        }
        FilterNone(p, KeyIs(key, k));
      }
    }
  }

  /** A key selects some row exactly when it occurs in the key column. */
  lemma FilterKeyNonEmpty<R, K>(rows: seq<R>, key: R -> K, k: K)
    ensures |Filter(rows, KeyIs(key, k))| > 0 <==> k in Project(rows, key)
  {
    var f := Filter(rows, KeyIs(key, k));
    FilterMembers(rows, KeyIs(key, k));
    ProjectMembers(rows, key);
    if |f| > 0 {
      assert f[0] in f;
    }
    if k in Project(rows, key) {
      var r :| r in rows && key(r) == k;
      assert r in f;
    }
  }

  lemma SumSingle<R>(x: R, val: R -> real)
    ensures Sum([x], val) == val(x)
  {
    SumSnoc([], x, val);
    assert [x] == [] + [x];
  }

  /** Sums are linear: a column that is the difference of two columns sums to the
      difference of their sums. */
  lemma {:induction false} SumDiff<R>(rows: seq<R>, f: R -> real, g: R -> real, h: R -> real)
    requires forall i :: 0 <= i < |rows| ==> f(rows[i]) == g(rows[i]) - h(rows[i])
    ensures Sum(rows, f) == Sum(rows, g) - Sum(rows, h)
  {
    if |rows| > 0 {
      var p := rows[..|rows| - 1];
      var x := rows[|rows| - 1];
      assert rows == p + [x];
      SumDiff(p, f, g, h);
      SumSnoc(p, x, f);
      SumSnoc(p, x, g);
      SumSnoc(p, x, h);
    }
  }

  /** A column bounded above by `c` sums to at most `c` times the row count. */
  lemma {:induction false} SumAtMost<R>(rows: seq<R>, val: R -> real, c: real)
    requires forall i :: 0 <= i < |rows| ==> val(rows[i]) <= c
    ensures Sum(rows, val) <= c * |rows| as real
  {
    if |rows| > 0 {
      var p := rows[..|rows| - 1];
      var x := rows[|rows| - 1];
      assert rows == p + [x];
      SumAtMost(p, val, c);
      SumSnoc(p, x, val);
      assert c * |rows| as real == c * |p| as real + c;
    }
  }

  // ---------------------------------------------------------------------------
  // Primary keys

  /** A filter keeps a key column free of repeats. */
  lemma {:induction false} FilterKeysNoDup<R, K>(rows: seq<R>, keep: R -> bool, key: R -> K)
    requires NoDup(Project(rows, key))
    ensures NoDup(Project(Filter(rows, keep), key))
  {
    if |rows| > 0 {
      var p := rows[..|rows| - 1];
      var x := rows[|rows| - 1];
      assert Project(p, key) == Project(rows, key)[..|rows| - 1];
      FilterKeysNoDup(p, keep, key);
      if keep(x) {
        var f := Filter(p, keep);
        FilterRows(p, keep);
        forall i | 0 <= i < |f| ensures key(f[i]) != key(x) {
          var j :| 0 <= j < |p| && p[j] == f[i];
          assert Project(rows, key)[j] != Project(rows, key)[|rows| - 1];
        }
        assert Project(f + [x], key) == Project(f, key) + [key(x)];
      }
    }
  }

  /** Every row a filter keeps satisfies the mask and comes from the table. */
  lemma FilterRows<R>(rows: seq<R>, keep: R -> bool)
    ensures forall i :: 0 <= i < |Filter(rows, keep)| ==> keep(Filter(rows, keep)[i]) && Filter(rows, keep)[i] in rows
  {
    var f := Filter(rows, keep);
    FilterMembers(rows, keep);
    forall i | 0 <= i < |f| ensures keep(f[i]) && f[i] in rows {
      assert f[i] in f;
    }
  }

  /** Filtering twice by the same mask filters once. */
  lemma {:induction false} FilterTwice<R>(rows: seq<R>, keep: R -> bool)
    ensures Filter(Filter(rows, keep), keep) == Filter(rows, keep)
  {
    FilterRows(rows, keep);
    FilterAll(Filter(rows, keep), keep);
  }

  /** A value occurs at most once in a sequence without repeats. */
  lemma {:induction false} NoDupCount<T>(s: seq<T>, x: T)
    requires NoDup(s)
    ensures multiset(s)[x] <= 1
  {
    if |s| > 0 {
      var p := s[..|s| - 1];
      assert s == p + [s[|s| - 1]];
      NoDupCount(p, x);
      if s[|s| - 1] == x {
        forall j | 0 <= j < |p| ensures p[j] != x {
          assert s[j] != s[|s| - 1];
        }
        assert x !in p;
      }
    }
  }

  /** A permutation of a sequence without repeats has none either. */
  lemma NoDupPermutation<T>(a: seq<T>, b: seq<T>)
    requires multiset(a) == multiset(b) && NoDup(b)
    ensures NoDup(a)
  {
    forall i, j | 0 <= i < j < |a| ensures a[i] != a[j] {
      if a[i] == a[j] {
        assert a == a[..j] + a[j..];
        assert a[i] in a[..j] && a[j] in a[j..];
        assert multiset(a) == multiset(a[..j]) + multiset(a[j..]);
        NoDupCount(b, a[i]);
        assert false;
      }
    }
  }

  /** A key column without repeats makes the rows themselves distinct. */
  lemma NoDupKeysRows<R, K>(rows: seq<R>, key: R -> K)
    requires NoDup(Project(rows, key))
    ensures NoDup(rows)
  {
    forall i, j | 0 <= i < j < |rows| ensures rows[i] != rows[j] {
      assert Project(rows, key)[i] != Project(rows, key)[j];
    }
  }

  /** Reordering rows keeps their key column free of repeats. */
  lemma PermutationKeysNoDup<R, K>(a: seq<R>, b: seq<R>, key: R -> K)
    requires multiset(a) == multiset(b) && NoDup(Project(b, key))
    ensures NoDup(Project(a, key))
  {
    NoDupKeysRows(b, key);
    NoDupPermutation(a, b);
    forall i, j | 0 <= i < j < |a| ensures key(a[i]) != key(a[j]) {
      assert a[i] in multiset(b) && a[j] in multiset(b);
      var i' :| 0 <= i' < |b| && b[i'] == a[i];
      var j' :| 0 <= j' < |b| && b[j'] == a[j];
      if i' < j' {
        assert Project(b, key)[i'] != Project(b, key)[j'];
      } else if j' < i' {
        assert Project(b, key)[j'] != Project(b, key)[i'];
      }
    }
  }
}
