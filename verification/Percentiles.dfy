/** Nearest-rank percentiles (`backend/scripts/token_economics_ab.py`,
    `percentile`), for a fraction `num / den`. */
module Percentiles {
  import opened Options

  // One step of `sorted`.
  function Insert(s: seq<int>, v: int): seq<int> {
    if s == [] then [v]
    else if s[|s| - 1] <= v then s + [v]
    else Insert(s[..|s| - 1], v) + [s[|s| - 1]]
  }

  function Sorted(s: seq<int>): seq<int> {
    if s == [] then [] else Insert(Sorted(s[..|s| - 1]), s[|s| - 1])
  }

  predicate Ascending(s: seq<int>) {
    forall i, j :: 0 <= i < j < |s| ==> s[i] <= s[j]
  }

  predicate AtMost(s: seq<int>, bound: int) {
    forall i :: 0 <= i < |s| ==> s[i] <= bound
  }

  lemma {:induction false} InsertFacts(s: seq<int>, v: int)
    ensures multiset(Insert(s, v)) == multiset(s) + multiset{v}
    ensures |Insert(s, v)| == |s| + 1
  {
    if s != [] && s[|s| - 1] > v {
      InsertFacts(s[..|s| - 1], v);
      assert s == s[..|s| - 1] + [s[|s| - 1]];
    }
  }

  lemma {:induction false} InsertKeepsOrder(s: seq<int>, v: int, bound: int)
    requires Ascending(s)
    ensures Ascending(Insert(s, v))
    ensures AtMost(s, bound) && v <= bound ==> AtMost(Insert(s, v), bound)
  {
    if s != [] && s[|s| - 1] > v {
      InsertKeepsOrder(s[..|s| - 1], v, s[|s| - 1]);
      InsertKeepsOrder(s[..|s| - 1], v, bound);
    }
  }

  lemma {:induction false} SortedSorts(s: seq<int>)
    ensures Ascending(Sorted(s)) && multiset(Sorted(s)) == multiset(s) && |Sorted(s)| == |s|
  {
    hide Insert;
    if s != [] {
      SortedSorts(s[..|s| - 1]);
      InsertFacts(Sorted(s[..|s| - 1]), s[|s| - 1]);
      InsertKeepsOrder(Sorted(s[..|s| - 1]), s[|s| - 1], 0);
      assert s == s[..|s| - 1] + [s[|s| - 1]];
    }
  }

  function Ceil(a: nat, b: nat): nat
    requires b > 0
  {
    (a + b - 1) / b
  }

  // The rank a percentile asks for, at least 1.
  function Rank(n: nat, num: nat, den: nat): nat
    requires den > 0
  {
    if Ceil(num * n, den) == 0 then 1 else Ceil(num * n, den)
  }

  lemma {:induction false} MultiplyBoth(a: nat, b: nat, n: nat)
    requires a <= b
    ensures a * n <= b * n
  {
    if n > 0 {
      MultiplyBoth(a, b, n - 1);
      assert a * n == a * (n - 1) + a && b * n == b * (n - 1) + b;
    }
  }

  lemma CeilAtMost(a: nat, b: nat, n: nat)
    requires b > 0 && a <= b * n
    ensures Ceil(a, b) <= n
  {
    var q := Ceil(a, b);
    assert q * b <= a + b - 1;
    assert n + 1 <= q ==> (n + 1) * b <= q * b by {
      if n + 1 <= q { MultiplyBoth(n + 1, q, b); }
    }
    assert (n + 1) * b == b * n + b;
  }

  lemma RankIsInRange(n: nat, num: nat, den: nat)
    requires n > 0 && num <= den && den > 0
    ensures 1 <= Rank(n, num, den) <= n
  {
    MultiplyBoth(num, den, n);
    CeilAtMost(num * n, den, n);
    hide Ceil;
  }

  // `None` is the error raised for no values.
  function Percentile(values: seq<int>, num: nat, den: nat): Option<int>
    requires num <= den && den > 0
  {
    if values == [] then None
    else
      SortedSorts(values);
      RankIsInRange(|values|, num, den);
      var index: int := Ceil(num * |values|, den) - 1;
      Some(Sorted(values)[if index > 0 then index else 0])
  }

  function CountUpTo(s: seq<int>, v: int): nat {
    if s == [] then 0 else CountUpTo(s[..|s| - 1], v) + (if s[|s| - 1] <= v then 1 else 0)
  }

  function CountBelow(s: seq<int>, v: int): nat {
    if s == [] then 0 else CountBelow(s[..|s| - 1], v) + (if s[|s| - 1] < v then 1 else 0)
  }

  lemma {:induction false} InsertCounts(s: seq<int>, x: int, v: int)
    ensures CountUpTo(Insert(s, x), v) == CountUpTo(s, v) + (if x <= v then 1 else 0)
    ensures CountBelow(Insert(s, x), v) == CountBelow(s, v) + (if x < v then 1 else 0)
  {
    if s != [] && s[|s| - 1] > x {
      InsertCounts(s[..|s| - 1], x, v);
      var inner := Insert(s[..|s| - 1], x);
      assert (inner + [s[|s| - 1]])[..|inner|] == inner;
    } else {
      assert (s + [x])[..|s|] == s;
    }
  }

  lemma {:induction false} SortedCounts(s: seq<int>, v: int)
    ensures CountUpTo(Sorted(s), v) == CountUpTo(s, v)
    ensures CountBelow(Sorted(s), v) == CountBelow(s, v)
  {
    hide Insert;
    if s != [] {
      SortedCounts(s[..|s| - 1], v);
      InsertCounts(Sorted(s[..|s| - 1]), s[|s| - 1], v);
    }
  }

  lemma {:induction false} PositionCounts(s: seq<int>, k: nat)
    requires Ascending(s) && k < |s|
    ensures CountUpTo(s, s[k]) >= k + 1 && CountBelow(s, s[k]) <= k
  {
    if k < |s| - 1 {
      PositionCounts(s[..|s| - 1], k);
    } else {
      AllCounted(s[..k], s[k]);
    }
  }

  lemma {:induction false} AllCounted(s: seq<int>, v: int)
    ensures AtMost(s, v) ==> CountUpTo(s, v) == |s|
    ensures CountBelow(s, v) <= |s|
  {
    if s != [] {
      AllCounted(s[..|s| - 1], v);
    }
  }

  // The percentile is a value of the sample with at least `r` values up to it
  // and fewer than `r` below it, where `r` is the rank.
  lemma PercentileHasItsRank(values: seq<int>, num: nat, den: nat)
    requires num <= den && den > 0
    ensures Percentile(values, num, den).Some? <==> values != []
    ensures values != [] ==>
      var v, r := Percentile(values, num, den).value, Rank(|values|, num, den);
      v in values && CountUpTo(values, v) >= r && CountBelow(values, v) < r
  {
    hide Sorted, Ceil, Rank, CountUpTo, CountBelow;
    if values != [] {
      PercentileIsRanked(values, num, den);
      hide Percentile;
      SortedPositionCounts(values, Rank(|values|, num, den) - 1);
    }
  }

  lemma PercentileIsRanked(values: seq<int>, num: nat, den: nat)
    requires num <= den && den > 0 && values != []
    ensures 1 <= Rank(|values|, num, den) <= |Sorted(values)|
    ensures Percentile(values, num, den) == Some(Sorted(values)[Rank(|values|, num, den) - 1])
  {
    SortedSorts(values);
    RankIsInRange(|values|, num, den);
    hide Sorted, Ceil;
  }

  lemma SortedPositionCounts(values: seq<int>, k: nat)
    requires k < |Sorted(values)|
    ensures var v := Sorted(values)[k]; v in values && CountUpTo(values, v) >= k + 1 && CountBelow(values, v) <= k
  {
    var v := Sorted(values)[k];
    SortedSorts(values);
    SortedCounts(values, v);
    hide Sorted, CountUpTo, CountBelow;
    PositionCounts(Sorted(values), k);
    assert v in multiset(Sorted(values));
  }

  lemma {:induction false} AscendingIsUnique(a: seq<int>, b: seq<int>)
    requires Ascending(a) && Ascending(b) && multiset(a) == multiset(b)
    ensures a == b
  {
    assert |a| == |multiset(a)| == |b|;
    if a != [] {
      SameLargest(a, b);
      DropLast(a);
      DropLast(b);
      hide Ascending;
      assert Ascending(a[..|a| - 1]) && Ascending(b[..|b| - 1]);
      AscendingIsUnique(a[..|a| - 1], b[..|b| - 1]);
    }
  }

  lemma DropLast(a: seq<int>)
    requires a != []
    ensures a == a[..|a| - 1] + [a[|a| - 1]]
    ensures multiset(a[..|a| - 1]) == multiset(a) - multiset{a[|a| - 1]}
    ensures Ascending(a) ==> Ascending(a[..|a| - 1])
  {
    assert a == a[..|a| - 1] + [a[|a| - 1]];
  }

  lemma SameLargest(a: seq<int>, b: seq<int>)
    requires Ascending(a) && Ascending(b) && multiset(a) == multiset(b) && a != [] && b != []
    ensures a[|a| - 1] == b[|b| - 1]
  {
    assert a[|a| - 1] in multiset(b) && b[|b| - 1] in multiset(a);
    assert a[|a| - 1] in b && b[|b| - 1] in a;
  }

  // The order of the sample does not matter.
  lemma PercentileIgnoresOrder(values: seq<int>, shuffled: seq<int>, num: nat, den: nat)
    requires num <= den && den > 0 && multiset(values) == multiset(shuffled)
    ensures Percentile(values, num, den) == Percentile(shuffled, num, den)
  {
    SortedSorts(values);
    SortedSorts(shuffled);
    hide Sorted;
    AscendingIsUnique(Sorted(values), Sorted(shuffled));
    assert |values| == |multiset(values)| == |shuffled|;
  }
}
