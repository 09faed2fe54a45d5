/** Vocabulary shared by the token-accounting models: optional values, sums over
    dictionaries, half-even percentages and measurement windows. */
module Options {
  datatype Option<+T> = None | Some(value: T)
}

/** What a file or a UTF-8 string is made of. */
module Octets {
  newtype Byte = b: int | 0 <= b < 256
}

/** Decoded telemetry values. */
module Counters {
  import opened Options

  datatype Field = Absent | Number(n: int) | NotANumber {
    // `_counter(value)`: only a non-negative integer is trusted.
    function Counter(): Option<nat> {
      if Number? && n >= 0 then Some(n) else None
    }

    // `_counter(usage.get(key, 0))`: a missing key counts as zero.
    function CounterOrZero(): Option<nat> {
      if Absent? then Some(0) else Counter()
    }
  }
}

/** Sums over finite maps and sequences, and descending sorts. */
module Sums {

  ghost function SumMap<K>(m: map<K, nat>): nat
    decreases |m|
  {
    if m == map[] then 0
    else
      var k :| k in m;
      assert (m - {k}).Keys == m.Keys - {k};
      m[k] + SumMap(m - {k})
  }

  // The sum does not depend on which key is peeled off first.
  lemma {:induction false} SumMapSplit<K>(m: map<K, nat>, k: K)
    requires k in m
    ensures SumMap(m) == m[k] + SumMap(m - {k})
    decreases |m|
  {
    var j :| j in m && SumMap(m) == m[j] + SumMap(m - {j});
    if j != k {
      assert (m - {j}).Keys == m.Keys - {j};
      assert (m - {k}).Keys == m.Keys - {k};
      SumMapSplit(m - {j}, k);
      SumMapSplit(m - {k}, j);
      assert m - {j} - {k} == m - {k} - {j};
    }
  }

  lemma SumMapPut<K>(m: map<K, nat>, k: K, v: nat)
    ensures SumMap(m[k := v]) == SumMap(m) - (if k in m then m[k] else 0) + v
  {
    var m' := m[k := v];
    SumMapSplit(m', k);
    assert m' - {k} == m - {k};
    if k in m {
      SumMapSplit(m, k);
    } else {
      assert m - {k} == m;
    }
  }

  lemma {:induction false} SumMapMonotone<K>(small: map<K, nat>, large: map<K, nat>)
    requires small.Keys <= large.Keys
    requires forall k :: k in small ==> small[k] <= large[k]
    ensures SumMap(small) <= SumMap(large)
    decreases |small|
  {
    if small != map[] {
      var k :| k in small;
      assert (small - {k}).Keys == small.Keys - {k};
      SumMapSplit(small, k);
      SumMapSplit(large, k);
      SumMapMonotone(small - {k}, large - {k});
    }
  }

  // Two parts of a map with no key in common sum to at most the map.
  lemma {:induction false} SumMapDisjointParts<K>(left: map<K, nat>, right: map<K, nat>, whole: map<K, nat>)
    requires left.Keys !! right.Keys && left.Keys <= whole.Keys && right.Keys <= whole.Keys
    requires forall k :: k in left ==> left[k] <= whole[k]
    requires forall k :: k in right ==> right[k] <= whole[k]
    ensures SumMap(left) + SumMap(right) <= SumMap(whole)
    decreases |left|
  {
    if left == map[] {
      SumMapMonotone(right, whole);
    } else {
      var k :| k in left;
      assert (left - {k}).Keys == left.Keys - {k};
      SumMapSplit(left, k);
      SumMapSplit(whole, k);
      SumMapDisjointParts(left - {k}, right, whole - {k});
    }
  }

  // The values of a map with their multiplicities, as `dict.values()` lists them.
  ghost function Bag<K>(m: map<K, nat>): multiset<nat>
    decreases |m|
  {
    if m == map[] then multiset{}
    else
      var k :| k in m;
      assert (m - {k}).Keys == m.Keys - {k};
      multiset{m[k]} + Bag(m - {k})
  }

  lemma {:induction false} BagSplit<K>(m: map<K, nat>, k: K)
    requires k in m
    ensures Bag(m) == multiset{m[k]} + Bag(m - {k})
    decreases |m|
  {
    var j :| j in m && Bag(m) == multiset{m[j]} + Bag(m - {j});
    if j != k {
      var a, b, core := m - {j}, m - {k}, m - {j, k};
      assert a.Keys == m.Keys - {j} && b.Keys == m.Keys - {k};
      assert a - {k} == core && b - {j} == core;
      BagSplit(a, k);
      BagSplit(b, j);
    }
  }

  function Sum(s: seq<nat>): nat {
    if s == [] then 0 else s[0] + Sum(s[1..])
  }

  lemma {:induction false} SumConcat(a: seq<nat>, b: seq<nat>)
    ensures Sum(a + b) == Sum(a) + Sum(b)
  {
    if a == [] {
      assert a + b == b;
    } else {
      assert (a + b)[1..] == a[1..] + b;
      SumConcat(a[1..], b);
    }
  }

  ghost predicate Descending(s: seq<nat>) {
    forall i, j :: 0 <= i < j < |s| ==> s[i] >= s[j]
  }

  // One step of `sorted(..., reverse=True)`.
  function InsertDescending(s: seq<nat>, v: nat): seq<nat> {
    if s == [] then [v]
    else if v >= s[0] then [v] + s
    else [s[0]] + InsertDescending(s[1..], v)
  }

  lemma {:induction false} InsertBounded(s: seq<nat>, v: nat, bound: nat)
    requires v <= bound
    ensures (forall i :: 0 <= i < |s| ==> s[i] <= bound) ==>
              forall i :: 0 <= i < |InsertDescending(s, v)| ==> InsertDescending(s, v)[i] <= bound
  {
    if s != [] {
      InsertBounded(s[1..], v, bound);
    }
  }

  lemma {:induction false} InsertSum(s: seq<nat>, v: nat)
    ensures Sum(InsertDescending(s, v)) == Sum(s) + v && |InsertDescending(s, v)| == |s| + 1
  {
    if s != [] && v < s[0] {
      InsertSum(s[1..], v);
      assert ([s[0]] + InsertDescending(s[1..], v))[1..] == InsertDescending(s[1..], v);
    } else {
      assert ([v] + s)[1..] == s;
    }
  }

  lemma {:induction false} InsertBag(s: seq<nat>, v: nat)
    ensures multiset(InsertDescending(s, v)) == multiset(s) + multiset{v}
  {
    if s != [] && v < s[0] {
      InsertBag(s[1..], v);
      assert s == [s[0]] + s[1..];
    }
  }

  lemma {:induction false} InsertKeepsOrder(s: seq<nat>, v: nat)
    requires Descending(s)
    ensures Descending(InsertDescending(s, v))
  {
    if s != [] && v < s[0] {
      InsertKeepsOrder(s[1..], v);
      InsertBounded(s[1..], v, s[0]);
    }
  }

  // `sorted(values, reverse=True)`: the same values, largest first.
  ghost predicate Ranks(ranked: seq<nat>, values: multiset<nat>, total: nat) {
    Descending(ranked) && multiset(ranked) == values && Sum(ranked) == total
  }

  // Moving the value of one key from the map into the ranking.
  lemma InsertStep<K>(ranked: seq<nat>, rest: map<K, nat>, k: K)
    requires Descending(ranked) && k in rest
    ensures var after := InsertDescending(ranked, rest[k]);
            && |after| == |ranked| + 1 && Descending(after) && Sum(after) == Sum(ranked) + rest[k]
            && multiset(after) + Bag(rest - {k}) == multiset(ranked) + Bag(rest)
  {
    hide InsertDescending, Sum, Descending;
    BagSplit(rest, k);
    InsertValue(ranked, rest[k]);
  }

  method SortValues<K>(m: map<K, nat>) returns (ranked: seq<nat>)
    ensures Ranks(ranked, Bag(m), SumMap(m)) && |ranked| == |m|
  {
    ranked := [];
    var rest := m;
    while rest != map[]
      invariant rest.Keys <= m.Keys && |ranked| + |rest| == |m|
      invariant Descending(ranked)
      invariant multiset(ranked) + Bag(rest) == Bag(m)
      invariant Sum(ranked) + SumMap(rest) == SumMap(m)
      decreases |rest|
    {
      hide Descending, InsertDescending, Bag, SumMap, Sum;
      var k :| k in rest;
      assert (rest - {k}).Keys == rest.Keys - {k};
      SumMapSplit(rest, k);
      InsertStep(ranked, rest, k);
      ranked := InsertDescending(ranked, rest[k]);
      rest := rest - {k};
    }
  }

  lemma InsertValue(ranked: seq<nat>, v: nat)
    requires Descending(ranked)
    ensures var after := InsertDescending(ranked, v);
            && |after| == |ranked| + 1 && Descending(after) && Sum(after) == Sum(ranked) + v
            && multiset(after) == multiset(ranked) + multiset{v}
  {
    InsertSum(ranked, v);
    InsertBag(ranked, v);
    InsertKeepsOrder(ranked, v);
  }

  lemma PrefixGrows(s: seq<nat>, i: nat)
    requires i < |s|
    ensures multiset(s[..i + 1]) == multiset(s[..i]) + multiset{s[i]}
    ensures Sum(s[..i + 1]) == Sum(s[..i]) + s[i]
  {
    assert s[..i + 1] == s[..i] + [s[i]];
    SumConcat(s[..i], [s[i]]);
  }

  method SortSequence(s: seq<nat>) returns (ranked: seq<nat>)
    ensures Ranks(ranked, multiset(s), Sum(s)) && |ranked| == |s|
  {
    ranked := [];
    for i := 0 to |s|
      invariant |ranked| == i && Descending(ranked)
      invariant multiset(ranked) == multiset(s[..i])
      invariant Sum(ranked) == Sum(s[..i])
    {
      hide Descending, InsertDescending, Sum;
      PrefixGrows(s, i);
      InsertValue(ranked, s[i]);
      ranked := InsertDescending(ranked, s[i]);
    }
    assert s[..|s|] == s;
  }

  // `sum(ranked[:n])`
  function SumFirst(s: seq<nat>, n: nat): (r: nat)
    ensures r <= Sum(s)
    ensures n >= |s| ==> r == Sum(s)
  {
    if n == 0 || s == [] then 0 else s[0] + SumFirst(s[1..], n - 1)
  }

  lemma {:induction false} SumFirstMonotone(s: seq<nat>, n: nat, n': nat)
    requires n <= n'
    ensures SumFirst(s, n) <= SumFirst(s, n')
  {
    if n > 0 && s != [] {
      SumFirstMonotone(s[1..], n - 1, n' - 1);
    }
  }

  // Pigeonhole: the largest of n parts is at least the n-th part of the whole.
  lemma {:induction false} LargestCarriesItsShare(s: seq<nat>, top: nat)
    requires forall i :: 0 <= i < |s| ==> s[i] <= top
    ensures Sum(s) <= |s| * top
  {
    if s != [] {
      LargestCarriesItsShare(s[1..], top);
      assert |s| * top == top + |s[1..]| * top;
    }
  }
}

/** `_pct` and `round(x, 2)` over exact rationals: a percentage is an integer
    number of hundredths, rounded half to even as Python's `round` does. */
module Percent {
  import opened Options

  function RoundHalfEven(n: nat, d: nat): nat
    requires d > 0
  {
    var q, rest := n / d, n % d;
    if 2 * rest < d || (2 * rest == d && q % 2 == 0) then q else q + 1
  }

  // Hundredths of a percent; `_pct(part, 0)` and `_pct(None, _)` are null.
  function Pct(part: Option<nat>, total: nat): (r: Option<nat>)
    ensures r.Some? <==> part.Some? && total > 0
  {
    if part.None? || total == 0 then None
    else Some(RoundHalfEven(10000 * part.value, total))
  }

  lemma {:induction false} MultiplesApart(d: nat, x: nat, y: nat)
    requires x < y
    ensures d * x + d <= d * y
  {
    if d > 0 {
      MultiplesApart(d - 1, x, y);
    }
  }

  lemma QuotientMonotone(a: nat, b: nat, d: nat)
    requires a <= b && d > 0
    ensures a / d <= b / d
    ensures a / d == b / d ==> a % d <= b % d
  {
    var x, y := a / d, b / d;
    assert a == d * x + a % d && b == d * y + b % d;
    if x > y {
      MultiplesApart(d, y, x);
    }
  }

  lemma RoundMonotone(a: nat, b: nat, d: nat)
    requires a <= b && d > 0
    ensures RoundHalfEven(a, d) <= RoundHalfEven(b, d)
  {
    QuotientMonotone(a, b, d);
  }

  // The quotient and remainder of n by d are the only pair that fits.
  lemma QuotientUnique(n: nat, d: nat, q: nat, rest: nat)
    requires d > 0 && rest < d && n == d * q + rest
    ensures n / d == q && n % d == rest
  {
    var x, r := n / d, n % d;
    assert n == d * x + r;
    if x > q {
      MultiplesApart(d, q, x);
    } else if x < q {
      MultiplesApart(d, x, q);
    }
  }

  // A share rounds to 0.00 exactly when it is at most half a hundredth.
  lemma ShareRoundsToZero(part: nat, total: nat)
    requires total > 0
    ensures Pct(Some(part), total) == Some(0) <==> 20000 * part <= total
  {
    var n := 10000 * part;
    if n < total {
      QuotientUnique(n, total, 0, n);
    } else {
      QuotientMonotone(total, n, total);
      QuotientUnique(total, total, 1, 0);
    }
  }

  lemma WholeShare(total: nat)
    requires total > 0
    ensures Pct(Some(total), total) == Some(10000)
  {
    QuotientUnique(10000 * total, total, 10000, 0);
  }

  lemma ShareMonotone(a: nat, b: nat, total: nat)
    requires a <= b && total > 0
    ensures Pct(Some(a), total).value <= Pct(Some(b), total).value
  {
    RoundMonotone(10000 * a, 10000 * b, total);
  }

  lemma ShareAtMostWhole(part: nat, total: nat)
    requires part <= total && total > 0
    ensures Pct(Some(part), total).value <= 10000
  {
    ShareMonotone(part, total, total);
    WholeShare(total);
  }
}
