/** The arithmetic of the profit dashboard: overall totals folded from the per-year summaries,
    the years listed newest first, and the guarded profit margins. Amounts are exact reals. */
module ProfitDashboard {
  import opened Types

  /** One year's summary as the profit endpoint delivers it. */
  datatype YearlyData = YearlyData(revenue: real, cost: real, profit: real, itemCount: int)

  datatype Totals = Totals(totalRevenue: real, totalCost: real, totalProfit: real, totalItems: int)

  /** A summary without negative revenue, cost or item count. */
  predicate NonNegative(y: YearlyData) {
    y.revenue >= 0.0 && y.cost >= 0.0 && y.itemCount >= 0
  }

  /** The initial value of the reduction. */
  const Zero := Totals(0.0, 0.0, 0.0, 0)

  /** One year's summary as totals of its own. */
  function Single(y: YearlyData): Totals {
    Totals(y.revenue, y.cost, y.profit, y.itemCount)
  }

  /** The reducer: add one year's summary to the running totals; it keeps the identity
      profit = revenue - cost when the year has it too. */
  function AddYear(t: Totals, y: YearlyData): (r: Totals)
    ensures r == Plus(t, Single(y))
    ensures Balanced(t) && y.profit == y.revenue - y.cost ==> Balanced(r)
  {
    Totals(t.totalRevenue + y.revenue, t.totalCost + y.cost, t.totalProfit + y.profit, t.totalItems + y.itemCount)
  }

  /** profit = revenue - cost */
  predicate Balanced(t: Totals) {
    t.totalProfit == t.totalRevenue - t.totalCost
  }

  function Plus(a: Totals, b: Totals): Totals {
    Totals(a.totalRevenue + b.totalRevenue, a.totalCost + b.totalCost,
           a.totalProfit + b.totalProfit, a.totalItems + b.totalItems)
  }

  /** `values.reduce(AddYear, Zero)`: a fold from the left. */
  function Fold(values: seq<YearlyData>): (t: Totals)
    ensures values == [] ==> t == Zero
    ensures |values| == 1 ==> t == Single(values[0])
  {
    if values == [] then Zero else AddYear(Fold(values[..|values| - 1]), values[|values| - 1])
  }

  /** The summaries at the given years, in that order (years without one are skipped). */
  function ValuesAt(m: map<int, YearlyData>, years: seq<int>): (vs: seq<YearlyData>)
    ensures |vs| <= |years|
    ensures forall v :: v in vs ==> v in m.Values
  {
    if years == [] then []
    else (if years[0] in m then [m[years[0]]] else []) + ValuesAt(m, years[1..])
  }

  /** Each year once, newest first. */
  ghost predicate StrictlyDescending(ys: seq<int>) {
    forall i, j :: 0 <= i < j < |ys| ==> ys[i] > ys[j]
  }

  /** `ys` lists every element of `s` exactly once. */
  ghost predicate Enumerates(ys: seq<int>, s: set<int>) {
    && (forall i, j :: 0 <= i < j < |ys| ==> ys[i] != ys[j])
    && (forall i :: 0 <= i < |ys| ==> ys[i] in s)
    && (forall y :: y in s ==> y in ys)
  }

  lemma NoElementMeansEmpty(s: set<int>)
    ensures (forall x :: x !in s) ==> s == {}
  {
    if forall x :: x !in s {
      assert s == {};
    }
  }

  ghost function MaxYear(s: set<int>): (y: int)
    requires s != {}
    ensures y in s && forall x :: x in s ==> x <= y
    decreases |s|
  {
    NoElementMeansEmpty(s);
    var x :| x in s;
    if s == {x} then x
    else
      var r := MaxYear(s - {x});
      assert forall z :: z in s ==> z == x || z in s - {x};
      if x < r then r else x
  }

  /** `Object.keys(yearlyData).map(Number).sort((a, b) => b - a)` */
  ghost function YearsDescending(years: set<int>): (ys: seq<int>)
    ensures StrictlyDescending(ys) && Enumerates(ys, years)
    decreases |years|
  {
    if years == {} then []
    else
      var top := MaxYear(years);
      var rest := YearsDescending(years - {top});
      PrependMax(years, top, rest);
      [top] + rest
  }

  /** Putting the largest year in front of a descending listing of the others. */
  lemma PrependMax(years: set<int>, top: int, rest: seq<int>)
    requires top in years && forall x :: x in years ==> x <= top
    requires StrictlyDescending(rest) && Enumerates(rest, years - {top})
    ensures StrictlyDescending([top] + rest) && Enumerates([top] + rest, years)
  {
    var ys := [top] + rest;
    forall i, j | 0 <= i < j < |ys| ensures ys[i] > ys[j] {
      assert ys[j] == rest[j - 1];
      assert rest[j - 1] in years - {top};
      if i > 0 {
        assert ys[i] == rest[i - 1];
      }
    }
    forall y | y in years ensures y in ys {
      if y != top {
        assert y in rest;
        var k :| 0 <= k < |rest| && rest[k] == y;
        assert ys[k + 1] == y;
      }
    }
  }

  function Reverse(ys: seq<int>): (r: seq<int>)
    ensures |r| == |ys| && forall i :: 0 <= i < |ys| ==> r[i] == ys[|ys| - 1 - i]
  {
    if ys == [] then [] else Reverse(ys[1..]) + [ys[0]]
  }

  lemma ReverseEnumerates(ys: seq<int>, s: set<int>)
    requires Enumerates(ys, s)
    ensures Enumerates(Reverse(ys), s)
  {
    var r := Reverse(ys);
    forall y | y in s ensures y in r {
      var i :| 0 <= i < |ys| && ys[i] == y;
      assert r[|ys| - 1 - i] == y;
    }
  }

  /** `Object.values(yearlyData)` visits integer keys in ascending order. */
  ghost function YearsAscending(m: map<int, YearlyData>): (ys: seq<int>)
    ensures Enumerates(ys, m.Keys)
    ensures forall i, j :: 0 <= i < j < |ys| ==> ys[i] < ys[j]
  {
    ReverseEnumerates(YearsDescending(m.Keys), m.Keys);
    Reverse(YearsDescending(m.Keys))
  }

  /** `calculateTotals()` */
  ghost function CalculateTotals(m: map<int, YearlyData>): (t: Totals)
    ensures m == map[] ==> t == Zero
    ensures (forall y :: y in m ==> NonNegative(m[y])) ==>
      t.totalRevenue >= 0.0 && t.totalCost >= 0.0 && t.totalItems >= 0
  {
    var vs := ValuesAt(m, YearsAscending(m));
    assert m == map[] ==> YearsAscending(m) == [];
    assert (forall y :: y in m ==> NonNegative(m[y])) ==> forall i :: 0 <= i < |vs| ==> NonNegative(vs[i]) by {
      if forall y :: y in m ==> NonNegative(m[y]) {
        forall i | 0 <= i < |vs| ensures NonNegative(vs[i]) {
          assert vs[i] in vs;
        }
      }
    }
    FoldNonNegative(vs);
    Fold(vs)
  }

  /** Summaries without negative amounts reduce to totals without negative amounts. */
  lemma {:induction false} FoldNonNegative(vs: seq<YearlyData>)
    ensures (forall i :: 0 <= i < |vs| ==> NonNegative(vs[i])) ==>
      Fold(vs).totalRevenue >= 0.0 && Fold(vs).totalCost >= 0.0 && Fold(vs).totalItems >= 0
  {
    if vs != [] {
      FoldNonNegative(vs[..|vs| - 1]);
    }
  }

  /** The per-year margin in percent: profit over revenue, or 0 when there is no revenue. */
  function YearMargin(d: YearlyData): (r: real)
    ensures d.revenue <= 0.0 ==> r == 0.0
    ensures d.revenue > 0.0 ==> r * d.revenue == d.profit * 100.0
  {
    if d.revenue > 0.0 then d.profit / d.revenue * 100.0 else 0.0
  }

  /** The overall margin, shown only when the total revenue is positive. */
  function OverallMargin(t: Totals): (r: Option<real>)
    ensures r.Some? <==> t.totalRevenue > 0.0
    ensures r.Some? ==> r.value * t.totalRevenue == t.totalProfit * 100.0
  {
    if t.totalRevenue > 0.0 then Some(t.totalProfit / t.totalRevenue * 100.0) else None
  }

  /** Folding a concatenation is adding the two folds. */
  lemma {:induction false} FoldAppend(a: seq<YearlyData>, b: seq<YearlyData>)
    ensures Fold(a + b) == Plus(Fold(a), Fold(b))
    decreases |b|
  {
    if b == [] {
      assert a + b == a;
    } else {
      var b' := b[..|b| - 1];
      assert (a + b)[..|a + b| - 1] == a + b';
      FoldAppend(a, b');
    }
  }

  /** Taking the element at `i` out of a listing of `s` lists `s` without it. */
  lemma RemoveFromListing(ys: seq<int>, i: nat, s: set<int>)
    requires Enumerates(ys, s) && i < |ys|
    ensures Enumerates(ys[..i] + ys[i + 1..], s - {ys[i]})
  {
    var rest := ys[..i] + ys[i + 1..];
    forall a, b | 0 <= a < b < |rest| ensures rest[a] != rest[b] {
      var a' := if a < i then a else a + 1;
      var b' := if b < i then b else b + 1;
      assert rest[a] == ys[a'] && rest[b] == ys[b'];
    }
    forall j | 0 <= j < |rest| ensures rest[j] in s - {ys[i]} {
      if j < i { assert rest[j] == ys[j]; } else { assert rest[j] == ys[j + 1]; }
    }
    forall y | y in s - {ys[i]} ensures y in rest {
      var j :| 0 <= j < |ys| && ys[j] == y;
      if j < i { assert rest[j] == y; } else { assert rest[j - 1] == y; }
    }
  }

  /** Folding `p`, one summary, then `q` is folding `p` then `q` and adding the summary. */
  lemma FoldAround(p: seq<YearlyData>, v: YearlyData, q: seq<YearlyData>)
    ensures Fold(p + ([v] + q)) == Plus(Fold([v]), Fold(p + q))
  {
    FoldAppend(p, [v] + q);
    FoldAppend([v], q);
    FoldAppend(p, q);
  }

  lemma {:induction false} ValuesAtAppend(m: map<int, YearlyData>, a: seq<int>, b: seq<int>)
    ensures ValuesAt(m, a + b) == ValuesAt(m, a) + ValuesAt(m, b)
  {
    if a == [] {
      assert a + b == b;
    } else {
      assert (a + b)[1..] == a[1..] + b;
      ValuesAtAppend(m, a[1..], b);
    }
  }

  /** The summaries of a listing split around position `i`, with and without that year. */
  lemma ValuesAtSplit(m: map<int, YearlyData>, ys: seq<int>, i: nat)
    requires i < |ys| && ys[i] in m
    ensures ValuesAt(m, ys) == ValuesAt(m, ys[..i]) + ([m[ys[i]]] + ValuesAt(m, ys[i + 1..]))
    ensures ValuesAt(m, ys[..i] + ys[i + 1..]) == ValuesAt(m, ys[..i]) + ValuesAt(m, ys[i + 1..])
  {
    var a, b := ys[..i], ys[i + 1..];
    assert ys == a + ([ys[i]] + b);
    assert ([ys[i]] + b)[1..] == b;
    ValuesAtAppend(m, a, [ys[i]] + b);
    ValuesAtAppend(m, a, b);
  }

  /** Folding a listing is folding it without year `ys[i]` and adding that year's summary. */
  lemma FoldWithout(m: map<int, YearlyData>, ys: seq<int>, i: nat)
    requires i < |ys| && ys[i] in m
    ensures Fold(ValuesAt(m, ys)) == Plus(Fold([m[ys[i]]]), Fold(ValuesAt(m, ys[..i] + ys[i + 1..])))
  {
    ValuesAtSplit(m, ys, i);
    FoldAround(ValuesAt(m, ys[..i]), m[ys[i]], ValuesAt(m, ys[i + 1..]));
  }

  /** Folding the summaries of any two listings of the same years gives the same totals. */
  lemma {:induction false} FoldPermutation(m: map<int, YearlyData>, xs: seq<int>, ys: seq<int>, s: set<int>)
    requires s <= m.Keys && Enumerates(xs, s) && Enumerates(ys, s)
    ensures Fold(ValuesAt(m, xs)) == Fold(ValuesAt(m, ys))
    decreases |xs|
  {
    ListingSize(xs, s);
    ListingSize(ys, s);
    if xs != [] {
      var k := xs[0];
      assert k in ys;
      var i :| 0 <= i < |ys| && ys[i] == k;
      RemoveFromListing(ys, i, s);
      RemoveFromListing(xs, 0, s);
      assert xs[..0] + xs[1..] == xs[1..];
      FoldPermutation(m, xs[1..], ys[..i] + ys[i + 1..], s - {k});
      FoldPermutationStep(m, xs, ys, i);
    }
  }

  /** Moving one year to the front of a listing does not change the fold. */
  lemma FoldPermutationStep(m: map<int, YearlyData>, xs: seq<int>, ys: seq<int>, i: nat)
    requires xs != [] && i < |ys| && ys[i] == xs[0] && xs[0] in m
    requires Fold(ValuesAt(m, xs[1..])) == Fold(ValuesAt(m, ys[..i] + ys[i + 1..]))
    ensures Fold(ValuesAt(m, xs)) == Fold(ValuesAt(m, ys))
  {
    FoldFront(m, xs);
    FoldWithout(m, ys, i);
  }

  /** The reduction of a listing is its first year's summary plus the reduction of the rest. */
  lemma FoldFront(m: map<int, YearlyData>, xs: seq<int>)
    requires xs != [] && xs[0] in m
    ensures Fold(ValuesAt(m, xs)) == Plus(Fold([m[xs[0]]]), Fold(ValuesAt(m, xs[1..])))
  {
    FoldWithout(m, xs, 0);
    assert xs[..0] + xs[1..] == xs[1..];
  }

  /** The totals do not depend on the order in which the years are visited. */
  lemma TotalsIgnoreOrder(m: map<int, YearlyData>, ys: seq<int>)
    requires Enumerates(ys, m.Keys)
    ensures CalculateTotals(m) == Fold(ValuesAt(m, ys))
  {
    FoldPermutation(m, YearsAscending(m), ys, m.Keys);
  }

  /** A sum of reals, from the front. */
  function Sum(xs: seq<real>): real {
    if xs == [] then 0.0 else xs[0] + Sum(xs[1..])
  }

  function SumInt(xs: seq<int>): int {
    if xs == [] then 0 else xs[0] + SumInt(xs[1..])
  }

  function Revenues(vs: seq<YearlyData>): seq<real> {
    if vs == [] then [] else [vs[0].revenue] + Revenues(vs[1..])
  }

  function Costs(vs: seq<YearlyData>): seq<real> {
    if vs == [] then [] else [vs[0].cost] + Costs(vs[1..])
  }

  function Profits(vs: seq<YearlyData>): seq<real> {
    if vs == [] then [] else [vs[0].profit] + Profits(vs[1..])
  }

  function ItemCounts(vs: seq<YearlyData>): seq<int> {
    if vs == [] then [] else [vs[0].itemCount] + ItemCounts(vs[1..])
  }

  /** Each total is the sum of its per-year field. */
  lemma {:induction false} FoldIsColumnSums(vs: seq<YearlyData>)
    ensures Fold(vs) == Totals(Sum(Revenues(vs)), Sum(Costs(vs)), Sum(Profits(vs)), SumInt(ItemCounts(vs)))
  {
    if vs != [] {
      FoldIsColumnSums(vs[1..]);
      assert vs == [vs[0]] + vs[1..];
      FoldAppend([vs[0]], vs[1..]);
      assert Fold([vs[0]]) == AddYear(Zero, vs[0]);
    }
  }

  /** `totalRevenue`, `totalCost`, `totalProfit` and `totalItems` are the sums of the per-year
      fields over all years, whatever order the years are listed in. */
  lemma TotalsAreSums(m: map<int, YearlyData>, ys: seq<int>)
    requires Enumerates(ys, m.Keys)
    ensures var vs := ValuesAt(m, ys);
      CalculateTotals(m) == Totals(Sum(Revenues(vs)), Sum(Costs(vs)), Sum(Profits(vs)), SumInt(ItemCounts(vs)))
  {
    TotalsIgnoreOrder(m, ys);
    FoldIsColumnSums(ValuesAt(m, ys));
  }

  /** When every year's profit is its revenue less its cost, so is the total profit. */
  lemma {:induction false} FoldKeepsProfitIdentity(vs: seq<YearlyData>)
    requires forall v :: v in vs ==> v.profit == v.revenue - v.cost
    ensures Fold(vs).totalProfit == Fold(vs).totalRevenue - Fold(vs).totalCost
  {
    if vs != [] {
      assert vs[|vs| - 1] in vs;
      FoldKeepsProfitIdentity(vs[..|vs| - 1]);
    }
  }

  lemma TotalProfitIsRevenueLessCost(m: map<int, YearlyData>)
    requires forall y :: y in m ==> m[y].profit == m[y].revenue - m[y].cost
    ensures CalculateTotals(m).totalProfit == CalculateTotals(m).totalRevenue - CalculateTotals(m).totalCost
  {
    FoldKeepsProfitIdentity(ValuesAt(m, YearsAscending(m)));
  }

  /** The years shown are exactly the map's keys, newest first, and none is shown for an empty map. */
  lemma DisplayedYears(m: map<int, YearlyData>)
    ensures var ys := YearsDescending(m.Keys);
      Enumerates(ys, m.Keys) && StrictlyDescending(ys) && |ys| == |m| && (ys == [] <==> m == map[])
  {
    var ys := YearsDescending(m.Keys);
    ListingSize(ys, m.Keys);
    if m != map[] {
      var y :| y in m;
      assert y in ys;
    }
  }

  /** A listing of a set is as long as the set is large. */
  lemma {:induction false} ListingSize(ys: seq<int>, s: set<int>)
    requires Enumerates(ys, s)
    ensures |ys| == |s|
    decreases |ys|
  {
    if ys == [] {
      NoElementMeansEmpty(s);
    } else {
      RemoveFromListing(ys, 0, s);
      assert ys[..0] + ys[1..] == ys[1..];
      ListingSize(ys[1..], s - {ys[0]});
    }
  }

  /** With a nonnegative cost and profit = revenue - cost, a margin is at most 100 percent, and it is
      negative exactly when the year lost money. */
  lemma MarginBounds(d: YearlyData)
    requires d.revenue > 0.0 && d.cost >= 0.0 && d.profit == d.revenue - d.cost
    ensures YearMargin(d) <= 100.0
    ensures YearMargin(d) < 0.0 <==> d.profit < 0.0
  {
    var r := YearMargin(d);
    assert r * d.revenue == d.profit * 100.0;
  }
}
