/**
 Murphy's decomposition of the Brier score over forecast bins
 (calibration.murphy_decomposition), in exact reals before the output quantization.
 */
module Murphy {
  import opened Wrappers

  /** A forecast probability and what came of it: 0 or 1. */
  datatype Sample = Sample(p: real, o: real)

  ghost predicate Binary(s: seq<Sample>) { forall i :: 0 <= i < |s| ==> s[i].o == 0.0 || s[i].o == 1.0 }

  /** Decimal's int(): truncation towards zero. */
  function Truncate(x: real): int { if x < 0.0 then -((-x).Floor) else x.Floor }

  function BinIndex(p: real, bins: int): int {
    var k := Truncate(p * bins as real);
    if k < bins - 1 then k else bins - 1
  }

  /** The bin of a forecast: of that many equal ones from 0 to 1 the one it falls in, a
      forecast of 1 or more in the last. */
  lemma BinIff(p: real, bins: int, k: int)
    requires bins >= 1 && p >= 0.0
    ensures BinIndex(p, bins) == k <==>
              0 <= k < bins && k as real <= p * bins as real && (k < bins - 1 ==> p * bins as real < (k + 1) as real)
  {
    var x := p * bins as real;
    assert x >= 0.0;
    assert x.Floor as real <= x < (x.Floor + 1) as real;
  }

  /** Members of one bin in the order they came; bins in the order they opened. */
  datatype Group = Group(bin: int, members: seq<Sample>)

  function Find(groups: seq<Group>, bin: int): (k: nat)
    ensures k <= |groups|
    ensures k < |groups| ==> groups[k].bin == bin
    ensures forall j :: 0 <= j < k ==> groups[j].bin != bin
  {
    if groups == [] then 0
    else
      var k := Find(groups[..|groups| - 1], bin);
      if k < |groups| - 1 || groups[|groups| - 1].bin == bin then k else |groups|
  }

  function Place(groups: seq<Group>, bin: int, s: Sample): seq<Group> {
    var k := Find(groups, bin);
    if k == |groups| then groups + [Group(bin, [s])]
    else groups[k := Group(bin, groups[k].members + [s])]
  }

  function ByBin(samples: seq<Sample>, bins: int): seq<Group> {
    if samples == [] then []
    else
      var s := samples[|samples| - 1];
      Place(ByBin(samples[..|samples| - 1], bins), BinIndex(s.p, bins), s)
  }

  ghost predicate Distinct(groups: seq<Group>) {
    forall i, j :: 0 <= i < j < |groups| ==> groups[i].bin != groups[j].bin
  }

  /** The members of a group are samples, at least one, all of its bin. */
  ghost predicate FromBin(g: Group, samples: seq<Sample>, bins: int) {
    g.members != [] && forall m :: m in g.members ==> m in samples && BinIndex(m.p, bins) == g.bin
  }

  lemma PlaceKeepsDistinct(groups: seq<Group>, bin: int, s: Sample)
    requires Distinct(groups)
    ensures Distinct(Place(groups, bin, s))
  {
    var k := Find(groups, bin);
    assert k == |groups| ==> forall i :: 0 <= i < k ==> groups[i].bin != bin;
  }

  lemma {:induction false} GroupsAreBins(samples: seq<Sample>, bins: int)
    ensures Distinct(ByBin(samples, bins))
    ensures forall i :: 0 <= i < |ByBin(samples, bins)| ==> FromBin(ByBin(samples, bins)[i], samples, bins)
  {
    if samples != [] {
      var front, s := samples[..|samples| - 1], samples[|samples| - 1];
      GroupsAreBins(front, bins);
      var before := ByBin(front, bins);
      PlaceKeepsDistinct(before, BinIndex(s.p, bins), s);
      assert forall x :: x in front ==> x in samples;
      assert forall i :: 0 <= i < |before| ==> FromBin(before[i], samples, bins);
    }
  }

  // ------------------------------------------------------------------- the sums

  function Square(x: real): real { x * x }

  function Total(h: Sample -> real, s: seq<Sample>): real {
    if s == [] then 0.0 else Total(h, s[..|s| - 1]) + h(s[|s| - 1])
  }

  function ForecastOf(x: Sample): real { x.p }
  function OutcomeOf(x: Sample): real { x.o }
  function ErrorOf(x: Sample): real { Square(x.p - x.o) }

  function SumP(s: seq<Sample>): real { Total(ForecastOf, s) }

  function SumO(s: seq<Sample>): real { Total(OutcomeOf, s) }

  /** Sum of the squared errors (p - o)^2. */
  function Errors(s: seq<Sample>): real { Total(ErrorOf, s) }

  function Deviation(x: Sample, a: real, b: real): real {
    (x.p - a) * (x.p - a) - 2.0 * (x.p - a) * (x.o - b)
  }

  /** Sum of d^2 - 2de for deviations d of the forecasts and e of the outcomes from a and b. */
  function Within(s: seq<Sample>, a: real, b: real): real {
    if s == [] then 0.0
    else
      Within(s[..|s| - 1], a, b) + Deviation(s[|s| - 1], a, b)
  }

  function MeanP(s: seq<Sample>): real
    requires s != []
  {
    SumP(s) / |s| as real
  }

  function MeanO(s: seq<Sample>): real
    requires s != []
  {
    SumO(s) / |s| as real
  }

  /** n times the squared distance of a and b. */
  function Weighted(n: real, a: real, b: real): real { n * Square(a - b) }

  function RelOf(g: seq<Sample>): real { if g == [] then 0.0 else Weighted(|g| as real, MeanP(g), MeanO(g)) }

  function ResOf(g: seq<Sample>, base: real): real { if g == [] then 0.0 else Weighted(|g| as real, MeanO(g), base) }

  function WithinOf(g: seq<Sample>): real { if g == [] then 0.0 else Within(g, MeanP(g), MeanO(g)) }

  function Rel(groups: seq<Group>): real {
    if groups == [] then 0.0 else Rel(groups[..|groups| - 1]) + RelOf(groups[|groups| - 1].members)
  }

  function Res(groups: seq<Group>, base: real): real {
    if groups == [] then 0.0 else Res(groups[..|groups| - 1], base) + ResOf(groups[|groups| - 1].members, base)
  }

  function WithinAll(groups: seq<Group>): real {
    if groups == [] then 0.0 else WithinAll(groups[..|groups| - 1]) + WithinOf(groups[|groups| - 1].members)
  }

  /** The same added up bin by bin. */
  function GroupTotal(h: Sample -> real, groups: seq<Group>): real {
    if groups == [] then 0.0 else GroupTotal(h, groups[..|groups| - 1]) + Total(h, groups[|groups| - 1].members)
  }

  function GroupCount(groups: seq<Group>): nat {
    if groups == [] then 0 else GroupCount(groups[..|groups| - 1]) + |groups[|groups| - 1].members|
  }

  // ------------------------------------------------------------- binning loses nothing

  lemma {:induction false} TotalUpdate(h: Sample -> real, groups: seq<Group>, k: nat, g: Group)
    requires k < |groups|
    ensures GroupTotal(h, groups[k := g]) == GroupTotal(h, groups) - Total(h, groups[k].members) + Total(h, g.members)
    ensures GroupCount(groups[k := g]) == GroupCount(groups) - |groups[k].members| + |g.members|
  {
    var n := |groups| - 1;
    if k < n {
      TotalUpdate(h, groups[..n], k, g);
      assert groups[k := g][..n] == groups[..n][k := g];
    } else {
      assert groups[k := g][..n] == groups[..n];
    }
  }

  lemma PlaceTotal(h: Sample -> real, groups: seq<Group>, bin: int, s: Sample)
    ensures GroupTotal(h, Place(groups, bin, s)) == GroupTotal(h, groups) + h(s)
    ensures GroupCount(Place(groups, bin, s)) == GroupCount(groups) + 1
  {
    var k := Find(groups, bin);
    if k == |groups| {
      assert (groups + [Group(bin, [s])])[..k] == groups;
      assert Total(h, [s]) == Total(h, []) + h(s);
    } else {
      var m := groups[k].members;
      assert (m + [s])[..|m|] == m;
      TotalUpdate(h, groups, k, Group(bin, m + [s]));
    }
  }

  /** Whatever is added up over the samples comes to the same bin by bin. */
  lemma {:induction false} BinningKeepsTotals(h: Sample -> real, samples: seq<Sample>, bins: int)
    ensures GroupTotal(h, ByBin(samples, bins)) == Total(h, samples)
    ensures GroupCount(ByBin(samples, bins)) == |samples|
  {
    if samples != [] {
      var front, s := samples[..|samples| - 1], samples[|samples| - 1];
      BinningKeepsTotals(h, front, bins);
      PlaceTotal(h, ByBin(front, bins), BinIndex(s.p, bins), s);
    }
  }

  // --------------------------------------------------------------- the identity

  function Expanded(within: real, p: real, o: real, n: real, a: real, b: real): real {
    within + o + 2.0 * a * p - n * a * a - 2.0 * (b * p + a * o) + 2.0 * n * a * b
  }

  lemma {:induction false} Expand(s: seq<Sample>, a: real, b: real)
    requires Binary(s)
    ensures Errors(s) == Expanded(Within(s, a, b), SumP(s), SumO(s), |s| as real, a, b)
  {
    if s != [] {
      var front, x := s[..|s| - 1], s[|s| - 1];
      Expand(front, a, b);
      ExpandOne(x, a, b);
      ExpandedAdds(Within(front, a, b), SumP(front), SumO(front), |front| as real, Deviation(x, a, b), x.p, x.o, a, b);
    }
  }

  lemma ExpandedAdds(within: real, p: real, o: real, n: real, dev: real, xp: real, xo: real, a: real, b: real)
    ensures Expanded(within + dev, p + xp, o + xo, n + 1.0, a, b)
            == Expanded(within, p, o, n, a, b) + Expanded(dev, xp, xo, 1.0, a, b)
  {
    assert 2.0 * a * (p + xp) == 2.0 * a * p + 2.0 * a * xp;
    assert (n + 1.0) * a * a == n * a * a + 1.0 * a * a;
    assert b * (p + xp) == b * p + b * xp && a * (o + xo) == a * o + a * xo;
    assert 2.0 * (n + 1.0) * a * b == 2.0 * n * a * b + 2.0 * 1.0 * a * b;
  }

  lemma ExpandOne(x: Sample, a: real, b: real)
    requires x.o == 0.0 || x.o == 1.0
    ensures Square(x.p - x.o) == Expanded(Deviation(x, a, b), x.p, x.o, 1.0, a, b)
  {
    var p, o := x.p, x.o;
    assert o * o == o;
    assert (p - o) * (p - o) == p * p - 2.0 * (p * o) + o;
    assert (p - a) * (p - a) == p * p - 2.0 * (a * p) + a * a;
    assert 2.0 * (p - a) * (o - b) == 2.0 * (p * o) - 2.0 * (b * p) - 2.0 * (a * o) + 2.0 * a * b;
  }

  /** A bin's share of n times the uncertainty about the base rate. */
  function ShareOf(o: real, n: real, base: real): real { o - 2.0 * (base * o) + n * (base * base) }

  function Share(groups: seq<Group>, base: real): real {
    if groups == [] then 0.0
    else
      var m := groups[|groups| - 1].members;
      Share(groups[..|groups| - 1], base) + ShareOf(SumO(m), |m| as real, base)
  }

  /** One bin: its errors are its reliability less its resolution, plus the within-bin
      term, plus its share of the uncertainty. */
  lemma OneBin(g: seq<Sample>, base: real)
    requires Binary(g)
    ensures Errors(g) == RelOf(g) - ResOf(g, base) + WithinOf(g) + ShareOf(SumO(g), |g| as real, base)
  {
    if g != [] {
      var a, b := MeanP(g), MeanO(g);
      Expand(g, a, b);
      OneBinAlgebra(|g| as real, SumP(g), SumO(g), a, b, base, Within(g, a, b), Errors(g));
    }
  }

  lemma OneBinAlgebra(n: real, p: real, o: real, a: real, b: real, base: real, within: real, errors: real)
    requires n > 0.0 && a == p / n && b == o / n
    requires errors == Expanded(within, p, o, n, a, b)
    ensures errors == Weighted(n, a, b) - Weighted(n, b, base) + within + ShareOf(o, n, base)
  {
    assert p == n * a && o == n * b;
    assert 2.0 * a * p - n * a * a == n * (a * a);
    assert b * p == n * (a * b) && a * o == n * (a * b);
    assert 2.0 * n * a * b == 2.0 * (n * (a * b));
    assert n * Square(a - b) == n * (a * a) - 2.0 * (n * (a * b)) + n * (b * b);
    assert n * Square(b - base) == n * (b * b) - 2.0 * (n * (b * base)) + n * (base * base);
    assert base * o == n * (b * base);
  }

  lemma {:induction false} AllBins(groups: seq<Group>, base: real)
    requires forall i :: 0 <= i < |groups| ==> Binary(groups[i].members)
    ensures GroupTotal(ErrorOf, groups) == Rel(groups) - Res(groups, base) + WithinAll(groups) + Share(groups, base)
  {
    if groups != [] {
      AllBins(groups[..|groups| - 1], base);
      OneBin(groups[|groups| - 1].members, base);
    }
  }

  lemma ShareAdds(o: real, n: real, p: real, m: real, base: real)
    ensures ShareOf(o + p, n + m, base) == ShareOf(o, n, base) + ShareOf(p, m, base)
  {
    assert base * (o + p) == base * o + base * p;
    assert (n + m) * (base * base) == n * (base * base) + m * (base * base);
  }

  lemma {:induction false} ShareTotal(groups: seq<Group>, base: real)
    ensures Share(groups, base) == ShareOf(GroupTotal(OutcomeOf, groups), GroupCount(groups) as real, base)
  {
    if groups != [] {
      var front, m := groups[..|groups| - 1], groups[|groups| - 1].members;
      ShareTotal(front, base);
      ShareAdds(GroupTotal(OutcomeOf, front), GroupCount(front) as real, SumO(m), |m| as real, base);
    }
  }

  /** About its own base rate the shares come to n times the uncertainty. */
  lemma ShareIsUncertainty(o: real, n: real, base: real)
    requires n > 0.0 && base == o / n
    ensures ShareOf(o, n, base) == n * (base * (1.0 - base))
  {
    assert o == n * base;
    assert base * (n * base) == n * (base * base);
    assert n * (base * (1.0 - base)) == n * base - n * (base * base);
  }

  datatype Decomposition = Decomposition(brier: real, rel: real, res: real, unc: real, base: real, n: nat)

  function Decompose(samples: seq<Sample>, bins: int): Decomposition
    requires samples != []
  {
    var base, groups := MeanO(samples), ByBin(samples, bins);
    Decomposed(Errors(samples), Rel(groups), Res(groups, base), base, |samples|)
  }

  function Decomposed(errors: real, rel: real, res: real, base: real, n: nat): Decomposition
    requires n > 0
  {
    Decomposition(errors / n as real, rel / n as real, res / n as real, base * (1.0 - base), base, n)
  }

  lemma BinaryBins(samples: seq<Sample>, bins: int)
    requires Binary(samples)
    ensures var groups := ByBin(samples, bins);
            forall i :: 0 <= i < |groups| ==> groups[i].members != [] && Binary(groups[i].members)
  {
    GroupsAreBins(samples, bins);
  }

  predicate Balanced(errors: real, rel: real, res: real, within: real, base: real, n: nat) {
    errors == rel - res + within + n as real * (base * (1.0 - base))
  }

  lemma FromShares(errors: real, rel: real, res: real, within: real, base: real, o: real, n: nat)
    requires n > 0 && base == o / n as real
    requires errors == rel - res + within + ShareOf(o, n as real, base)
    ensures Balanced(errors, rel, res, within, base, n)
  {
    ShareIsUncertainty(o, n as real, base);
  }

  /** Binning and adding up bin by bin keeps every total. */
  lemma SharesAndErrors(samples: seq<Sample>, bins: int)
    requires Binary(samples) && samples != []
    ensures var groups, base := ByBin(samples, bins), MeanO(samples);
            && Share(groups, base) == ShareOf(SumO(samples), |samples| as real, base)
            && Balanced(Errors(samples), Rel(groups), Res(groups, base), WithinAll(groups), base, |samples|)
  {
    var groups, base := ByBin(samples, bins), MeanO(samples);
    BinaryBins(samples, bins);
    BinningKeepsTotals(ErrorOf, samples, bins);
    BinningKeepsTotals(OutcomeOf, samples, bins);
    AllBins(groups, base);
    ShareTotal(groups, base);
    FromShares(Errors(samples), Rel(groups), Res(groups, base), WithinAll(groups), base, SumO(samples), |samples|);
  }

  lemma DecomposedIdentity(errors: real, rel: real, res: real, within: real, base: real, n: nat)
    requires n > 0 && Balanced(errors, rel, res, within, base, n)
    ensures var d := Decomposed(errors, rel, res, base, n);
            d.brier == d.rel - d.res + d.unc + within / n as real
  {
    BalanceDivided(errors, rel, res, within, n as real, base * (1.0 - base));
  }

  lemma BalanceDivided(errors: real, rel: real, res: real, within: real, k: real, unc: real)
    requires k > 0.0 && errors == rel - res + k * unc + within
    ensures errors / k == rel / k - res / k + unc + within / k
  {
    var a, b, c, e := rel / k, res / k, within / k, errors / k;
    assert a * k == rel && b * k == res && c * k == within && e * k == errors;
    calc {
      (e - (a - b + unc + c)) * k;
      e * k - (a * k - b * k + unc * k + c * k);
      errors - (rel - res + k * unc + within);
      0.0;
    }
    ProductSign(e - (a - b + unc + c), k);
  }

  /** Exactly: the Brier score is reliability less resolution plus uncertainty, plus
      the mean of d^2 - 2de over the deviations within bins. */
  lemma MurphyIdentity(samples: seq<Sample>, bins: int)
    requires Binary(samples) && samples != []
    ensures var d := Decompose(samples, bins);
            d.brier == d.rel - d.res + d.unc + WithinAll(ByBin(samples, bins)) / |samples| as real
  {
    var base, groups := MeanO(samples), ByBin(samples, bins);
    SharesAndErrors(samples, bins);
    DecomposedIdentity(Errors(samples), Rel(groups), Res(groups, base), WithinAll(groups), base, |samples|);
  }

  // ---------------------------------------------------------------- consequences

  ghost predicate ConstantForecasts(g: seq<Sample>) {
    forall i, j :: 0 <= i < |g| && 0 <= j < |g| ==> g[i].p == g[j].p
  }

  lemma {:induction false} ConstantSum(g: seq<Sample>, p: real)
    requires forall i :: 0 <= i < |g| ==> g[i].p == p
    ensures SumP(g) == |g| as real * p
    ensures forall b :: Within(g, p, b) == 0.0
  {
    if g != [] {
      ConstantSum(g[..|g| - 1], p);
      assert |g| as real * p == (|g| - 1) as real * p + p;
    }
  }

  lemma {:induction false} ConstantBins(groups: seq<Group>)
    requires forall i :: 0 <= i < |groups| ==> groups[i].members != [] && ConstantForecasts(groups[i].members)
    ensures WithinAll(groups) == 0.0
  {
    if groups != [] {
      var m := groups[|groups| - 1].members;
      ConstantBins(groups[..|groups| - 1]);
      ConstantSum(m, m[0].p);
      MeanOfConstant(SumP(m), |m| as real, m[0].p);
    }
  }

  lemma MeanOfConstant(sum: real, n: real, x: real)
    requires n > 0.0 && sum == n * x
    ensures sum / n == x
  {}

  /** The three-term identity whenever the forecasts in each bin agree. */
  lemma ThreeTermIdentity(samples: seq<Sample>, bins: int)
    requires Binary(samples) && samples != []
    requires forall x, y :: x in samples && y in samples && BinIndex(x.p, bins) == BinIndex(y.p, bins) ==> x.p == y.p
    ensures var d := Decompose(samples, bins); d.brier == d.rel - d.res + d.unc
  {
    MurphyIdentity(samples, bins);
    GroupsAreBins(samples, bins);
    ConstantBins(ByBin(samples, bins));
    assert 0.0 / |samples| as real == 0.0;
  }

  /** Spread of the outcomes about b. */
  function Spread(g: seq<Sample>, b: real): real {
    if g == [] then 0.0 else Spread(g[..|g| - 1], b) + Square(g[|g| - 1].o - b)
  }

  lemma {:induction false} SpreadExpands(g: seq<Sample>, b: real)
    requires Binary(g)
    ensures Spread(g, b) == ShareOf(SumO(g), |g| as real, b)
  {
    if g != [] {
      var front, o := g[..|g| - 1], g[|g| - 1].o;
      SpreadExpands(front, b);
      ShareAdds(SumO(front), |front| as real, o, 1.0, b);
      assert o * o == o;
      assert Square(o - b) == o - 2.0 * (b * o) + b * b;
    }
  }

  lemma {:induction false} SpreadPositive(g: seq<Sample>, b: real)
    ensures Spread(g, b) >= 0.0
    ensures Spread(g, b) == 0.0 <==> forall i :: 0 <= i < |g| ==> g[i].o == b
  {
    if g != [] {
      SpreadPositive(g[..|g| - 1], b);
      SquarePositive(g[|g| - 1].o - b);
    }
  }

  lemma PositiveSquare(x: real)
    requires x > 0.0
    ensures Square(x) > 0.0
  {
    assert Square(x) / x == x;
  }

  lemma SquarePositive(x: real)
    ensures Square(x) >= 0.0
    ensures x != 0.0 ==> Square(x) > 0.0
  {
    assert Square(x) == Square(-x);
    if x > 0.0 {
      PositiveSquare(x);
    } else if x < 0.0 {
      PositiveSquare(-x);
    }
  }

  lemma SpreadOfShare(o: real, n: real, b: real, base: real)
    requires n > 0.0 && b == o / n
    ensures ShareOf(o, n, base) == Weighted(n, b, base) + ShareOf(o, n, b)
  {
    assert o == n * b;
    assert base * (n * b) == n * (b * base) && b * (n * b) == n * (b * b);
    assert n * Square(b - base) == n * (b * b) - 2.0 * (n * (b * base)) + n * (base * base);
  }

  ghost predicate SpreadFree(groups: seq<Group>) {
    forall i :: 0 <= i < |groups| && groups[i].members != [] ==> ConstantOutcomes(groups[i].members)
  }

  ghost predicate ConstantOutcomes(g: seq<Sample>) {
    forall i, j :: 0 <= i < |g| && 0 <= j < |g| ==> g[i].o == g[j].o
  }

  lemma {:induction false} ConstantOutcomeSum(g: seq<Sample>, o: real)
    requires forall i :: 0 <= i < |g| ==> g[i].o == o
    ensures SumO(g) == |g| as real * o
  {
    if g != [] {
      ConstantOutcomeSum(g[..|g| - 1], o);
      assert |g| as real * o == (|g| - 1) as real * o + o;
    }
  }

  lemma WeightedPositive(n: real, a: real, b: real)
    requires n > 0.0
    ensures Weighted(n, a, b) >= 0.0
  {
    SquarePositive(a - b);
  }

  lemma ResBelowOne(g: seq<Sample>, base: real)
    requires Binary(g) && g != []
    ensures 0.0 <= ResOf(g, base) <= ShareOf(SumO(g), |g| as real, base)
    ensures ResOf(g, base) == ShareOf(SumO(g), |g| as real, base) <==> ConstantOutcomes(g)
  {
    var n, b := |g| as real, MeanO(g);
    SpreadOfShare(SumO(g), n, b, base);
    SpreadExpands(g, b);
    SpreadPositive(g, b);
    WeightedPositive(n, b, base);
    if ConstantOutcomes(g) {
      ConstantOutcomeSum(g, g[0].o);
      MeanOfConstant(SumO(g), n, g[0].o);
    }
  }

  lemma {:induction false} ResBelowShare(groups: seq<Group>, base: real)
    requires forall i :: 0 <= i < |groups| ==> groups[i].members != [] && Binary(groups[i].members)
    ensures 0.0 <= Res(groups, base) <= Share(groups, base)
    ensures Res(groups, base) == Share(groups, base) <==> SpreadFree(groups)
  {
    if groups != [] {
      ResBelowShare(groups[..|groups| - 1], base);
      ResBelowOne(groups[|groups| - 1].members, base);
    }
  }

  lemma DecomposedBound(errors: real, rel: real, res: real, share: real, base: real, o: real, n: nat)
    requires n > 0 && base == o / n as real && 0.0 <= res <= share == ShareOf(o, n as real, base)
    ensures var d := Decomposed(errors, rel, res, base, n);
            0.0 <= d.res <= d.unc && (d.res == d.unc <==> res == share)
  {
    ShareIsUncertainty(o, n as real, base);
    QuotientWithin(res, n as real, base * (1.0 - base));
  }

  /** A part of k equal shares, divided by k, is part of one. */
  lemma QuotientWithin(part: real, k: real, share: real)
    requires k > 0.0 && 0.0 <= part <= k * share
    ensures 0.0 <= part / k <= share && (part / k == share <==> part == k * share)
  {
    var q := part / k;
    assert q * k == part;
    ProductSign(q, k);
    calc {
      (share - q) * k;
      k * share - q * k;
      k * share - part;
    }
    ProductSign(share - q, k);
  }

  lemma ProductSign(x: real, k: real)
    requires k > 0.0 && x * k >= 0.0
    ensures x >= 0.0 && (x == 0.0 <==> x * k == 0.0)
  {}

  /** Resolution never exceeds uncertainty, and reaches it exactly when the outcomes
      of each bin agree. */
  lemma ResolutionAtMostUncertainty(samples: seq<Sample>, bins: int)
    requires Binary(samples) && samples != []
    ensures var d := Decompose(samples, bins);
            && 0.0 <= d.res <= d.unc
            && (d.res == d.unc <==> SpreadFree(ByBin(samples, bins)))
  {
    var base, groups := MeanO(samples), ByBin(samples, bins);
    SharesAndErrors(samples, bins);
    BinaryBins(samples, bins);
    ResBelowShare(groups, base);
    DecomposedBound(Errors(samples), Rel(groups), Res(groups, base), Share(groups, base), base, SumO(samples), |samples|);
  }

  // ------------------------------------------------------------------ the loops

  lemma FindUnique(groups: seq<Group>, bin: int, k: nat)
    requires k <= |groups| && (k < |groups| ==> groups[k].bin == bin)
    requires forall j :: 0 <= j < k ==> groups[j].bin != bin
    ensures Find(groups, bin) == k
  {}

  method AddToBin(groups: seq<Group>, bin: int, s: Sample) returns (r: seq<Group>)
    ensures r == Place(groups, bin, s)
  {
    var k := 0;
    while k < |groups| && groups[k].bin != bin
      invariant 0 <= k <= |groups|
      invariant forall j :: 0 <= j < k ==> groups[j].bin != bin
    {
      k := k + 1;
    }
    FindUnique(groups, bin, k);
    if k == |groups| {
      r := groups + [Group(bin, [s])];
    } else {
      r := groups[k := Group(bin, groups[k].members + [s])];
    }
  }

  method Sums(s: seq<Sample>) returns (p: real, o: real)
    ensures p == SumP(s) && o == SumO(s)
  {
    p, o := 0.0, 0.0;
    for i := 0 to |s|
      invariant p == SumP(s[..i]) && o == SumO(s[..i])
    {
      assert s[..i + 1][..i] == s[..i];
      p, o := p + s[i].p, o + s[i].o;
    }
    assert s[..|s|] == s;
  }

  datatype Error = NoSamples

  method Bin(samples: seq<Sample>, bins: int) returns (byBin: seq<Group>, outcomes: real, errors: real)
    ensures byBin == ByBin(samples, bins) && outcomes == SumO(samples) && errors == Errors(samples)
  {
    byBin, outcomes, errors := [], 0.0, 0.0;
    for i := 0 to |samples|
      invariant byBin == ByBin(samples[..i], bins)
      invariant outcomes == SumO(samples[..i]) && errors == Errors(samples[..i])
    {
      assert samples[..i + 1][..i] == samples[..i];
      var s := samples[i];
      byBin := AddToBin(byBin, BinIndex(s.p, bins), s);
      outcomes := outcomes + s.o;
      errors := errors + Square(s.p - s.o);
    }
    assert samples[..|samples|] == samples;
  }

  method SumBins(byBin: seq<Group>, base: real) returns (rel: real, res: real)
    requires forall i :: 0 <= i < |byBin| ==> byBin[i].members != []
    ensures rel == Rel(byBin) && res == Res(byBin, base)
  {
    rel, res := 0.0, 0.0;
    for i := 0 to |byBin|
      invariant rel == Rel(byBin[..i]) && res == Res(byBin[..i], base)
    {
      assert byBin[..i + 1][..i] == byBin[..i];
      var sp, so := Sums(byBin[i].members);
      var size := |byBin[i].members| as real;
      var meanP, meanO := sp / size, so / size;
      rel := rel + Weighted(size, meanP, meanO);
      res := res + Weighted(size, meanO, base);
    }
    assert byBin[..|byBin|] == byBin;
  }

  method MurphyDecomposition(samples: seq<Sample>, bins: int) returns (r: Result<Decomposition, Error>)
    ensures r == if samples == [] then Failure(NoSamples) else Success(Decompose(samples, bins))
  {
    if samples == [] {
      return Failure(NoSamples);
    }
    var byBin, outcomes, errors := Bin(samples, bins);
    GroupsAreBins(samples, bins);
    var base := outcomes / |samples| as real;
    var rel, res := SumBins(byBin, base);
    r := Success(Decomposed(errors, rel, res, base, |samples|));
  }
}
