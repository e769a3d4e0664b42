/**
 The risk metrics of a back-test (backtest_metrics.py): the one-pass maximum
 drawdown, the worst day and the profit factor, and what they say together.
 */
module Drawdown {
  import opened Wrappers
  import opened Rounding

  const PINNED_PROFIT_FACTOR_MIN: real := 1.10
  const NO_LOSSES: real := 999999.0

  datatype Trade = Trade(day: string, net: real)

  function Sum(v: seq<real>): real { if v == [] then 0.0 else Sum(v[..|v| - 1]) + v[|v| - 1] }

  function Nets(trades: seq<Trade>): seq<real> {
    if trades == [] then [] else Nets(trades[..|trades| - 1]) + [trades[|trades| - 1].net]
  }

  // -------------------------------------------------------------- the drawdown

  lemma {:induction false} SumConcat(a: seq<real>, b: seq<real>)
    ensures Sum(a + b) == Sum(a) + Sum(b)
  {
    if b == [] {
      assert a + b == a;
    } else {
      SumConcat(a, b[..|b| - 1]);
      assert (a + b)[..|a + b| - 1] == a + b[..|b| - 1];
    }
  }

  /** Equity after k values, and what a run of them comes to. */
  function After(v: seq<real>, k: nat): real
    requires k <= |v|
  {
    Sum(v[..k])
  }

  function RunTotal(v: seq<real>, i: nat, j: nat): real
    requires i <= j <= |v|
  {
    Sum(v[i..j])
  }

  lemma RunSum(v: seq<real>, i: nat, j: nat)
    requires i <= j <= |v|
    ensures RunTotal(v, i, j) == After(v, j) - After(v, i)
  {
    assert v[..j] == v[..i] + v[i..j];
    SumConcat(v[..i], v[i..j]);
  }

  lemma AfterStep(v: seq<real>, k: nat)
    requires k < |v|
    ensures After(v, k + 1) == After(v, k) + v[k]
  {
    assert v[..k + 1][..k] == v[..k];
  }

  /** The highest equity up to k values, the start included. */
  ghost predicate IsPeak(peak: real, v: seq<real>, k: nat)
    requires k <= |v|
  {
    && (exists i :: 0 <= i <= k && peak == After(v, i))
    && (forall i :: 0 <= i <= k ==> After(v, i) <= peak)
  }

  /** The lowest sum of any run of consecutive values among the first k, the empty run included. */
  ghost predicate WorstUpto(worst: real, v: seq<real>, k: nat)
    requires k <= |v|
  {
    && (exists i, j :: 0 <= i <= j <= k && worst == RunTotal(v, i, j))
    && (forall i, j :: 0 <= i <= j <= k ==> worst <= RunTotal(v, i, j))
  }

  ghost predicate IsWorstRun(worst: real, v: seq<real>) { WorstUpto(worst, v, |v|) }

  lemma PeakStep(peak: real, v: seq<real>, k: nat)
    requires k < |v| && IsPeak(peak, v, k)
    ensures IsPeak(if After(v, k + 1) > peak then After(v, k + 1) else peak, v, k + 1)
  {}

  lemma WorstStep(worst: real, peak: real, v: seq<real>, k: nat)
    requires k < |v| && WorstUpto(worst, v, k) && IsPeak(peak, v, k + 1)
    ensures var down := After(v, k + 1) - peak; WorstUpto(if down < worst then down else worst, v, k + 1)
  {
    var down := After(v, k + 1) - peak;
    var next := if down < worst then down else worst;
    forall i, j | 0 <= i <= j <= k + 1 ensures next <= RunTotal(v, i, j) {
      if j == k + 1 { RunSum(v, i, j); }
    }
    if down < worst {
      var i :| 0 <= i <= k + 1 && peak == After(v, i);
      RunSum(v, i, k + 1);
    }
  }

  lemma AtTheStart(v: seq<real>)
    ensures After(v, 0) == 0.0 && IsPeak(0.0, v, 0) && WorstUpto(0.0, v, 0)
  {
    assert RunTotal(v, 0, 0) == 0.0;
  }

  lemma WorstRunUnique(a: real, b: real, v: seq<real>)
    requires IsWorstRun(a, v) && IsWorstRun(b, v)
    ensures a == b
  {
    var i, j :| 0 <= i <= j <= |v| && a == RunTotal(v, i, j);
    var k, l :| 0 <= k <= l <= |v| && b == RunTotal(v, k, l);
  }

  /** One pass with a running peak finds the worst run there is, and nothing else would
      be that. */
  method MaxDrawdown(v: seq<real>) returns (worst: real)
    ensures IsWorstRun(worst, v) && forall other :: IsWorstRun(other, v) ==> other == worst
  {
    var peak, equity := 0.0, 0.0;
    worst := 0.0;
    AtTheStart(v);
    for k := 0 to |v|
      invariant equity == After(v, k)
      invariant IsPeak(peak, v, k) && WorstUpto(worst, v, k)
    {
      AfterStep(v, k);
      equity := equity + v[k];
      PeakStep(peak, v, k);
      if equity > peak {
        peak := equity;
      }
      WorstStep(worst, peak, v, k);
      var drawdown := equity - peak;
      if drawdown < worst {
        worst := drawdown;
      }
    }
    forall other | IsWorstRun(other, v) ensures other == worst {
      WorstRunUnique(other, worst, v);
    }
  }

  // --------------------------------------------------------------- the worst day

  function DayTotal(trades: seq<Trade>, day: string): real {
    if trades == [] then 0.0
    else
      var last := trades[|trades| - 1];
      DayTotal(trades[..|trades| - 1], day) + (if last.day == day then last.net else 0.0)
  }

  function Days(trades: seq<Trade>): set<string> {
    if trades == [] then {} else Days(trades[..|trades| - 1]) + {trades[|trades| - 1].day}
  }

  /** The lowest day total; 0 without a trade. */
  ghost predicate IsWorstDay(worst: real, trades: seq<Trade>) {
    if trades == [] then worst == 0.0
    else
      && (exists d :: d in Days(trades) && worst == DayTotal(trades, d))
      && (forall d :: d in Days(trades) ==> worst <= DayTotal(trades, d))
  }

  lemma DaySnoc(trades: seq<Trade>, t: Trade, day: string)
    ensures DayTotal(trades + [t], day) == DayTotal(trades, day) + (if t.day == day then t.net else 0.0)
    ensures Days(trades + [t]) == Days(trades) + {t.day}
  {
    assert (trades + [t])[..|trades|] == trades;
  }

  lemma {:induction false} NoTradeThatDay(trades: seq<Trade>, day: string)
    requires day !in Days(trades)
    ensures DayTotal(trades, day) == 0.0
  {
    if trades != [] {
      NoTradeThatDay(trades[..|trades| - 1], day);
    }
  }

  method WorstDay(trades: seq<Trade>) returns (worst: real)
    ensures IsWorstDay(worst, trades)
  {
    var byDay: map<string, real> := map[];
    var order: seq<string> := [];
    assert trades[..0] == [];
    for i := 0 to |trades|
      invariant byDay.Keys == Days(trades[..i])
      invariant forall d :: d in byDay ==> byDay[d] == DayTotal(trades[..i], d)
      invariant (forall k :: 0 <= k < |order| ==> order[k] in byDay) && (forall d :: d in byDay ==> d in order)
    {
      var t := trades[i];
      assert trades[..i + 1] == trades[..i] + [t];
      forall d: string
        ensures DayTotal(trades[..i + 1], d) == DayTotal(trades[..i], d) + (if t.day == d then t.net else 0.0)
        ensures Days(trades[..i + 1]) == Days(trades[..i]) + {t.day}
      {
        DaySnoc(trades[..i], t, d);
      }
      DaySnoc(trades[..i], t, t.day);
      if t.day !in byDay {
        NoTradeThatDay(trades[..i], t.day);
        order := order + [t.day];
      }
      byDay := byDay[t.day := (if t.day in byDay then byDay[t.day] else 0.0) + t.net];
    }
    assert trades[..|trades|] == trades;
    if trades == [] {
      return 0.0;
    }
    assert trades[|trades| - 1].day in byDay;
    worst := byDay[order[0]];
    for k := 1 to |order|
      invariant exists d :: d in byDay && worst == byDay[d]
      invariant forall j :: 0 <= j < k ==> worst <= byDay[order[j]]
    {
      if byDay[order[k]] < worst {
        worst := byDay[order[k]];
      }
    }
  }

  /** The trades of a day, if it has any, are neighbours. */
  ghost predicate Contiguous(trades: seq<Trade>) {
    forall i, j, k :: 0 <= i <= j <= k < |trades| && trades[i].day == trades[k].day ==> trades[j].day == trades[i].day
  }

  lemma {:induction false} NetsShape(trades: seq<Trade>)
    ensures |Nets(trades)| == |trades|
    ensures forall i :: 0 <= i < |trades| ==> Nets(trades)[i] == trades[i].net
  {
    if trades != [] {
      NetsShape(trades[..|trades| - 1]);
    }
  }

  /** Profit after the first k trades. */
  ghost function Equity(trades: seq<Trade>, k: nat): real
    requires k <= |trades|
  {
    Sum(Nets(trades[..k]))
  }

  ghost predicate IsRun(total: real, trades: seq<Trade>, i: nat, j: nat) {
    i <= j <= |trades| && total == Equity(trades, j) - Equity(trades, i)
  }

  lemma EquityStep(trades: seq<Trade>, k: nat)
    requires k < |trades|
    ensures Equity(trades, k + 1) == Equity(trades, k) + trades[k].net
  {
    assert trades[..k + 1][..k] == trades[..k];
    var v := Nets(trades[..k + 1]);
    assert v[..|v| - 1] == Nets(trades[..k]);
  }

  lemma EquityOfFront(trades: seq<Trade>, k: nat)
    requires k < |trades|
    ensures Equity(trades[..|trades| - 1], k) == Equity(trades, k)
  {
    assert trades[..|trades| - 1][..k] == trades[..k];
  }

  lemma FirstOfItsDay(trades: seq<Trade>)
    requires Contiguous(trades) && trades != []
    requires |trades| > 1 ==> trades[|trades| - 2].day != trades[|trades| - 1].day
    ensures forall k :: 0 <= k < |trades| - 1 ==> trades[k].day != trades[|trades| - 1].day
  {}

  /** The last trade's day is a run that ends with it. */
  lemma {:induction false} LastDayIsARun(trades: seq<Trade>) returns (i: nat)
    requires Contiguous(trades) && trades != []
    ensures IsRun(DayTotal(trades, trades[|trades| - 1].day), trades, i, |trades|)
  {
    var n := |trades| - 1;
    var front, day := trades[..n], trades[n].day;
    EquityStep(trades, n);
    if n > 0 && trades[n - 1].day == day {
      i := LastDayIsARun(front);
      EquityOfFront(trades, i);
      assert front[..n] == trades[..n];
    } else {
      FirstOfItsDay(trades);
      NotInDays(front, day);
      NoTradeThatDay(front, day);
      i := n;
    }
  }

  lemma {:induction false} NotInDays(trades: seq<Trade>, day: string)
    requires forall k :: 0 <= k < |trades| ==> trades[k].day != day
    ensures day !in Days(trades)
  {
    if trades != [] {
      NotInDays(trades[..|trades| - 1], day);
    }
  }

  /** Every day's total is the sum of a run of trades. */
  lemma {:induction false} DayIsARun(trades: seq<Trade>, day: string) returns (i: nat, j: nat)
    requires Contiguous(trades) && day in Days(trades)
    ensures IsRun(DayTotal(trades, day), trades, i, j)
  {
    var n := |trades| - 1;
    if trades[n].day == day {
      i := LastDayIsARun(trades);
      j := |trades|;
    } else {
      i, j := DayIsARun(trades[..n], day);
      assert trades[..n][..j] == trades[..j] && trades[..n][..i] == trades[..i];
    }
  }

  lemma EquityIsPrefix(trades: seq<Trade>, k: nat)
    requires k <= |trades|
    ensures |Nets(trades)| == |trades| && Equity(trades, k) == After(Nets(trades), k)
  {
    NetsShape(trades);
    NetsShape(trades[..k]);
    assert Nets(trades[..k]) == Nets(trades)[..k];
  }

  /** With each day's trades together, the maximum drawdown is at or below the worst day. */
  lemma DrawdownAtMostWorstDay(trades: seq<Trade>, drawdown: real, worst: real)
    requires Contiguous(trades) && IsWorstRun(drawdown, Nets(trades)) && IsWorstDay(worst, trades)
    ensures drawdown <= worst
  {
    NetsShape(trades);
    if trades == [] {
      assert RunTotal(Nets(trades), 0, 0) == 0.0;
    } else {
      var d :| d in Days(trades) && worst == DayTotal(trades, d);
      var i, j := DayIsARun(trades, d);
      EquityIsPrefix(trades, i);
      EquityIsPrefix(trades, j);
      RunSum(Nets(trades), i, j);
    }
  }

  // ------------------------------------------------------------ the profit factor

  function Gains(v: seq<real>): real {
    if v == [] then 0.0 else Gains(v[..|v| - 1]) + (if v[|v| - 1] > 0.0 then v[|v| - 1] else 0.0)
  }

  function Losses(v: seq<real>): real {
    if v == [] then 0.0 else Losses(v[..|v| - 1]) + (if v[|v| - 1] < 0.0 then -v[|v| - 1] else 0.0)
  }

  lemma {:induction false} NetIsGainsLessLosses(v: seq<real>)
    ensures Sum(v) == Gains(v) - Losses(v) && Gains(v) >= 0.0 && Losses(v) >= 0.0
  {
    if v != [] {
      NetIsGainsLessLosses(v[..|v| - 1]);
    }
  }

  function Size(x: real): real { if x < 0.0 then -x else x }

  function SumOfSizes(v: seq<real>): real { if v == [] then 0.0 else SumOfSizes(v[..|v| - 1]) + Size(v[|v| - 1]) }

  /** Gains less losses is the net, and gains and losses together are all that moved. */
  lemma {:induction false} GainsAndLosses(v: seq<real>)
    ensures Gains(v) - Losses(v) == Sum(v) && Gains(v) + Losses(v) == SumOfSizes(v)
  {
    if v != [] {
      GainsAndLosses(v[..|v| - 1]);
    }
  }

  function ProfitFactorOf(v: seq<real>): real {
    if Losses(v) == 0.0 then if Gains(v) > 0.0 then NO_LOSSES else 0.0
    else Quantize(Gains(v) / Losses(v))
  }

  method ProfitFactor(v: seq<real>) returns (f: real)
    ensures f == ProfitFactorOf(v)
  {
    var gains, losses := 0.0, 0.0;
    for i := 0 to |v|
      invariant gains == Gains(v[..i]) && losses == Losses(v[..i])
    {
      assert v[..i + 1][..i] == v[..i];
      if v[i] > 0.0 {
        gains := gains + v[i];
      }
      if v[i] < 0.0 {
        losses := losses - v[i];
      }
    }
    assert v[..|v|] == v;
    if losses == 0.0 {
      return if gains > 0.0 then NO_LOSSES else 0.0;
    }
    f := Quantize(gains / losses);
  }

  /** What the factor is, of the net and of all that moved: without a loss a constant, or
      nothing; else the nearest millionth of gains over losses. */
  lemma ProfitFactorValue(v: seq<real>)
    ensures var f, net, moved := ProfitFactorOf(v), Sum(v), SumOfSizes(v);
            if net == moved then f == if net > 0.0 then 999999.0 else 0.0
            else NearestMillionth(f, ((moved + net) / 2.0) / ((moved - net) / 2.0))
  {
    GainsAndLosses(v);
    if Losses(v) != 0.0 {
      QuantizeIff(Gains(v) / Losses(v), ProfitFactorOf(v));
    }
  }

  lemma RatioAboveOne(gains: real, losses: real)
    requires losses > 0.0
    ensures gains / losses > 1.0 <==> gains > losses
    ensures gains / losses >= 1.0 <==> gains >= losses
  {
    assert (gains / losses) * losses == gains;
    var r := gains / losses;
    assert (r - 1.0) * losses == gains - losses;
    if gains > losses {
      assert r > 1.0 by { Positive(r - 1.0, losses); }
    }
  }

  lemma Positive(x: real, k: real)
    requires k > 0.0 && x * k > 0.0
    ensures x > 0.0
  {}

  /** Even after quantizing, a profit factor above one means a profit, and a profit means
      a factor of at least one; so the pinned minimum forces a positive net. */
  lemma ProfitFactorMeansProfit(v: seq<real>)
    ensures ProfitFactorOf(v) > 1.0 ==> Sum(v) > 0.0
    ensures Sum(v) > 0.0 ==> ProfitFactorOf(v) >= 1.0
    ensures ProfitFactorOf(v) >= PINNED_PROFIT_FACTOR_MIN ==> Sum(v) > 0.0
  {
    NetIsGainsLessLosses(v);
    if Losses(v) > 0.0 {
      assert OnGrid(1.0);
      QuantizeComparesWithGrid(Gains(v) / Losses(v), 1.0);
      RatioAboveOne(Gains(v), Losses(v));
    }
  }
}
