/**
 The mid-bar label series and its point-in-time reader (bar_series.py): an indexed
 history that must equal filtering the whole series. Instants are integers.
 */
module BarSeries {
  import opened Wrappers

  datatype Key = Key(symbol: string, instrument: int)

  /** Where a label came from; two labels are compared only within one provenance. */
  datatype Source = Source(dataset: string, schema: string, pin: string)

  datatype Reason = NoQuotesInBucket | InvalidQuotesOnly | FutureReceipt | OutOfSeries

  /** What is on record for one bucket: its mid bar, or that it has none and why. */
  datatype Record =
    | Bar(key: Key, end: int, watermark: int, mid: real, source: Source)
    | Missing(key: Key, end: int, reason: Reason)

  ghost predicate AllBars(s: seq<Record>) { forall i :: 0 <= i < |s| ==> s[i].Bar? }

  ghost predicate AllMissing(s: seq<Record>) { forall i :: 0 <= i < |s| ==> s[i].Missing? }

  // ------------------------------------------------------------- specification

  function RecordsOf(s: seq<Record>, key: Key): seq<Record> {
    if s == [] then []
    else RecordsOf(s[..|s| - 1], key) + (if s[|s| - 1].key == key then [s[|s| - 1]] else [])
  }

  ghost predicate Ordered(bars: seq<Record>) { forall i, j :: 0 <= i < j < |bars| ==> bars[i].end < bars[j].end }

  /** A bar may be known at an instant when it had ended and been received by then. */
  predicate Eligible(b: Record, asOf: int) { b.Bar? && b.end <= asOf && b.watermark <= asOf }

  function EligibleOf(bars: seq<Record>, asOf: int): seq<Record> {
    if bars == [] then []
    else EligibleOf(bars[..|bars| - 1], asOf) + (if Eligible(bars[|bars| - 1], asOf) then [bars[|bars| - 1]] else [])
  }

  function LastK<T>(s: seq<T>, k: int): (r: seq<T>) { if k <= 0 then [] else if |s| <= k then s else s[|s| - k..] }

  /** The last k bars of the series eligible at an instant, oldest first. */
  function History(bars: seq<Record>, key: Key, asOf: int, k: int): seq<Record> {
    LastK(EligibleOf(RecordsOf(bars, key), asOf), k)
  }

  function Find(s: seq<Record>, key: Key, end: int): Option<Record> {
    if s == [] then None
    else
      var last := s[|s| - 1];
      if last.key == key && last.end == end then Some(last) else Find(s[..|s| - 1], key, end)
  }

  datatype Lookup = Present(bar: Record) | Absent(reason: Reason)

  ghost predicate EndsBy(s: seq<Record>, key: Key, end: int) { exists r :: r in s && r.key == key && r.end <= end }

  ghost predicate EndsFrom(s: seq<Record>, key: Key, end: int) { exists r :: r in s && r.key == key && r.end >= end }

  /** Some record of the series ends no later, and some no earlier. */
  ghost predicate Covered(bars: seq<Record>, missing: seq<Record>, key: Key, end: int) {
    && (EndsBy(bars, key, end) || EndsBy(missing, key, end))
    && (EndsFrom(bars, key, end) || EndsFrom(missing, key, end))
  }

  ghost function Get(bars: seq<Record>, missing: seq<Record>, key: Key, end: int, asOf: Option<int>): Lookup
    requires AllBars(bars) && AllMissing(missing)
  {
    FindMeaning(missing, key, end);
    FindMeaning(bars, key, end);
    match Find(missing, key, end)
    case Some(m) => Absent(m.reason)
    case None =>
      match Find(bars, key, end)
      case Some(b) => if asOf.Some? && !Eligible(b, asOf.value) then Absent(FutureReceipt) else Present(b)
      case None => Absent(if Covered(bars, missing, key, end) then NoQuotesInBucket else OutOfSeries)
  }

  ghost predicate AllOrdered(s: seq<Record>) { forall key :: Ordered(RecordsOf(s, key)) }

  ghost predicate Disjoint(bars: seq<Record>, missing: seq<Record>) {
    forall b, m :: b in bars && m in missing ==> b.key != m.key || b.end != m.end
  }

  /** Each series strictly increasing, and no bucket both a bar and missing. */
  ghost predicate Readable(bars: seq<Record>, missing: seq<Record>) {
    AllOrdered(bars) && AllOrdered(missing) && Disjoint(bars, missing)
  }

  // ------------------------------------------------------------------ its lemmas

  lemma {:induction false} RecordsOfMeaning(bars: seq<Record>, key: Key)
    ensures forall b :: b in RecordsOf(bars, key) <==> b in bars && b.key == key
  {
    if bars != [] {
      RecordsOfMeaning(bars[..|bars| - 1], key);
      assert bars == bars[..|bars| - 1] + [bars[|bars| - 1]];
    }
  }

  lemma {:induction false} EligibleMembers(bars: seq<Record>, asOf: int, b: Record)
    ensures b in EligibleOf(bars, asOf) <==> b in bars && Eligible(b, asOf)
  {
    if bars != [] {
      EligibleMembers(bars[..|bars| - 1], asOf, b);
      assert bars == bars[..|bars| - 1] + [bars[|bars| - 1]];
    }
  }

  lemma OrderedSnoc(front: seq<Record>, last: Record)
    requires Ordered(front) && forall b :: b in front ==> b.end < last.end
    ensures Ordered(front + [last])
  {
    assert forall i :: 0 <= i < |front| ==> front[i] in front;
  }

  lemma OrderedLast(bars: seq<Record>)
    requires bars != [] && Ordered(bars)
    ensures Ordered(bars[..|bars| - 1])
    ensures forall b :: b in bars[..|bars| - 1] ==> b.end < bars[|bars| - 1].end
  {}

  lemma {:induction false} EligibleOrdered(bars: seq<Record>, asOf: int)
    requires Ordered(bars)
    ensures Ordered(EligibleOf(bars, asOf))
  {
    if bars != [] {
      var front, last := bars[..|bars| - 1], bars[|bars| - 1];
      OrderedLast(bars);
      EligibleOrdered(front, asOf);
      forall b | b in EligibleOf(front, asOf) ensures b.end < last.end {
        EligibleMembers(front, asOf, b);
      }
      OrderedSnoc(EligibleOf(front, asOf), last);
    }
  }

  lemma EligibleMeaning(bars: seq<Record>, asOf: int)
    requires Ordered(bars)
    ensures forall b :: b in EligibleOf(bars, asOf) <==> b in bars && Eligible(b, asOf)
    ensures Ordered(EligibleOf(bars, asOf))
  {
    forall b ensures b in EligibleOf(bars, asOf) <==> b in bars && Eligible(b, asOf) {
      EligibleMembers(bars, asOf, b);
    }
    EligibleOrdered(bars, asOf);
  }

  lemma {:induction false} FindMeaning(bars: seq<Record>, key: Key, end: int)
    ensures var f := Find(bars, key, end);
            if f.Some? then f.value in bars && f.value.key == key && f.value.end == end
            else forall b :: b in bars ==> b.key != key || b.end != end
  {
    if bars != [] {
      FindMeaning(bars[..|bars| - 1], key, end);
      assert bars == bars[..|bars| - 1] + [bars[|bars| - 1]];
    }
  }

  /** In a strictly increasing series a bar is known by its end. */
  lemma SameEndSameBar(bars: seq<Record>, key: Key, a: Record, b: Record)
    requires Ordered(RecordsOf(bars, key))
    requires a in bars && b in bars && a.key == b.key == key && a.end == b.end
    ensures a == b
  {
    RecordsOfMeaning(bars, key);
    var s := RecordsOf(bars, key);
    var i :| 0 <= i < |s| && s[i] == a;
    var j :| 0 <= j < |s| && s[j] == b;
  }

  /** A point lookup finds a bar exactly when it is one of the series and eligible. */
  lemma GetFindsIff(bars: seq<Record>, missing: seq<Record>, asOf: int, b: Record)
    requires AllBars(bars) && AllMissing(missing) && Readable(bars, missing)
    ensures Get(bars, missing, b.key, b.end, Some(asOf)) == Present(b) <==> b in bars && Eligible(b, asOf)
  {
    FindMeaning(missing, b.key, b.end);
    FindMeaning(bars, b.key, b.end);
    if b in bars {
      var f := Find(bars, b.key, b.end);
      assert Ordered(RecordsOf(bars, b.key));
      SameEndSameBar(bars, b.key, b, f.value);
    }
  }

  /** The two ways of reading agree: the history holds exactly the bars that a point
      lookup at the same instant finds. */
  lemma HistoryAgreesWithGet(bars: seq<Record>, missing: seq<Record>, key: Key, asOf: int, b: Record)
    requires AllBars(bars) && AllMissing(missing) && Readable(bars, missing)
    ensures b in EligibleOf(RecordsOf(bars, key), asOf) <==> b.key == key && Get(bars, missing, key, b.end, Some(asOf)) == Present(b)
  {
    RecordsOfMeaning(bars, key);
    EligibleMembers(RecordsOf(bars, key), asOf, b);
    GetFindsIff(bars, missing, asOf, b);
    if Get(bars, missing, key, b.end, Some(asOf)) == Present(b) {
      FindMeaning(bars, key, b.end);
    }
  }

  lemma LastIsLatest(x: seq<Record>, y: seq<Record>)
    requires x != [] && y != [] && Ordered(x) && Ordered(y)
    requires forall b :: b in x <==> b in y
    ensures x[|x| - 1] == y[|y| - 1]
  {
    var a, c := x[|x| - 1], y[|y| - 1];
    assert a in y && c in x;
    var p :| 0 <= p < |x| && x[p] == c;
    var q :| 0 <= q < |y| && y[q] == a;
  }

  lemma InFrontIff(x: seq<Record>, b: Record)
    requires x != [] && Ordered(x)
    ensures b in x[..|x| - 1] <==> b in x && b != x[|x| - 1]
  {
    assert x == x[..|x| - 1] + [x[|x| - 1]];
  }

  lemma SomeMember(x: seq<Record>)
    ensures x != [] ==> exists b :: b in x
  {
    if x != [] {
      assert x[0] in x;
    }
  }

  /** Sorted sequences of the same bars are the same. */
  lemma {:induction false} SortedSame(x: seq<Record>, y: seq<Record>)
    requires Ordered(x) && Ordered(y)
    requires forall b :: b in x <==> b in y
    ensures x == y
  {
    if x == [] || y == [] {
      SomeMember(x);
      SomeMember(y);
    } else {
      LastIsLatest(x, y);
      var fx, fy := x[..|x| - 1], y[..|y| - 1];
      forall b ensures b in fx <==> b in fy {
        InFrontIff(x, b);
        InFrontIff(y, b);
      }
      SortedSame(fx, fy);
      assert x == x[..|x| - 1] + [x[|x| - 1]] && y == y[..|y| - 1] + [y[|y| - 1]];
    }
  }

  /** No look-ahead: two series that hold the same bars eligible at an instant give the
      same history at that instant, whatever else is in them. */
  lemma NoLookAhead(x: seq<Record>, y: seq<Record>, key: Key, asOf: int, k: int)
    requires Ordered(RecordsOf(x, key)) && Ordered(RecordsOf(y, key))
    requires forall b: Record :: b.key == key && Eligible(b, asOf) ==> (b in x <==> b in y)
    ensures History(x, key, asOf, k) == History(y, key, asOf, k)
  {
    RecordsOfMeaning(x, key);
    RecordsOfMeaning(y, key);
    EligibleMeaning(RecordsOf(x, key), asOf);
    EligibleMeaning(RecordsOf(y, key), asOf);
    SortedSame(EligibleOf(RecordsOf(x, key), asOf), EligibleOf(RecordsOf(y, key), asOf));
  }

  /** Only a future receipt can change its mind: any other answer is the answer at
      every later instant too. */
  lemma GetSettles(bars: seq<Record>, missing: seq<Record>, key: Key, end: int, now: int, later: int)
    requires AllBars(bars) && AllMissing(missing) && now <= later
    ensures var a, b := Get(bars, missing, key, end, Some(now)), Get(bars, missing, key, end, Some(later));
            a != Absent(FutureReceipt) ==> b == a
  {}

  // ------------------------------------------------------------------ the reader

  /** The series of one key as parallel arrays. */
  datatype Index = Index(ends: seq<int>, watermarks: seq<int>, bars: seq<Record>)

  ghost predicate Indexes(ix: Index, bars: seq<Record>) {
    && AllBars(bars) && ix.bars == bars && |ix.ends| == |ix.watermarks| == |bars|
    && forall i :: 0 <= i < |bars| ==> ix.ends[i] == bars[i].end && ix.watermarks[i] == bars[i].watermark
  }

  /** First position whose end is later than x. */
  method BisectRight(ends: seq<int>, x: int) returns (cut: nat)
    requires forall i, j :: 0 <= i < j < |ends| ==> ends[i] < ends[j]
    ensures cut <= |ends|
    ensures forall i :: 0 <= i < cut ==> ends[i] <= x
    ensures forall i :: cut <= i < |ends| ==> ends[i] > x
  {
    var lo, hi := 0, |ends|;
    while lo < hi
      invariant 0 <= lo <= hi <= |ends|
      invariant forall i :: 0 <= i < lo ==> ends[i] <= x
      invariant forall i :: hi <= i < |ends| ==> ends[i] > x
    {
      var mid := (lo + hi) / 2;
      if x < ends[mid] {
        hi := mid;
      } else {
        lo := mid + 1;
      }
    }
    cut := lo;
  }

  lemma {:induction false} NoneBeyond(bars: seq<Record>, cut: nat, asOf: int)
    requires cut <= |bars| && forall i :: cut <= i < |bars| ==> bars[i].end > asOf
    ensures EligibleOf(bars, asOf) == EligibleOf(bars[..cut], asOf)
  {
    if cut == |bars| {
      assert bars[..cut] == bars;
    } else {
      assert bars[..|bars| - 1][..cut] == bars[..cut];
      NoneBeyond(bars[..|bars| - 1], cut, asOf);
    }
  }

  function Reversed(s: seq<Record>): seq<Record> { if s == [] then [] else Reversed(s[1..]) + [s[0]] }

  lemma {:induction false} ReversedSnoc(s: seq<Record>, b: Record)
    ensures Reversed(s + [b]) == [b] + Reversed(s)
  {
    if s == [] {
      assert Reversed([b]) == Reversed([]) + [b];
    } else {
      assert (s + [b])[1..] == s[1..] + [b];
      ReversedSnoc(s[1..], b);
    }
  }

  lemma {:induction false} ReversedLength(s: seq<Record>)
    ensures |Reversed(s)| == |s|
  {
    if s != [] {
      ReversedLength(s[1..]);
    }
  }

  lemma LastKStep(front: seq<Record>, tail: seq<Record>, k: int)
    requires |tail| == k
    ensures LastK(front + tail, k) == tail
  {
    assert k == 0 ==> tail == [];
    if |front| == 0 {
      assert front + tail == tail;
    }
  }

  lemma StepBack(bars: seq<Record>, i: nat, asOf: int, picked: seq<Record>)
    requires i < |bars|
    ensures var next := if Eligible(bars[i], asOf) then picked + [bars[i]] else picked;
            EligibleOf(bars[..i + 1], asOf) + Reversed(picked) == EligibleOf(bars[..i], asOf) + Reversed(next)
  {
    assert bars[..i + 1][..i] == bars[..i];
    var e := EligibleOf(bars[..i], asOf);
    if Eligible(bars[i], asOf) {
      ReversedSnoc(picked, bars[i]);
      assert e + [bars[i]] + Reversed(picked) == e + ([bars[i]] + Reversed(picked));
    } else {
      assert e + [] == e;
    }
  }

  /** Cuts the index at the instant, then walks backwards until enough bars are found. */
  method EligibleHistory(ix: Index, asOf: int, maxBars: int) returns (r: seq<Record>)
    requires Indexes(ix, ix.bars) && Ordered(ix.bars)
    ensures r == LastK(EligibleOf(ix.bars, asOf), maxBars)
  {
    if maxBars <= 0 {
      return [];
    }
    var cut := BisectRight(ix.ends, asOf);
    NoneBeyond(ix.bars, cut, asOf);
    ghost var all := EligibleOf(ix.bars, asOf);
    var picked: seq<Record> := [];
    assert all + Reversed([]) == all;
    var i := cut;
    while i > 0
      invariant 0 <= i <= cut && |picked| < maxBars
      invariant all == EligibleOf(ix.bars[..i], asOf) + Reversed(picked)
    {
      i := i - 1;
      StepBack(ix.bars, i, asOf, picked);
      if ix.watermarks[i] <= asOf {
        picked := picked + [ix.bars[i]];
        if |picked| == maxBars {
          break;
        }
      }
    }
    WalkedBack(ix.bars, i, asOf, picked, maxBars);
    r := Reversed(picked);
  }

  lemma WalkedBack(bars: seq<Record>, i: nat, asOf: int, picked: seq<Record>, maxBars: int)
    requires i <= |bars| && |picked| <= maxBars && (i == 0 || |picked| == maxBars)
    ensures LastK(EligibleOf(bars[..i], asOf) + Reversed(picked), maxBars) == Reversed(picked)
  {
    ReversedLength(picked);
    if i == 0 {
      assert EligibleOf(bars[..0], asOf) + Reversed(picked) == Reversed(picked);
      assert Reversed([]) == [];
    } else {
      LastKStep(EligibleOf(bars[..i], asOf), Reversed(picked), maxBars);
    }
  }
}
