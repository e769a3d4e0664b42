/**
 Resampling quotes into one-minute mid bars (bar_series.resample_midbars). Instants
 are integers in microseconds; mids are exact.
 */
module Resample {
  import opened Wrappers
  import opened BarSeries

  const ONE_MINUTE: int := 60000000

  datatype Quote = Quote(key: Key, schema: string, event: int, recv: int, bid: real, ask: real, vendorSeq: int)

  /** Which rows of a mixed stream are wanted, and what is stamped on the bars. */
  datatype Want = Want(key: Key, source: Source)

  predicate Wanted(q: Quote, w: Want) { q.schema == w.source.schema && q.key == w.key }

  /** Prices positive and not crossed; locked is fine. */
  predicate ValidQuote(q: Quote) { q.bid > 0.0 && q.ask > 0.0 && q.bid <= q.ask }

  function BucketStart(instant: int): int { instant - instant % ONE_MINUTE }

  predicate In(q: Quote, w: Want, start: int) { Wanted(q, w) && BucketStart(q.event) == start }

  /** Of two quotes the later event wins, then the higher vendor sequence. */
  predicate AtLeast(a: Quote, b: Quote) { a.event > b.event || (a.event == b.event && a.vendorSeq >= b.vendorSeq) }

  /** The quote a bucket's bar is taken from. */
  function Chosen(rows: seq<Quote>, w: Want, start: int): (c: Option<nat>)
    ensures c.Some? ==> c.value < |rows| && In(rows[c.value], w, start) && ValidQuote(rows[c.value])
  {
    if rows == [] then None
    else
      var n := |rows| - 1;
      var c := Chosen(rows[..n], w, start);
      if In(rows[n], w, start) && ValidQuote(rows[n]) && (c.None? || AtLeast(rows[n], rows[c.value])) then Some(n) else c
  }

  /** The buckets with any quote at all. */
  function Seen(rows: seq<Quote>, w: Want): set<int> {
    if rows == [] then {}
    else
      Seen(rows[..|rows| - 1], w)
      + (if Wanted(rows[|rows| - 1], w) then {BucketStart(rows[|rows| - 1].event)} else {})
  }

  function RecordFor(rows: seq<Quote>, w: Want, start: int): Record {
    match Chosen(rows, w, start)
    case Some(i) => Bar(w.key, start + ONE_MINUTE, rows[i].recv, (rows[i].bid + rows[i].ask) / 2.0, w.source)
    case None => Missing(w.key, start + ONE_MINUTE, InvalidQuotesOnly)
  }

  /** The chosen quote is the last valid one of its bucket: no other valid quote of the
      bucket is later by event, then vendor sequence, then position. */
  lemma {:induction false} ChosenIsLast(rows: seq<Quote>, w: Want, start: int)
    ensures Chosen(rows, w, start).None? <==> forall i :: 0 <= i < |rows| && In(rows[i], w, start) ==> !ValidQuote(rows[i])
    ensures Chosen(rows, w, start).Some? ==>
              var c := Chosen(rows, w, start).value;
              forall i :: 0 <= i < |rows| && In(rows[i], w, start) && ValidQuote(rows[i]) ==>
                AtLeast(rows[c], rows[i]) && (AtLeast(rows[i], rows[c]) ==> i <= c)
  {
    if rows != [] {
      var n := |rows| - 1;
      ChosenIsLast(rows[..n], w, start);
      assert forall i :: 0 <= i < n ==> rows[..n][i] == rows[i];
    }
  }

  // -------------------------------------------------------------------- sorting

  ghost predicate Ascending(q: seq<int>) { forall i, j :: 0 <= i < j < |q| ==> q[i] < q[j] }

  method Insert(q: seq<int>, x: int) returns (r: seq<int>)
    requires Ascending(q) && x !in q
    ensures Ascending(r) && forall y :: y in r <==> y in q || y == x
  {
    var i := 0;
    while i < |q| && q[i] < x
      invariant 0 <= i <= |q| && forall j :: 0 <= j < i ==> q[j] < x
    {
      i := i + 1;
    }
    r := q[..i] + [x] + q[i..];
    InsertedHolds(q, x, i);
    InsertedAscends(q, x, i);
  }

  lemma AscendingConcat(a: seq<int>, b: seq<int>)
    requires Ascending(a) && Ascending(b)
    requires a != [] && b != [] ==> a[|a| - 1] < b[0]
    ensures Ascending(a + b)
  {
    forall j, k | 0 <= j < k < |a + b| ensures (a + b)[j] < (a + b)[k] {
      if j < |a| <= k {
        assert a[j] <= a[|a| - 1] && b[0] <= b[k - |a|];
      }
    }
  }

  lemma InsertedMembers(a: seq<int>, x: int, b: seq<int>, y: int)
    ensures y in a + [x] + b <==> y in a + b || y == x
  {
    assert y in a + [x] + b <==> y in a || y == x || y in b;
  }

  lemma InsertedAmid(a: seq<int>, x: int, b: seq<int>)
    requires Ascending(a) && Ascending(b)
    requires (a != [] ==> a[|a| - 1] < x) && (b != [] ==> x < b[0])
    ensures Ascending(a + [x] + b)
  {
    AscendingConcat(a, [x]);
    var front := a + [x];
    assert front[|front| - 1] == x;
    AscendingConcat(front, b);
  }

  lemma InsertedHolds(q: seq<int>, x: int, i: nat)
    requires i <= |q|
    ensures forall y :: y in q[..i] + [x] + q[i..] <==> y in q || y == x
  {
    var a, b := q[..i], q[i..];
    assert q == a + b;
    forall y ensures y in a + [x] + b <==> y in q || y == x {
      InsertedMembers(a, x, b, y);
    }
  }

  lemma InsertedAscends(q: seq<int>, x: int, i: nat)
    requires Ascending(q) && x !in q && i <= |q|
    requires (forall j :: 0 <= j < i ==> q[j] < x) && (i < |q| ==> x <= q[i])
    ensures Ascending(q[..i] + [x] + q[i..])
  {
    if i < |q| {
      assert q[i] in q;
    }
    InsertedAmid(q[..i], x, q[i..]);
  }

  ghost predicate Distinct(s: seq<int>) { forall i, j :: 0 <= i < j < |s| ==> s[i] != s[j] }

  method Sorted(s: seq<int>) returns (q: seq<int>)
    requires Distinct(s)
    ensures Ascending(q) && forall x :: x in q <==> x in s
  {
    q := [];
    for i := 0 to |s|
      invariant Ascending(q) && forall x :: x in q <==> x in s[..i]
    {
      assert s[..i + 1] == s[..i] + [s[i]];
      assert s[i] !in s[..i];
      q := Insert(q, s[i]);
    }
    assert s[..|s|] == s;
  }

  // ------------------------------------------------------------------- the loops

  ghost predicate BestOf(best: map<int, nat>, rows: seq<Quote>, w: Want) {
    forall start :: Chosen(rows, w, start) == if start in best then Some(best[start]) else None
  }

  lemma SeenSnoc(rows: seq<Quote>, q: Quote, w: Want)
    ensures Seen(rows + [q], w) == Seen(rows, w) + (if Wanted(q, w) then {BucketStart(q.event)} else {})
  {
    assert (rows + [q])[..|rows|] == rows;
  }

  lemma ChosenSnoc(rows: seq<Quote>, q: Quote, w: Want, start: int)
    ensures var c := Chosen(rows, w, start);
            Chosen(rows + [q], w, start)
            == if In(q, w, start) && ValidQuote(q) && (c.None? || AtLeast(q, rows[c.value])) then Some(|rows|) else c
  {
    assert (rows + [q])[..|rows|] == rows;
  }

  lemma BestStep(rows: seq<Quote>, q: Quote, w: Want, best: map<int, nat>)
    requires BestOf(best, rows, w)
    ensures var s := BucketStart(q.event);
            var better := Wanted(q, w) && ValidQuote(q) && (s !in best || (best[s] < |rows| && AtLeast(q, rows[best[s]])));
            BestOf(if better then best[s := |rows|] else best, rows + [q], w)
  {
    var s := BucketStart(q.event);
    assert Chosen(rows, w, s) == if s in best then Some(best[s]) else None;
    var better := Wanted(q, w) && ValidQuote(q) && (s !in best || (best[s] < |rows| && AtLeast(q, rows[best[s]])));
    var next := if better then best[s := |rows|] else best;
    forall start ensures Chosen(rows + [q], w, start) == if start in next then Some(next[start]) else None {
      ChosenSnoc(rows, q, w, start);
      assert Chosen(rows, w, start) == if start in best then Some(best[start]) else None;
    }
  }

  /** One quote more: what the bucket's best becomes. */
  method Improve(rows: seq<Quote>, i: nat, w: Want, best: map<int, nat>) returns (next: map<int, nat>)
    requires i < |rows| && BestOf(best, rows[..i], w)
    ensures BestOf(next, rows[..i + 1], w)
  {
    assert rows[..i + 1] == rows[..i] + [rows[i]];
    BestStep(rows[..i], rows[i], w, best);
    next := best;
    var q := rows[i];
    if Wanted(q, w) && ValidQuote(q) {
      var s := BucketStart(q.event);
      assert Chosen(rows[..i], w, s) == if s in best then Some(best[s]) else None;
      if s !in best || AtLeast(q, rows[best[s]]) {
        next := best[s := i];
      }
    }
  }

  /** One pass over the quotes: the buckets seen, and the best valid quote of each. */
  method Collect(rows: seq<Quote>, w: Want) returns (seen: seq<int>, best: map<int, nat>)
    ensures Distinct(seen) && (forall s :: s in seen <==> s in Seen(rows, w)) && BestOf(best, rows, w)
  {
    seen, best := [], map[];
    assert rows[..0] == [];
    for i := 0 to |rows|
      invariant Distinct(seen) && (forall s :: s in seen <==> s in Seen(rows[..i], w)) && BestOf(best, rows[..i], w)
    {
      assert rows[..i + 1] == rows[..i] + [rows[i]];
      SeenSnoc(rows[..i], rows[i], w);
      if Wanted(rows[i], w) && BucketStart(rows[i].event) !in seen {
        seen := seen + [BucketStart(rows[i].event)];
      }
      best := Improve(rows, i, w, best);
    }
    assert rows[..|rows|] == rows;
  }

  /** The records of these buckets, in order, of one kind. */
  function Records(rows: seq<Quote>, w: Want, starts: seq<int>, isBar: bool): seq<Record> {
    if starts == [] then []
    else
      var s := starts[|starts| - 1];
      Records(rows, w, starts[..|starts| - 1], isBar)
      + (if Chosen(rows, w, s).Some? == isBar then [RecordFor(rows, w, s)] else [])
  }

  lemma {:induction false} RecordsMeaning(rows: seq<Quote>, w: Want, starts: seq<int>, isBar: bool, r: Record)
    ensures r in Records(rows, w, starts, isBar) <==>
              r.end - ONE_MINUTE in starts && r == RecordFor(rows, w, r.end - ONE_MINUTE) && r.Bar? == isBar
  {
    if starts != [] {
      var front, s := starts[..|starts| - 1], starts[|starts| - 1];
      assert starts == front + [s];
      RecordsMeaning(rows, w, front, isBar, r);
    }
  }

  lemma {:induction false} RecordsOrdered(rows: seq<Quote>, w: Want, starts: seq<int>, isBar: bool)
    requires Ascending(starts)
    ensures var r := Records(rows, w, starts, isBar);
            && Ordered(r) && (forall i :: 0 <= i < |r| ==> r[i].key == w.key && r[i].Bar? == isBar)
            && (forall i :: 0 <= i < |r| ==> starts != [] && r[i].end <= starts[|starts| - 1] + ONE_MINUTE)
  {
    if starts != [] {
      RecordsOrdered(rows, w, starts[..|starts| - 1], isBar);
    }
  }

  method Emit(rows: seq<Quote>, w: Want, starts: seq<int>, best: map<int, nat>)
    returns (bars: seq<Record>, missing: seq<Record>)
    requires BestOf(best, rows, w)
    ensures bars == Records(rows, w, starts, true) && missing == Records(rows, w, starts, false)
  {
    bars, missing := [], [];
    for i := 0 to |starts|
      invariant bars == Records(rows, w, starts[..i], true) && missing == Records(rows, w, starts[..i], false)
    {
      var s := starts[i];
      assert starts[..i + 1][..i] == starts[..i];
      assert Chosen(rows, w, s) == if s in best then Some(best[s]) else None;
      if s in best {
        var q := rows[best[s]];
        bars := bars + [Bar(w.key, s + ONE_MINUTE, q.recv, (q.bid + q.ask) / 2.0, w.source)];
      } else {
        missing := missing + [Missing(w.key, s + ONE_MINUTE, InvalidQuotesOnly)];
      }
    }
    assert starts[..|starts|] == starts;
  }

  /** The record of a bucket that had a quote. */
  predicate IsRecord(r: Record, rows: seq<Quote>, w: Want) {
    r.end - ONE_MINUTE in Seen(rows, w) && r == RecordFor(rows, w, r.end - ONE_MINUTE)
  }

  /** Exactly one record for each bucket with a quote, bars and missing apart; and what
      the resampler makes, the reader takes. */
  method ResampleMidbars(rows: seq<Quote>, w: Want) returns (bars: seq<Record>, missing: seq<Record>)
    ensures AllBars(bars) && AllMissing(missing) && Readable(bars, missing)
    ensures forall r :: r in bars <==> IsRecord(r, rows, w) && r.Bar?
    ensures forall r :: r in missing <==> IsRecord(r, rows, w) && r.Missing?
  {
    var seen, best := Collect(rows, w);
    var starts := Sorted(seen);
    bars, missing := Emit(rows, w, starts, best);
    forall r ensures r in bars <==> IsRecord(r, rows, w) && r.Bar? {
      RecordsMeaning(rows, w, starts, true, r);
    }
    forall r ensures r in missing <==> IsRecord(r, rows, w) && r.Missing? {
      RecordsMeaning(rows, w, starts, false, r);
    }
    RecordsOrdered(rows, w, starts, true);
    RecordsOrdered(rows, w, starts, false);
    OneKeyReadable(bars, missing, w.key);
  }

  lemma {:induction false} OneKey(s: seq<Record>, key: Key, other: Key)
    requires forall i :: 0 <= i < |s| ==> s[i].key == key
    ensures RecordsOf(s, other) == if other == key then s else []
  {
    if s != [] {
      OneKey(s[..|s| - 1], key, other);
      assert s == s[..|s| - 1] + [s[|s| - 1]];
    }
  }

  lemma OneKeyReadable(bars: seq<Record>, missing: seq<Record>, key: Key)
    requires Ordered(bars) && Ordered(missing) && Disjoint(bars, missing)
    requires forall i :: 0 <= i < |bars| ==> bars[i].key == key
    requires forall i :: 0 <= i < |missing| ==> missing[i].key == key
    ensures Readable(bars, missing)
  {
    forall other: Key ensures Ordered(RecordsOf(bars, other)) {
      OneKey(bars, key, other);
    }
    forall other: Key ensures Ordered(RecordsOf(missing, other)) {
      OneKey(missing, key, other);
    }
  }
}
