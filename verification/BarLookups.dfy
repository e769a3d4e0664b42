/**
 The label series read off its records (bar_series.py): what a point lookup answers, what
 a history holds, and which quote of a minute its bar is made from.
 */
module BarLookups {
  import opened Wrappers
  import opened BarSeries
  import opened Resample

  // ------------------------------------------------------------------ point lookup

  ghost predicate At(r: Record, key: Key, end: int) { r.key == key && r.end == end }

  ghost predicate OnRecord(s: seq<Record>, key: Key, end: int) { exists r :: r in s && At(r, key, end) }

  /** The series had begun by that end, and not stopped before it. */
  ghost predicate Spans(bars: seq<Record>, missing: seq<Record>, key: Key, end: int) {
    && (exists r :: (r in bars || r in missing) && r.key == key && r.end <= end)
    && (exists r :: (r in bars || r in missing) && r.key == key && r.end >= end)
  }

  /** It had not ended, or had not been received. */
  ghost predicate NotYet(b: Record, asOf: Option<int>) {
    b.Bar? && asOf.Some? && (asOf.value < b.end || asOf.value < b.watermark)
  }

  ghost predicate Answers(bars: seq<Record>, missing: seq<Record>, key: Key, end: int, asOf: Option<int>, r: Lookup) {
    match r
    case Present(b) => b in bars && At(b, key, end) && !NotYet(b, asOf)
    case Absent(reason) =>
      || (exists m :: m in missing && At(m, key, end) && m == Missing(key, end, reason))
      || (reason == FutureReceipt && exists b :: b in bars && At(b, key, end) && NotYet(b, asOf))
      || (&& !OnRecord(bars, key, end) && !OnRecord(missing, key, end)
          && reason == if Spans(bars, missing, key, end) then NoQuotesInBucket else OutOfSeries)
  }

  lemma SpansIff(bars: seq<Record>, missing: seq<Record>, key: Key, end: int)
    ensures Covered(bars, missing, key, end) <==> Spans(bars, missing, key, end)
  {}

  /** There is just one answer, and a lookup gives it. */
  lemma GetIff(bars: seq<Record>, missing: seq<Record>, key: Key, end: int, asOf: Option<int>, r: Lookup)
    requires AllBars(bars) && AllMissing(missing) && Readable(bars, missing)
    ensures Get(bars, missing, key, end, asOf) == r <==> Answers(bars, missing, key, end, asOf, r)
  {
    SpansIff(bars, missing, key, end);
    FindMeaning(missing, key, end);
    FindMeaning(bars, key, end);
    GetAnswers(bars, missing, key, end, asOf);
    if Answers(bars, missing, key, end, asOf, r) {
      OneAnswer(bars, missing, key, end, asOf, r, Get(bars, missing, key, end, asOf));
    }
  }

  lemma GetAnswers(bars: seq<Record>, missing: seq<Record>, key: Key, end: int, asOf: Option<int>)
    requires AllBars(bars) && AllMissing(missing)
    ensures Answers(bars, missing, key, end, asOf, Get(bars, missing, key, end, asOf))
  {
    SpansIff(bars, missing, key, end);
    FindMeaning(missing, key, end);
    FindMeaning(bars, key, end);
    match Find(missing, key, end)
    case Some(m) => assert m in missing && At(m, key, end) && m == Missing(key, end, m.reason);
    case None =>
      match Find(bars, key, end)
      case Some(b) => assert b in bars && At(b, key, end);
      case None =>
        assert !OnRecord(bars, key, end) && !OnRecord(missing, key, end);
  }

  lemma OneAnswer(bars: seq<Record>, missing: seq<Record>, key: Key, end: int, asOf: Option<int>, x: Lookup, y: Lookup)
    requires AllBars(bars) && AllMissing(missing) && Readable(bars, missing)
    requires Answers(bars, missing, key, end, asOf, x) && Answers(bars, missing, key, end, asOf, y)
    ensures x == y
  {
    forall a, b | a in bars && b in bars && At(a, key, end) && At(b, key, end) ensures a == b {
      SameEndSameBar(bars, key, a, b);
    }
    forall a, b | a in missing && b in missing && At(a, key, end) && At(b, key, end) ensures a == b {
      SameEndSameBar(missing, key, a, b);
    }
  }

  // ----------------------------------------------------------------------- history

  /** Known at the instant: ended and received by then. */
  ghost predicate Known(bars: seq<Record>, key: Key, asOf: int, b: Record) {
    b in bars && b.key == key && b.Bar? && b.end <= asOf && b.watermark <= asOf
  }

  /** A history holds known bars only, oldest first, as many as asked for or all there
      are; and a known bar it leaves out is older than any it holds. */
  lemma HistoryIs(bars: seq<Record>, key: Key, asOf: int, k: int)
    requires Ordered(RecordsOf(bars, key))
    ensures var h := History(bars, key, asOf, k);
            && (forall i, j :: 0 <= i < j < |h| ==> h[i].end < h[j].end)
            && (forall b :: b in h ==> Known(bars, key, asOf, b))
            && (forall b, c :: Known(bars, key, asOf, b) && b !in h && c in h ==> b.end < c.end)
            && (k <= 0 ==> h == [])
            && (k > 0 ==> |h| <= k && (|h| < k ==> forall b :: Known(bars, key, asOf, b) ==> b in h))
  {
    var e := EligibleOf(RecordsOf(bars, key), asOf);
    RecordsOfMeaning(bars, key);
    EligibleMeaning(RecordsOf(bars, key), asOf);
    assert forall b :: b in e <==> Known(bars, key, asOf, b);
    LastKIs(e, k);
  }

  lemma LastKIs(e: seq<Record>, k: int)
    requires Ordered(e)
    ensures var h := LastK(e, k);
            && Ordered(h)
            && (forall b :: b in h ==> b in e)
            && (forall b, c :: b in e && b !in h && c in h ==> b.end < c.end)
            && (k <= 0 ==> h == [])
            && (k > 0 ==> |h| <= k && (|h| < k ==> h == e))
  {
    var h := LastK(e, k);
    if 0 < k < |e| {
      var n := |e| - k;
      forall b, c | b in e && b !in h && c in h ensures b.end < c.end {
        assert e == e[..n] + h && b in e[..n];
        var i :| 0 <= i < n && e[i] == b;
        var j :| 0 <= j < |h| && h[j] == c;
        assert e[n + j] == c;
      }
    }
  }

  // -------------------------------------------------------------------- resampling

  /** A quote of the stream that falls into the minute from start and can be used. */
  ghost predicate Usable(q: Quote, w: Want, start: int) {
    && q.key == w.key && q.schema == w.source.schema
    && start <= q.event < start + 60000000
    && 0.0 < q.bid <= q.ask
  }

  /** Minutes start at whole minutes. */
  ghost predicate WholeMinute(start: int) { start % 60000000 == 0 }

  ghost predicate Later(q: Quote, r: Quote) { q.event > r.event || (q.event == r.event && q.vendorSeq > r.vendorSeq) }

  /** The last usable quote: by event, then by vendor sequence, then by position. */
  ghost predicate LastUsable(rows: seq<Quote>, w: Want, start: int, i: int) {
    && 0 <= i < |rows| && Usable(rows[i], w, start)
    && forall j :: 0 <= j < |rows| && Usable(rows[j], w, start) ==> !Later(rows[j], rows[i]) && (i < j ==> Later(rows[i], rows[j]))
  }

  ghost predicate Quoted(rows: seq<Quote>, w: Want, start: int) {
    exists i :: 0 <= i < |rows| && rows[i].key == w.key && rows[i].schema == w.source.schema
                && start <= rows[i].event < start + 60000000
  }

  lemma InBucket(q: Quote, w: Want, start: int)
    ensures In(q, w, start) && ValidQuote(q) <==> WholeMinute(start) && Usable(q, w, start)
    ensures In(q, w, start) <==> WholeMinute(start) && q.key == w.key && q.schema == w.source.schema
                                 && start <= q.event < start + 60000000
  {}

  lemma ChosenIff(rows: seq<Quote>, w: Want, start: int, i: int)
    requires WholeMinute(start)
    ensures Chosen(rows, w, start).Some? && Chosen(rows, w, start).value == i <==> LastUsable(rows, w, start, i)
  {
    ChosenIsLast(rows, w, start);
    forall j | 0 <= j < |rows| ensures In(rows[j], w, start) && ValidQuote(rows[j]) <==> Usable(rows[j], w, start) {
      InBucket(rows[j], w, start);
    }
  }

  lemma {:induction false} SeenIff(rows: seq<Quote>, w: Want, start: int)
    ensures start in Seen(rows, w) <==> WholeMinute(start) && Quoted(rows, w, start)
  {
    if rows != [] {
      var n := |rows| - 1;
      SeenIff(rows[..n], w, start);
      InBucket(rows[n], w, start);
      if Quoted(rows[..n], w, start) {
        var i :| 0 <= i < n && rows[..n][i].key == w.key && rows[..n][i].schema == w.source.schema
                 && start <= rows[..n][i].event < start + 60000000;
        assert rows[i] == rows[..n][i];
      }
      if Quoted(rows, w, start) {
        var i :| 0 <= i < |rows| && rows[i].key == w.key && rows[i].schema == w.source.schema
                 && start <= rows[i].event < start + 60000000;
        assert i < n ==> rows[i] == rows[..n][i];
      }
    }
  }

  /** What a resampled record says: a bar ends with its minute, is half way between the
      bid and the ask of the minute's last usable quote, and was received when that was;
      a minute with quotes but none usable is on record as having only invalid ones. */
  lemma RecordIff(rows: seq<Quote>, w: Want, r: Record)
    ensures IsRecord(r, rows, w) <==>
              var start := r.end - 60000000;
              && WholeMinute(start) && r.key == w.key
              && match r
                 case Bar(_, _, watermark, mid, source) =>
                   source == w.source
                   && exists i :: LastUsable(rows, w, start, i) && watermark == rows[i].recv
                                  && mid - rows[i].bid == rows[i].ask - mid
                 case Missing(_, _, reason) =>
                   reason == InvalidQuotesOnly && Quoted(rows, w, start)
                   && forall i :: 0 <= i < |rows| ==> !Usable(rows[i], w, start)
  {
    var start := r.end - 60000000;
    SeenIff(rows, w, start);
    if WholeMinute(start) {
      ChosenIsLast(rows, w, start);
      forall i ensures Chosen(rows, w, start).Some? && Chosen(rows, w, start).value == i <==> LastUsable(rows, w, start, i) {
        ChosenIff(rows, w, start, i);
      }
      forall j | 0 <= j < |rows| ensures In(rows[j], w, start) && ValidQuote(rows[j]) <==> Usable(rows[j], w, start) {
        InBucket(rows[j], w, start);
      }
    }
  }
}
