/**
 The cash telescope of a broker reconcile: a baseline (cash and the journal seq of
 the last fill it accounts for), carried forward by the fills journaled since.
 (broker_reconcile.diff_cash and the _fill* helpers of orchestrator.py.)
 */
module Cash {
  import opened Wrappers

  /** A fill id is usable when it is a non-empty string. */
  datatype FillId = Usable(id: string) | Unusable(raw: int)

  datatype Side = Buy | Sell

  /** One row of the fills journal. `side` is None when it is out of vocabulary. */
  datatype FillRow = FillRow(seqNo: nat, isFill: bool, fillId: FillId, side: Option<Side>, cost: real)

  datatype Baseline = Baseline(cash: real, watermark: nat)

  datatype Error = FillIdMissing | SideOutOfVocabulary

  /** The journal numbers its rows upwards from 1. */
  ghost predicate Sorted(rows: seq<FillRow>) {
    && (forall i :: 0 <= i < |rows| ==> rows[i].seqNo >= 1)
    && (forall i, j :: 0 <= i < j < |rows| ==> rows[i].seqNo < rows[j].seqNo)
  }

  function LastSeq(rows: seq<FillRow>): nat { if rows == [] then 0 else rows[|rows| - 1].seqNo }

  function Ids(rows: seq<FillRow>): set<FillId> {
    if rows == [] then {}
    else
      var last := rows[|rows| - 1];
      Ids(rows[..|rows| - 1]) + (if last.isFill then {last.fillId} else {})
  }

  /** What one fill does to the cash: a buy spends its cost, a sell earns it. */
  function Signed(row: FillRow): real {
    match row.side
    case Some(Buy) => -row.cost
    case Some(Sell) => row.cost
    case None => 0.0
  }

  /** Net cash effect of a journal in which a fill may be written more than once. */
  function Net(rows: seq<FillRow>): real {
    if rows == [] then 0.0
    else
      var front, last := rows[..|rows| - 1], rows[|rows| - 1];
      Net(front) + (if last.isFill && last.fillId !in Ids(front) then Signed(last) else 0.0)
  }

  /** What the fills of one side come to, each counted once. */
  function Total(rows: seq<FillRow>, side: Side): real {
    if rows == [] then 0.0
    else
      var front, last := rows[..|rows| - 1], rows[|rows| - 1];
      Total(front, side)
      + (if last.isFill && last.fillId !in Ids(front) && last.side == Some(side) then last.cost else 0.0)
  }

  /** The net is what was sold less what was bought. */
  lemma {:induction false} NetBySide(rows: seq<FillRow>)
    ensures Net(rows) == Total(rows, Sell) - Total(rows, Buy)
  {
    if rows != [] {
      NetBySide(rows[..|rows| - 1]);
    }
  }

  function Upto(rows: seq<FillRow>, watermark: nat): seq<FillRow> {
    if rows == [] then []
    else
      var last := rows[|rows| - 1];
      Upto(rows[..|rows| - 1], watermark) + (if last.seqNo <= watermark then [last] else [])
  }

  /** The fills above the watermark whose id was not already seen at or below it. */
  function Since(rows: seq<FillRow>, watermark: nat, seenBefore: set<FillId>): seq<FillRow> {
    if rows == [] then []
    else
      var last := rows[|rows| - 1];
      Since(rows[..|rows| - 1], watermark, seenBefore)
      + (if last.isFill && last.seqNo > watermark && last.fillId !in seenBefore then [last] else [])
  }

  function SinceBaseline(rows: seq<FillRow>, b: Baseline): seq<FillRow> {
    Since(rows, b.watermark, Ids(Upto(rows, b.watermark)))
  }

  /** The cash a broker should report, by the baseline and the fills since. */
  function Expected(b: Baseline, rows: seq<FillRow>): real { b.cash + Net(SinceBaseline(rows, b)) }

  /** Highest seq of a fill row, 0 without any. */
  function Watermark(rows: seq<FillRow>): nat {
    if rows == [] then 0
    else
      var w, last := Watermark(rows[..|rows| - 1]), rows[|rows| - 1];
      if last.isFill && last.seqNo > w then last.seqNo else w
  }

  /** Every row that must be read can be: a usable id, and for the first row of an
      id a known side. */
  predicate Readable(rows: seq<FillRow>) {
    rows == [] ||
    var front, last := rows[..|rows| - 1], rows[|rows| - 1];
    && Readable(front)
    && (last.isFill ==> last.fillId.Usable? && (last.fillId in Ids(front) || last.side.Some?))
  }

  // ----------------------------------------------------------------- the loops

  lemma {:induction false} ReadablePrefix(rows: seq<FillRow>, i: nat)
    requires i <= |rows| && !Readable(rows[..i])
    ensures !Readable(rows)
    decreases |rows|
  {
    if i == |rows| {
      assert rows[..i] == rows;
    } else {
      assert rows[..|rows| - 1][..i] == rows[..i];
      ReadablePrefix(rows[..|rows| - 1], i);
    }
  }

  ghost predicate HasFill(rows: seq<FillRow>, id: FillId) {
    exists i :: 0 <= i < |rows| && rows[i].isFill && rows[i].fillId == id
  }

  lemma {:induction false} IdsMeaning(rows: seq<FillRow>, id: FillId)
    ensures id in Ids(rows) <==> HasFill(rows, id)
  {
    if rows != [] {
      var n := |rows| - 1;
      IdsMeaning(rows[..n], id);
      if HasFill(rows[..n], id) {
        var i :| 0 <= i < n && rows[..n][i].isFill && rows[..n][i].fillId == id;
        assert rows[i].fillId == id;
      }
      if HasFill(rows, id) && !(rows[n].isFill && rows[n].fillId == id) {
        var i :| 0 <= i < |rows| && rows[i].isFill && rows[i].fillId == id;
        assert rows[..n][i].fillId == id;
      }
    }
  }

  ghost predicate CanBeRead(rows: seq<FillRow>, i: int)
    requires 0 <= i < |rows|
  {
    rows[i].isFill ==> rows[i].fillId.Usable? && (rows[i].side.Some? || HasFill(rows[..i], rows[i].fillId))
  }

  /** Which row can be read depends on the rows before it alone. */
  lemma {:induction false} ReadableIff(rows: seq<FillRow>)
    ensures Readable(rows) <==> forall i :: 0 <= i < |rows| ==> CanBeRead(rows, i)
  {
    if rows != [] {
      var n := |rows| - 1;
      ReadableIff(rows[..n]);
      IdsMeaning(rows[..n], rows[n].fillId);
      forall i | 0 <= i < n ensures CanBeRead(rows, i) <==> CanBeRead(rows[..n], i) {
        assert rows[..n][..i] == rows[..i];
      }
      assert CanBeRead(rows, n) <==>
             (rows[n].isFill ==> rows[n].fillId.Usable? && (rows[n].fillId in Ids(rows[..n]) || rows[n].side.Some?));
    }
  }

  /** None when the telescope closes, else the cash that was expected: the baseline and
      what was sold since, less what was bought. */
  method DiffCash(baselineCash: real, rows: seq<FillRow>, brokerCash: real) returns (r: Result<Option<real>, Error>)
    ensures r.Success? <==> Readable(rows)
    ensures r.Success? ==>
              var expected := baselineCash + Total(rows, Sell) - Total(rows, Buy);
              r.value == if expected == brokerCash then None else Some(expected)
    ensures r == Failure(FillIdMissing) ==> exists i :: 0 <= i < |rows| && rows[i].isFill && rows[i].fillId.Unusable?
    ensures r == Failure(SideOutOfVocabulary) ==> exists i :: 0 <= i < |rows| && rows[i].isFill && rows[i].side.None?
  {
    var expected := baselineCash;
    var seen: set<FillId> := {};
    var i := 0;
    while i < |rows|
      invariant 0 <= i <= |rows|
      invariant seen == Ids(rows[..i])
      invariant expected == baselineCash + Total(rows[..i], Sell) - Total(rows[..i], Buy)
      invariant Readable(rows[..i])
    {
      assert rows[..i + 1][..i] == rows[..i];
      var row := rows[i];
      i := i + 1;
      if !row.isFill {
        continue;
      }
      if row.fillId.Unusable? {
        ReadablePrefix(rows, i);
        return Failure(FillIdMissing);
      }
      if row.fillId in seen {
        continue;
      }
      seen := seen + {row.fillId};
      match row.side {
        case Some(Buy) => expected := expected - row.cost;
        case Some(Sell) => expected := expected + row.cost;
        case None =>
          ReadablePrefix(rows, i);
          return Failure(SideOutOfVocabulary);
      }
    }
    assert rows[..|rows|] == rows;
    r := Success(if expected == brokerCash then None else Some(expected));
  }

  method SeenBefore(rows: seq<FillRow>, watermark: nat) returns (seen: set<FillId>)
    ensures seen == Ids(Upto(rows, watermark))
  {
    seen := {};
    var i := 0;
    while i < |rows|
      invariant 0 <= i <= |rows|
      invariant seen == Ids(Upto(rows[..i], watermark))
    {
      assert rows[..i + 1] == rows[..i] + [rows[i]];
      UptoSnoc(rows[..i], rows[i], watermark);
      if rows[i].isFill && rows[i].seqNo <= watermark {
        seen := seen + {rows[i].fillId};
      }
      i := i + 1;
    }
    assert rows[..|rows|] == rows;
  }

  method FillRowsSince(rows: seq<FillRow>, b: Baseline) returns (since: seq<FillRow>)
    ensures since == SinceBaseline(rows, b)
  {
    var seenBefore := SeenBefore(rows, b.watermark);
    since := [];
    var i := 0;
    while i < |rows|
      invariant 0 <= i <= |rows|
      invariant since == Since(rows[..i], b.watermark, seenBefore)
    {
      assert rows[..i + 1][..i] == rows[..i];
      if rows[i].isFill && rows[i].seqNo > b.watermark && rows[i].fillId !in seenBefore {
        since := since + [rows[i]];
      }
      i := i + 1;
    }
    assert rows[..|rows|] == rows;
  }

  method FillsSeqWatermark(rows: seq<FillRow>) returns (w: nat)
    ensures w == Watermark(rows)
  {
    w := 0;
    var i := 0;
    while i < |rows|
      invariant 0 <= i <= |rows|
      invariant w == Watermark(rows[..i])
    {
      assert rows[..i + 1][..i] == rows[..i];
      if rows[i].isFill && rows[i].seqNo > w {
        w := rows[i].seqNo;
      }
      i := i + 1;
    }
    assert rows[..|rows|] == rows;
  }

  // ------------------------------------------------------------- the telescope

  lemma UptoSnoc(rows: seq<FillRow>, row: FillRow, w: nat)
    ensures Upto(rows + [row], w) == Upto(rows, w) + (if row.seqNo <= w then [row] else [])
    ensures Ids(Upto(rows + [row], w)) == Ids(Upto(rows, w)) + (if row.isFill && row.seqNo <= w then {row.fillId} else {})
  {
    assert (rows + [row])[..|rows|] == rows;
    var upto := Upto(rows, w);
    assert (upto + [row])[..|upto|] == upto;
    assert upto + [] == upto;
  }

  lemma {:induction false} UptoEverything(rows: seq<FillRow>, w: nat)
    requires forall i :: 0 <= i < |rows| ==> rows[i].seqNo <= w
    ensures Upto(rows, w) == rows
  {
    if rows != [] {
      UptoEverything(rows[..|rows| - 1], w);
    }
  }

  lemma {:induction false} SinceNothing(rows: seq<FillRow>, w: nat, seen: set<FillId>)
    requires forall i :: 0 <= i < |rows| ==> rows[i].seqNo <= w || !rows[i].isFill
    ensures Since(rows, w, seen) == []
  {
    if rows != [] {
      SinceNothing(rows[..|rows| - 1], w, seen);
    }
  }

  /** The heart of the telescope: wherever the watermark cuts the journal, the fills
      up to it and the deduplicated fills since add up to the whole. */
  lemma {:induction false} Telescope(rows: seq<FillRow>, w: nat)
    requires Sorted(rows)
    ensures var upto := Upto(rows, w);
            var since := Since(rows, w, Ids(upto));
            && Net(rows) == Net(upto) + Net(since)
            && Ids(rows) == Ids(upto) + Ids(since)
  {
    if rows != [] {
      var front, last := rows[..|rows| - 1], rows[|rows| - 1];
      if last.seqNo <= w {
        UptoEverything(rows, w);
        SinceNothing(rows, w, Ids(rows));
      } else {
        Telescope(front, w);
        var upto := Upto(front, w);
        assert Upto(rows, w) == upto by { assert upto + [] == upto; }
        var since := Since(front, w, Ids(upto));
        assert (since + [last])[..|since|] == since;
        assert since + [] == since;
      }
    }
  }

  lemma {:induction false} WatermarkCovers(rows: seq<FillRow>)
    ensures forall i :: 0 <= i < |rows| && rows[i].isFill ==> rows[i].seqNo <= Watermark(rows)
    ensures Sorted(rows) ==> Watermark(rows) <= LastSeq(rows)
  {
    if rows != [] {
      WatermarkCovers(rows[..|rows| - 1]);
    }
  }

  /** A baseline taken now expects exactly the cash it was taken with. */
  lemma NewBaseline(rows: seq<FillRow>, cash: real)
    ensures SinceBaseline(rows, Baseline(cash, Watermark(rows))) == []
    ensures Expected(Baseline(cash, Watermark(rows)), rows) == cash
  {
    WatermarkCovers(rows);
    var b := Baseline(cash, Watermark(rows));
    SinceNothing(rows, b.watermark, Ids(Upto(rows, b.watermark)));
  }

  /** One more fill, not seen before: a buy lowers the expected cash by its cost, a sell
      raises it. A repeated fill, or no fill, changes nothing. */
  lemma NewFillMoves(b: Baseline, rows: seq<FillRow>, row: FillRow)
    requires Sorted(rows) && row.seqNo > b.watermark && (row.isFill ==> row.side.Some?)
    ensures Expected(b, rows + [row])
            == Expected(b, rows) + (if !row.isFill || row.fillId in Ids(rows) then 0.0
                                    else if row.side == Some(Buy) then -row.cost else row.cost)
  {
    UptoSnoc(rows, row, b.watermark);
    assert Upto(rows, b.watermark) + [] == Upto(rows, b.watermark);
    var seen := Ids(Upto(rows, b.watermark));
    var since := Since(rows, b.watermark, seen);
    assert (rows + [row])[..|rows|] == rows;
    assert (since + [row])[..|since|] == since && since + [] == since;
    Telescope(rows, b.watermark);
  }

  /** What a baseline expects of a journal, less that journal's net: the same for
      every later journal. */
  function Anchor(b: Baseline, rows: seq<FillRow>): real { b.cash - Net(Upto(rows, b.watermark)) }

  lemma ExpectedIsAnchored(b: Baseline, rows: seq<FillRow>)
    requires Sorted(rows)
    ensures Expected(b, rows) == Anchor(b, rows) + Net(rows)
  {
    Telescope(rows, b.watermark);
  }

  lemma AppendKeepsAnchor(b: Baseline, rows: seq<FillRow>, row: FillRow)
    requires row.seqNo > b.watermark
    ensures Anchor(b, rows + [row]) == Anchor(b, rows)
  {
    UptoSnoc(rows, row, b.watermark);
    assert Upto(rows, b.watermark) + [] == Upto(rows, b.watermark);
  }
}
