/**
 The reader over a bar series: it refuses a series that is not strictly increasing,
 and serves lookups and histories from tables made once (MidBarSeriesReader).
 */
module BarReader {
  import opened Wrappers
  import opened BarSeries

  datatype Error = NotIncreasing | BothBarAndMissing

  lemma {:induction false} RecordsOfPrefix(s: seq<Record>, i: nat, key: Key)
    requires i <= |s|
    ensures RecordsOf(s[..i], key) <= RecordsOf(s, key)
    decreases |s|
  {
    if i == |s| {
      assert s[..i] == s;
    } else {
      assert s[..|s| - 1][..i] == s[..i];
      RecordsOfPrefix(s[..|s| - 1], i, key);
    }
  }

  // ------------------------------------------------------------------ admission

  type Table = map<(Key, int), Record>
  type Groups = map<Key, seq<Record>>

  function Grouped(m: Groups, key: Key): seq<Record> { if key in m then m[key] else [] }

  function Look(table: Table, key: Key, end: int): Option<Record> {
    if (key, end) in table then Some(table[(key, end)]) else None
  }

  ghost predicate GroupsOf(groups: Groups, s: seq<Record>) {
    forall key :: Grouped(groups, key) == RecordsOf(s, key)
  }

  ghost predicate TableOf(table: Table, s: seq<Record>) {
    forall key, end :: Find(s, key, end) == Look(table, key, end)
  }

  lemma RecordsOfSnoc(s: seq<Record>, r: Record, key: Key)
    ensures RecordsOf(s + [r], key) == if key == r.key then RecordsOf(s, key) + [r] else RecordsOf(s, key)
  {
    assert (s + [r])[..|s|] == s;
    assert RecordsOf(s, key) + [] == RecordsOf(s, key);
  }

  lemma FindSnoc(s: seq<Record>, r: Record, key: Key, end: int)
    ensures Find(s + [r], key, end) == if r.key == key && r.end == end then Some(r) else Find(s, key, end)
  {
    assert (s + [r])[..|s|] == s;
  }

  lemma Admitted(s: seq<Record>, r: Record, table: Table, groups: Groups)
    requires GroupsOf(groups, s) && TableOf(table, s)
    ensures GroupsOf(groups[r.key := Grouped(groups, r.key) + [r]], s + [r])
    ensures TableOf(table[(r.key, r.end) := r], s + [r])
  {
    var g, t := groups[r.key := Grouped(groups, r.key) + [r]], table[(r.key, r.end) := r];
    forall key ensures Grouped(g, key) == RecordsOf(s + [r], key) {
      RecordsOfSnoc(s, r, key);
      assert Grouped(groups, key) == RecordsOf(s, key);
    }
    forall key, end ensures Find(s + [r], key, end) == Look(t, key, end) {
      FindSnoc(s, r, key, end);
      assert Find(s, key, end) == Look(table, key, end);
    }
  }

  predicate LaterThan(r: Record, before: seq<Record>) { before == [] || before[|before| - 1].end < r.end }

  lemma LaterIsOrdered(before: seq<Record>, r: Record)
    requires Ordered(before) && LaterThan(r, before)
    ensures Ordered(before + [r])
  {
    forall b | b in before ensures b.end < r.end {
      var i :| 0 <= i < |before| && before[i] == b;
      assert i < |before| - 1 ==> before[i].end < before[|before| - 1].end;
    }
    OrderedSnoc(before, r);
  }

  lemma OrderedWith(s: seq<Record>, r: Record)
    requires AllOrdered(s) && LaterThan(r, RecordsOf(s, r.key))
    ensures AllOrdered(s + [r])
  {
    forall key ensures Ordered(RecordsOf(s + [r], key)) {
      RecordsOfSnoc(s, r, key);
      if key == r.key {
        LaterIsOrdered(RecordsOf(s, r.key), r);
      }
    }
  }

  lemma NotOrderedWith(s: seq<Record>, r: Record)
    requires !LaterThan(r, RecordsOf(s, r.key))
    ensures !AllOrdered(s + [r])
  {
    var before := RecordsOf(s, r.key);
    RecordsOfSnoc(s, r, r.key);
    assert (before + [r])[|before|] == r && (before + [r])[|before| - 1] == before[|before| - 1];
    assert !Ordered(RecordsOf(s + [r], r.key));
  }

  lemma OrderedPrefix(s: seq<Record>, i: nat)
    requires i <= |s| && AllOrdered(s)
    ensures AllOrdered(s[..i])
  {
    forall key ensures Ordered(RecordsOf(s[..i], key)) {
      RecordsOfPrefix(s, i, key);
      assert Ordered(RecordsOf(s, key));
    }
  }

  /** Takes the records in one by one, each later than the one before it of its key. */
  method Admit(s: seq<Record>) returns (ok: bool, table: Table, groups: Groups)
    ensures ok <==> AllOrdered(s)
    ensures ok ==> TableOf(table, s) && GroupsOf(groups, s)
  {
    ok, table, groups := true, map[], map[];
    assert s[..0] == [];
    for i := 0 to |s|
      invariant ok && AllOrdered(s[..i]) && TableOf(table, s[..i]) && GroupsOf(groups, s[..i])
    {
      assert s[..i + 1] == s[..i] + [s[i]];
      var before := Grouped(groups, s[i].key);
      assert before == RecordsOf(s[..i], s[i].key);
      if !LaterThan(s[i], before) {
        NotOrderedWith(s[..i], s[i]);
        PrefixRefused(s, i + 1);
        ok := false;
        return;
      }
      OrderedWith(s[..i], s[i]);
      Admitted(s[..i], s[i], table, groups);
      table, groups := table[(s[i].key, s[i].end) := s[i]], groups[s[i].key := before + [s[i]]];
    }
    assert s[..|s|] == s;
  }

  lemma PrefixRefused(s: seq<Record>, i: nat)
    requires i <= |s| && !AllOrdered(s[..i])
    ensures !AllOrdered(s)
  {
    if AllOrdered(s) {
      OrderedPrefix(s, i);
    }
  }

  // ------------------------------------------------------------------- coverage

  /** Earliest and latest end of the records of one key, of either kind. */
  function Span(bars: seq<Record>, missing: seq<Record>): (int, int)
    requires bars != [] || missing != []
  {
    if bars == [] then (missing[0].end, missing[|missing| - 1].end)
    else if missing == [] then (bars[0].end, bars[|bars| - 1].end)
    else
      (if bars[0].end < missing[0].end then bars[0].end else missing[0].end,
       if bars[|bars| - 1].end > missing[|missing| - 1].end then bars[|bars| - 1].end else missing[|missing| - 1].end)
  }

  lemma EndsIff(s: seq<Record>, key: Key, end: int)
    requires AllOrdered(s)
    ensures var r := RecordsOf(s, key);
            && (EndsBy(s, key, end) <==> r != [] && r[0].end <= end)
            && (EndsFrom(s, key, end) <==> r != [] && r[|r| - 1].end >= end)
  {
    var r := RecordsOf(s, key);
    RecordsOfMeaning(s, key);
    assert Ordered(r);
    if r != [] {
      assert r[0] in r && r[|r| - 1] in r;
    }
    if EndsBy(s, key, end) {
      var x :| x in s && x.key == key && x.end <= end;
      assert x in r;
      var i :| 0 <= i < |r| && r[i] == x;
    }
    if EndsFrom(s, key, end) {
      var x :| x in s && x.key == key && x.end >= end;
      assert x in r;
      var i :| 0 <= i < |r| && r[i] == x;
    }
  }

  lemma SpanCovers(bars: seq<Record>, missing: seq<Record>, key: Key, end: int)
    requires AllOrdered(bars) && AllOrdered(missing)
    ensures var b, m := RecordsOf(bars, key), RecordsOf(missing, key);
            Covered(bars, missing, key, end) <==> (b != [] || m != []) && Span(b, m).0 <= end <= Span(b, m).1
  {
    EndsIff(bars, key, end);
    EndsIff(missing, key, end);
    assert Ordered(RecordsOf(bars, key)) && Ordered(RecordsOf(missing, key));
  }

  // ------------------------------------------------------------------ the reader

  function IndexOf(bars: seq<Record>): (ix: Index)
    requires AllBars(bars)
    ensures Indexes(ix, bars)
  {
    Index(seq(|bars|, i requires 0 <= i < |bars| => bars[i].end),
          seq(|bars|, i requires 0 <= i < |bars| => bars[i].watermark), bars)
  }

  lemma RecordsOfBars(bars: seq<Record>, key: Key)
    requires AllBars(bars)
    ensures AllBars(RecordsOf(bars, key))
  {
    RecordsOfMeaning(bars, key);
    var r := RecordsOf(bars, key);
    assert forall i :: 0 <= i < |r| ==> r[i] in r;
  }

  function Coverage(bars: Groups, missing: Groups): map<Key, (int, int)> {
    map key | key in bars.Keys + missing.Keys && (Grouped(bars, key) != [] || Grouped(missing, key) != []) ::
      Span(Grouped(bars, key), Grouped(missing, key))
  }

  lemma CoverageMeaning(bars: seq<Record>, missing: seq<Record>, barGroups: Groups, missingGroups: Groups, key: Key, end: int)
    requires AllOrdered(bars) && AllOrdered(missing) && GroupsOf(barGroups, bars) && GroupsOf(missingGroups, missing)
    ensures var c := Coverage(barGroups, missingGroups);
            Covered(bars, missing, key, end) <==> key in c && c[key].0 <= end <= c[key].1
  {
    SpanCovers(bars, missing, key, end);
    assert Grouped(barGroups, key) == RecordsOf(bars, key);
    assert Grouped(missingGroups, key) == RecordsOf(missing, key);
  }

  lemma GroupsAreBars(bars: seq<Record>, groups: Groups)
    requires AllBars(bars) && GroupsOf(groups, bars)
    ensures forall key :: key in groups ==> AllBars(groups[key])
  {
    forall key | key in groups ensures AllBars(groups[key]) {
      RecordsOfBars(bars, key);
      assert Grouped(groups, key) == RecordsOf(bars, key);
    }
  }

  class MidBarSeriesReader {
    ghost var bars: seq<Record>
    ghost var missing: seq<Record>
    var barTable: Table
    var missingTable: Table
    var coverage: map<Key, (int, int)>
    var index: map<Key, Index>

    ghost predicate Valid()
      reads this
    {
      && AllBars(bars) && AllMissing(missing) && Readable(bars, missing)
      && TableOf(barTable, bars) && TableOf(missingTable, missing)
      && (forall key, end :: Covered(bars, missing, key, end) <==>
            key in coverage && coverage[key].0 <= end <= coverage[key].1)
      && (forall key :: if key in index then Indexes(index[key], RecordsOf(bars, key)) else RecordsOf(bars, key) == [])
    }

    constructor (ghost bars: seq<Record>, ghost missing: seq<Record>, barTable: Table, missingTable: Table,
                 barGroups: Groups, missingGroups: Groups)
      requires AllBars(bars) && AllMissing(missing) && Readable(bars, missing)
      requires TableOf(barTable, bars) && GroupsOf(barGroups, bars)
      requires TableOf(missingTable, missing) && GroupsOf(missingGroups, missing)
      ensures Valid() && this.bars == bars && this.missing == missing
    {
      this.bars, this.missing, this.barTable, this.missingTable := bars, missing, barTable, missingTable;
      GroupsAreBars(bars, barGroups);
      coverage := Coverage(barGroups, missingGroups);
      index := map key | key in barGroups :: IndexOf(barGroups[key]);
      new;
      forall key, end
        ensures Covered(bars, missing, key, end) <==> key in coverage && coverage[key].0 <= end <= coverage[key].1
      {
        CoverageMeaning(bars, missing, barGroups, missingGroups, key, end);
      }
      forall key
        ensures if key in index then Indexes(index[key], RecordsOf(bars, key)) else RecordsOf(bars, key) == []
      {
        assert Grouped(barGroups, key) == RecordsOf(bars, key);
      }
    }

    /** Point lookup, optionally as of an instant. */
    method GetBar(key: Key, end: int, asOf: Option<int>) returns (r: Lookup)
      requires Valid()
      ensures r == Get(bars, missing, key, end, asOf)
    {
      FindMeaning(bars, key, end);
      FindMeaning(missing, key, end);
      assert Find(missing, key, end) == Look(missingTable, key, end);
      assert Find(bars, key, end) == Look(barTable, key, end);
      if (key, end) in missingTable {
        return Absent(missingTable[(key, end)].reason);
      }
      if (key, end) !in barTable {
        if key !in coverage || !(coverage[key].0 <= end <= coverage[key].1) {
          return Absent(OutOfSeries);
        }
        return Absent(NoQuotesInBucket);
      }
      var b := barTable[(key, end)];
      if asOf.Some? && (b.end > asOf.value || b.watermark > asOf.value) {
        return Absent(FutureReceipt);
      }
      r := Present(b);
    }

    method GetHistory(key: Key, asOf: int, maxBars: int) returns (r: seq<Record>)
      requires Valid()
      ensures r == History(bars, key, asOf, maxBars)
    {
      if key !in index || maxBars <= 0 {
        return [];
      }
      assert Ordered(RecordsOf(bars, key));
      r := EligibleHistory(index[key], asOf, maxBars);
    }

    method LatestEligible(key: Key, asOf: int) returns (r: Option<Record>)
      requires Valid()
      ensures var all := EligibleOf(RecordsOf(bars, key), asOf);
              r == if all == [] then None else Some(all[|all| - 1])
    {
      var history := GetHistory(key, asOf, 1);
      r := if history == [] then None else Some(history[|history| - 1]);
    }
  }

  /** A reader is made of exactly the readable series. */
  method MakeReader(bars: seq<Record>, missing: seq<Record>) returns (r: Result<MidBarSeriesReader, Error>)
    requires AllBars(bars) && AllMissing(missing)
    ensures r.Success? <==> Readable(bars, missing)
    ensures r.Success? ==> r.value.Valid() && fresh(r.value) && r.value.bars == bars && r.value.missing == missing
  {
    var barsOk, barTable, barGroups := Admit(bars);
    if !barsOk {
      return Failure(NotIncreasing);
    }
    var missingOk, missingTable, missingGroups := Admit(missing);
    if !missingOk {
      return Failure(NotIncreasing);
    }
    OverlapMeaning(bars, missing, barTable, missingTable);
    if barTable.Keys * missingTable.Keys != {} {
      return Failure(BothBarAndMissing);
    }
    var reader := new MidBarSeriesReader(bars, missing, barTable, missingTable, barGroups, missingGroups);
    r := Success(reader);
  }

  lemma OverlapMeaning(bars: seq<Record>, missing: seq<Record>, barTable: Table, missingTable: Table)
    requires TableOf(barTable, bars) && TableOf(missingTable, missing)
    ensures Disjoint(bars, missing) <==> barTable.Keys * missingTable.Keys == {}
  {
    forall b | b in bars ensures (b.key, b.end) in barTable {
      FindMeaning(bars, b.key, b.end);
      assert Find(bars, b.key, b.end) == Look(barTable, b.key, b.end);
    }
    forall m | m in missing ensures (m.key, m.end) in missingTable {
      FindMeaning(missing, m.key, m.end);
      assert Find(missing, m.key, m.end) == Look(missingTable, m.key, m.end);
    }
    if k :| k in barTable.Keys * missingTable.Keys {
      FindMeaning(bars, k.0, k.1);
      FindMeaning(missing, k.0, k.1);
      assert Find(bars, k.0, k.1) == Look(barTable, k.0, k.1);
      assert Find(missing, k.0, k.1) == Look(missingTable, k.0, k.1);
    } else {
      forall b, m | b in bars && m in missing ensures b.key != m.key || b.end != m.end {
        assert (b.key, b.end) !in barTable.Keys * missingTable.Keys;
      }
    }
  }
}
