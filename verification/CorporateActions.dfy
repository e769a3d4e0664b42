/**
 Cross-validation of corporate-action reports from several sources
 (corporate_actions.cross_validate): a function of the set of reports, whatever
 order they came in. Dates are day numbers; amounts are their canonical texts,
 which are equal exactly when the quantized amounts are.
 */
module CorporateActions {
  import opened Wrappers

  const MIN_INDEPENDENT_SOURCES: nat := 2
  const BLACKOUT_LEAD_DAYS: int := 1
  const BLACKOUT_TRAIL_DAYS: int := 1

  datatype Source = Alpaca | DataVendor

  datatype CaType = Split | ReverseSplit | Dividend | SpecialDividend | Spinoff | Merger | SymbolChange | OtherType

  /** Identifiers are None when absent or blank. */
  datatype DurableId = DurableId(cusip: Option<string>, figi: Option<string>, ticker: string)

  datatype Observation = Observation(
    source: Source, provenanceSource: Source, caId: string, announced: string, received: string,
    durable: DurableId, caType: CaType, exDate: int, factor: Option<string>, cash: Option<string>)

  // ----------------------------------------------------------------- normalizing

  /** Whitespace up to U+00FF, as str.strip() takes it. */
  predicate Blank(c: char) {
    c == ' ' || '\t' <= c <= '\r' || '\U{1C}' <= c <= '\U{1F}' || c == '\U{85}' || c == '\U{A0}'
  }

  function StripLeft(s: string): string { if s != [] && Blank(s[0]) then StripLeft(s[1..]) else s }

  function StripRight(s: string): string { if s != [] && Blank(s[|s| - 1]) then StripRight(s[..|s| - 1]) else s }

  /** The vendor's id without the whitespace around it. */
  function Clean(s: string): string { StripRight(StripLeft(s)) }

  predicate Absent(s: Option<string>) { s.Some? && s.value == "" }

  /** Texts and identifiers that are present are not empty. */
  predicate WellFormed(o: Observation) {
    !Absent(o.factor) && !Absent(o.cash) && !Absent(o.durable.cusip) && !Absent(o.durable.figi)
  }

  function Normal(o: Observation): Observation { o.(caId := Clean(o.caId)) }

  function Normals(obs: seq<Observation>): seq<Observation> {
    if obs == [] then [] else Normals(obs[..|obs| - 1]) + [Normal(obs[|obs| - 1])]
  }

  predicate ProvenanceOk(o: Observation) { o.source == o.provenanceSource && Clean(o.caId) != "" }

  function DurableKey(d: DurableId): Option<string> { if d.figi.Some? then d.figi else d.cusip }

  predicate Complete(o: Observation) {
    && (o.caType.Split? || o.caType.ReverseSplit? ==> o.factor.Some?)
    && (o.caType.Dividend? || o.caType.SpecialDividend? ==> o.cash.Some?)
  }

  // ------------------------------------------------------------- the total order

  function SourceName(s: Source): string { if s.Alpaca? then "alpaca" else "data_vendor" }

  function TypeName(t: CaType): string {
    match t
    case Split => "split"
    case ReverseSplit => "reverse_split"
    case Dividend => "dividend"
    case SpecialDividend => "special_dividend"
    case Spinoff => "spinoff"
    case Merger => "merger"
    case SymbolChange => "symbol_change"
    case OtherType => "other"
  }

  function OrEmpty(s: Option<string>): string { if s.Some? then s.value else "" }

  /** The sort key; the ex-date, the same throughout a group, is left out of it. */
  function TotalKey(o: Observation): seq<string> {
    [SourceName(o.provenanceSource), Clean(o.caId), TypeName(o.caType), OrEmpty(o.factor), OrEmpty(o.cash),
     OrEmpty(o.durable.cusip), OrEmpty(o.durable.figi), o.durable.ticker, o.announced, o.received]
  }

  predicate Leq(a: string, b: string) {
    a == [] || (b != [] && (a[0] < b[0] || (a[0] == b[0] && Leq(a[1..], b[1..]))))
  }

  predicate KeyLeq(a: seq<string>, b: seq<string>) {
    a == [] || (b != [] && if a[0] == b[0] then KeyLeq(a[1..], b[1..]) else Leq(a[0], b[0]))
  }

  lemma {:induction false} LeqOrder(a: string, b: string)
    ensures Leq(a, b) || Leq(b, a)
    ensures Leq(a, b) && Leq(b, a) ==> a == b
  {
    if a != [] && b != [] {
      LeqOrder(a[1..], b[1..]);
      assert a == [a[0]] + a[1..] && b == [b[0]] + b[1..];
    }
  }

  lemma {:induction false} LeqTransitive(a: string, b: string, c: string)
    requires Leq(a, b) && Leq(b, c)
    ensures Leq(a, c)
  {
    if a != [] && b != [] && c != [] && a[0] == b[0] == c[0] {
      LeqTransitive(a[1..], b[1..], c[1..]);
    }
  }

  lemma {:induction false} KeyLeqOrder(a: seq<string>, b: seq<string>)
    ensures KeyLeq(a, b) || KeyLeq(b, a)
    ensures KeyLeq(a, b) && KeyLeq(b, a) ==> a == b
  {
    if a != [] && b != [] {
      KeyLeqOrder(a[1..], b[1..]);
      LeqOrder(a[0], b[0]);
      assert a == [a[0]] + a[1..] && b == [b[0]] + b[1..];
    }
  }

  lemma {:induction false} KeyLeqTransitive(a: seq<string>, b: seq<string>, c: seq<string>)
    requires KeyLeq(a, b) && KeyLeq(b, c)
    ensures KeyLeq(a, c)
  {
    if a != [] && b != [] && c != [] {
      if a[0] == b[0] == c[0] {
        KeyLeqTransitive(a[1..], b[1..], c[1..]);
      } else {
        LeqOrder(a[0], b[0]);
        LeqOrder(b[0], c[0]);
        if a[0] != b[0] && b[0] != c[0] {
          LeqTransitive(a[0], b[0], c[0]);
        }
      }
    }
  }

  predicate Before(a: Observation, b: Observation) { KeyLeq(TotalKey(a), TotalKey(b)) }

  /** Reports of one group with the same key are the same report. */
  lemma KeyDetermines(a: Observation, b: Observation)
    requires WellFormed(a) && WellFormed(b) && ProvenanceOk(a) && ProvenanceOk(b) && a.exDate == b.exDate
    requires TotalKey(a) == TotalKey(b)
    ensures Normal(a) == Normal(b)
  {
    var x, y := TotalKey(a), TotalKey(b);
    assert x[0] == y[0] && x[1] == y[1] && x[2] == y[2] && x[3] == y[3] && x[4] == y[4];
    assert x[5] == y[5] && x[6] == y[6] && x[7] == y[7] && x[8] == y[8] && x[9] == y[9];
    SourceNames(a.provenanceSource, b.provenanceSource);
    TypeNames(a.caType, b.caType);
  }

  lemma SourceNames(a: Source, b: Source)
    requires SourceName(a) == SourceName(b)
    ensures a == b
  {
    assert |SourceName(Alpaca)| != |SourceName(DataVendor)|;
  }

  lemma TypeNames(a: CaType, b: CaType)
    requires TypeName(a) == TypeName(b)
    ensures a == b
  {
    assert TypeName(a)[0] == TypeName(b)[0] && |TypeName(a)| == |TypeName(b)|;
  }

  // -------------------------------------------------------------------- sorting

  function Insert(o: Observation, s: seq<Observation>): seq<Observation> {
    if s == [] then [o] else if Before(o, s[0]) then [o] + s else [s[0]] + Insert(o, s[1..])
  }

  function Sort(s: seq<Observation>): seq<Observation> {
    if s == [] then [] else Insert(s[|s| - 1], Sort(s[..|s| - 1]))
  }

  ghost predicate Sorted(s: seq<Observation>) { forall i, j :: 0 <= i < j < |s| ==> Before(s[i], s[j]) }

  lemma {:induction false} InsertKeeps(o: Observation, s: seq<Observation>)
    ensures multiset(Insert(o, s)) == multiset(s) + multiset{o}
  {
    if s != [] {
      assert s == [s[0]] + s[1..];
      InsertKeeps(o, s[1..]);
    }
  }

  lemma BeforeAll(o: Observation, s: seq<Observation>)
    requires Sorted(s) && s != [] && Before(o, s[0])
    ensures Sorted([o] + s)
  {
    forall i | 0 <= i < |s| ensures Before(o, s[i]) {
      if i > 0 { KeyLeqTransitive(TotalKey(o), TotalKey(s[0]), TotalKey(s[i])); }
    }
  }

  lemma {:induction false} InsertSorts(o: Observation, s: seq<Observation>)
    requires Sorted(s)
    ensures Sorted(Insert(o, s))
  {
    if s != [] {
      if Before(o, s[0]) {
        BeforeAll(o, s);
      } else {
        KeyLeqOrder(TotalKey(o), TotalKey(s[0]));
        InsertSorts(o, s[1..]);
        InsertKeeps(o, s[1..]);
        var r := Insert(o, s[1..]);
        forall i | 0 <= i < |r| ensures Before(s[0], r[i]) {
          assert r[i] in multiset(s[1..]) + multiset{o};
          assert r[i] in s[1..] || r[i] == o;
        }
      }
    }
  }

  lemma {:induction false} SortKeeps(s: seq<Observation>)
    ensures multiset(Sort(s)) == multiset(s)
  {
    if s != [] {
      var front, o := s[..|s| - 1], s[|s| - 1];
      SortKeeps(front);
      InsertKeeps(o, Sort(front));
      assert s == front + [o];
    }
  }

  lemma {:induction false} SortOrders(s: seq<Observation>)
    ensures Sorted(Sort(s))
  {
    if s != [] {
      SortOrders(s[..|s| - 1]);
      InsertSorts(s[|s| - 1], Sort(s[..|s| - 1]));
    }
  }

  lemma SortSorts(s: seq<Observation>)
    ensures Sorted(Sort(s)) && multiset(Sort(s)) == multiset(s)
  {
    SortKeeps(s);
    SortOrders(s);
  }

  /** Reports of one group, in normal form, as validation leaves them. */
  ghost predicate Group(s: seq<Observation>) {
    && (forall o :: o in s ==> WellFormed(o) && ProvenanceOk(o) && Normal(o) == o)
    && (forall a, b :: a in s && b in s ==> a.exDate == b.exDate)
  }

  lemma FirstSame(x: seq<Observation>, y: seq<Observation>)
    requires Group(x) && Sorted(x) && Sorted(y) && x != [] && y != []
    requires x[0] in y && y[0] in x
    ensures x[0] == y[0]
  {
    var i :| 0 <= i < |y| && y[i] == x[0];
    var j :| 0 <= j < |x| && x[j] == y[0];
    KeyLeqOrder(TotalKey(x[0]), TotalKey(y[0]));
    if i > 0 && j > 0 {
      assert Before(x[0], x[j]) && Before(y[0], y[i]);
      KeyDetermines(x[0], x[j]);
    }
  }

  lemma MultisetCancel<T>(a: T, x: multiset<T>, y: multiset<T>)
    requires x + multiset{a} == y + multiset{a}
    ensures x == y
  {
    assert x == (x + multiset{a}) - multiset{a};
    assert y == (y + multiset{a}) - multiset{a};
  }

  lemma MultisetTail<T>(x: seq<T>)
    requires x != []
    ensures multiset(x) == multiset(x[1..]) + multiset{x[0]}
  {
    assert x == [x[0]] + x[1..];
  }

  lemma SameTails(x: seq<Observation>, y: seq<Observation>)
    requires x != [] && y != [] && x[0] == y[0] && multiset(x) == multiset(y)
    ensures multiset(x[1..]) == multiset(y[1..])
  {
    MultisetTail(x);
    MultisetTail(y);
    MultisetCancel(x[0], multiset(x[1..]), multiset(y[1..]));
  }

  lemma SameSize(x: seq<Observation>, y: seq<Observation>)
    requires multiset(x) == multiset(y)
    ensures |x| == |y|
  {
    assert |multiset(x)| == |x| && |multiset(y)| == |y|;
  }

  /** The order is total, so a group has only one sorted form. */
  lemma {:induction false} SortedUnique(x: seq<Observation>, y: seq<Observation>)
    requires Group(x) && Sorted(x) && Sorted(y) && multiset(x) == multiset(y)
    ensures x == y
  {
    SameSize(x, y);
    if x != [] {
      assert x[0] in multiset(y) && y[0] in multiset(x);
      FirstSame(x, y);
      SameTails(x, y);
      SortedUnique(x[1..], y[1..]);
      assert x == [x[0]] + x[1..] && y == [y[0]] + y[1..];
    }
  }

  // ------------------------------------------------------------------ the event

  datatype Status = Confirmed | SingleSource | Conflicting

  datatype Provenance = Provenance(source: Source, caId: string, announced: string, received: string)

  datatype Event = Event(
    durable: DurableId, caType: CaType, exDate: int, factor: Option<string>, cash: Option<string>,
    sources: set<Source>, provenance: seq<Provenance>, status: Status, independent: bool, from: int, to: int)

  datatype Error = WindowShrunk | NothingToValidate | BadProvenance | NotDurable | MixedGroups

  function SourcesOf(s: seq<Observation>): set<Source> { set o | o in s :: o.source }

  function CaIdsOf(s: seq<Observation>): set<string> { set o | o in s :: Clean(o.caId) }

  predicate Independent(s: seq<Observation>) {
    |SourcesOf(s)| >= MIN_INDEPENDENT_SOURCES && |CaIdsOf(s)| >= MIN_INDEPENDENT_SOURCES
  }

  predicate SameReport(a: Observation, b: Observation) {
    a.caType == b.caType && a.exDate == b.exDate && a.factor == b.factor && a.cash == b.cash
  }

  function StatusOf(s: seq<Observation>): Status
    requires s != []
  {
    if exists i :: 0 <= i < |s| && !SameReport(s[i], s[0]) then Conflicting
    else if exists i :: 0 <= i < |s| && !Complete(s[i]) then Conflicting
    else if Independent(s) then Confirmed
    else SingleSource
  }

  function Provenances(s: seq<Observation>): seq<Provenance> {
    if s == [] then []
    else
      var o := s[|s| - 1];
      Provenances(s[..|s| - 1]) + [Provenance(o.provenanceSource, Clean(o.caId), o.announced, o.received)]
  }

  function EventOf(s: seq<Observation>, lead: int, trail: int): Event
    requires s != []
  {
    Event(s[0].durable, s[0].caType, s[0].exDate, s[0].factor, s[0].cash, SourcesOf(s), Provenances(s), StatusOf(s),
          Independent(s), s[0].exDate - lead, s[0].exDate + trail)
  }

  predicate OneGroup(s: seq<Observation>) {
    forall a, b :: a in s && b in s ==> DurableKey(a.durable) == DurableKey(b.durable) && a.exDate == b.exDate
  }

  /** Why a set of reports is not validated at all. */
  function Refusal(obs: seq<Observation>, lead: int, trail: int): (r: Option<Error>)
    ensures r.None? ==> obs != [] && lead >= BLACKOUT_LEAD_DAYS && trail >= BLACKOUT_TRAIL_DAYS
  {
    if lead < BLACKOUT_LEAD_DAYS || trail < BLACKOUT_TRAIL_DAYS then Some(WindowShrunk)
    else if obs == [] then Some(NothingToValidate)
    else if exists o :: o in obs && !ProvenanceOk(o) then Some(BadProvenance)
    else if exists o :: o in obs && DurableKey(o.durable).None? then Some(NotDurable)
    else if !OneGroup(obs) then Some(MixedGroups)
    else None
  }

  /** The reports in normal form and key order. */
  function Arranged(obs: seq<Observation>): (s: seq<Observation>)
    ensures |s| == |obs|
  {
    NormalsLength(obs);
    SortKeepsSome(Normals(obs));
    Sort(Normals(obs))
  }

  function CrossValidate(obs: seq<Observation>, lead: int, trail: int): Result<Event, Error> {
    if Refusal(obs, lead, trail).Some? then Failure(Refusal(obs, lead, trail).value)
    else Success(EventOf(Arranged(obs), lead, trail))
  }

  lemma {:induction false} NormalsLength(obs: seq<Observation>)
    ensures |Normals(obs)| == |obs|
    ensures forall i :: 0 <= i < |obs| ==> Normals(obs)[i] == Normal(obs[i])
  {
    if obs != [] {
      NormalsLength(obs[..|obs| - 1]);
    }
  }

  lemma SortKeepsSome(s: seq<Observation>)
    ensures |Sort(s)| == |s|
  {
    SortSorts(s);
    assert |multiset(Sort(s))| == |Sort(s)| && |multiset(s)| == |s|;
  }

  // ------------------------------------------------------ order does not matter

  lemma {:induction false} StripRightShape(s: string)
    ensures StripRight(s) <= s
    ensures StripRight(s) != [] ==> !Blank(StripRight(s)[|StripRight(s)| - 1])
    ensures StripRight(StripRight(s)) == StripRight(s)
  {
    if s != [] && Blank(s[|s| - 1]) {
      StripRightShape(s[..|s| - 1]);
    }
  }

  lemma {:induction false} StripLeftShape(s: string)
    ensures StripLeft(s) != [] ==> !Blank(StripLeft(s)[0])
  {
    if s != [] && Blank(s[0]) {
      StripLeftShape(s[1..]);
    }
  }

  lemma CleanIdempotent(s: string)
    ensures Clean(Clean(s)) == Clean(s)
  {
    StripLeftShape(s);
    StripRightShape(StripLeft(s));
    assert StripLeft(Clean(s)) == Clean(s);
  }

  lemma MultisetAmid<T>(a: seq<T>, x: T, b: seq<T>)
    ensures multiset(a + ([x] + b)) == multiset(a + b) + multiset{x}
  {}

  /** Where the last of one sequence stands in a permutation of it. */
  lemma TakeLast(x: seq<Observation>, y: seq<Observation>) returns (a: seq<Observation>, b: seq<Observation>)
    requires x != [] && multiset(x) == multiset(y)
    ensures y == a + ([x[|x| - 1]] + b) && multiset(x[..|x| - 1]) == multiset(a + b)
  {
    var n := |x| - 1;
    assert x[n] in multiset(y);
    var k :| 0 <= k < |y| && y[k] == x[n];
    a, b := y[..k], y[k + 1..];
    MultisetAmid(x[..n], x[n], []);
    assert x == x[..n] + ([x[n]] + []) && x[..n] + [] == x[..n];
    MultisetAmid(a, x[n], b);
    assert y == a + ([x[n]] + b);
    MultisetCancel(x[n], multiset(x[..n]), multiset(a + b));
  }

  lemma NormalsLast(x: seq<Observation>)
    requires x != []
    ensures multiset(Normals(x)) == multiset(Normals(x[..|x| - 1])) + multiset{Normal(x[|x| - 1])}
  {}

  lemma {:induction false} NormalsOfPermutation(x: seq<Observation>, y: seq<Observation>)
    requires multiset(x) == multiset(y)
    ensures multiset(Normals(x)) == multiset(Normals(y))
  {
    if x == [] {
      assert |multiset(y)| == |y|;
    } else {
      var a, b := TakeLast(x, y);
      NormalsOfPermutation(x[..|x| - 1], a + b);
      NormalsLast(x);
      NormalsAmid(a, x[|x| - 1], b);
    }
  }

  lemma {:induction false} NormalsConcat(a: seq<Observation>, b: seq<Observation>)
    ensures Normals(a + b) == Normals(a) + Normals(b)
  {
    if b == [] {
      assert a + b == a;
    } else {
      var n := |b| - 1;
      NormalsConcat(a, b[..n]);
      var ab := a + b;
      assert ab[..|ab| - 1] == a + b[..n] && ab[|ab| - 1] == b[n];
      assert Normals(ab) == Normals(a + b[..n]) + [Normal(b[n])];
    }
  }

  lemma NormalsAmid(a: seq<Observation>, x: Observation, b: seq<Observation>)
    ensures multiset(Normals(a + ([x] + b))) == multiset(Normals(a + b)) + multiset{Normal(x)}
  {
    NormalsConcat(a, [x] + b);
    NormalsConcat([x], b);
    NormalsConcat(a, b);
    NormalsOne(x);
    MultisetAmid(Normals(a), Normal(x), Normals(b));
  }

  lemma NormalsOne(o: Observation)
    ensures Normals([o]) == [Normal(o)]
  {
    assert Normals([]) == [];
  }

  lemma NormalsGroup(obs: seq<Observation>)
    requires forall o :: o in obs ==> WellFormed(o) && ProvenanceOk(o)
    requires OneGroup(obs)
    ensures Group(Normals(obs))
  {
    NormalsLength(obs);
    forall o | o in Normals(obs) ensures WellFormed(o) && ProvenanceOk(o) && Normal(o) == o && exists p :: p in obs && o == Normal(p) {
      var i :| 0 <= i < |obs| && o == Normal(obs[i]);
      assert obs[i] in obs;
      CleanIdempotent(obs[i].caId);
    }
  }

  /** The verdict, and every field of the event, is a function of what was reported and
      not of the order of the reports. */
  lemma OrderDoesNotMatter(x: seq<Observation>, y: seq<Observation>, lead: int, trail: int)
    requires forall o :: o in x ==> WellFormed(o)
    requires multiset(x) == multiset(y)
    ensures CrossValidate(x, lead, trail) == CrossValidate(y, lead, trail)
  {
    assert |multiset(x)| == |x| && |multiset(y)| == |y|;
    assert forall o :: o in x <==> o in multiset(x);
    assert forall o :: o in y <==> o in multiset(y);
    assert OneGroup(x) <==> OneGroup(y);
    assert Refusal(x, lead, trail) == Refusal(y, lead, trail);
    if Refusal(x, lead, trail).None? {
      SameDates(x, lead, trail);
      SameArrangement(x, y);
    }
  }

  lemma SameArrangement(x: seq<Observation>, y: seq<Observation>)
    requires forall o :: o in x ==> WellFormed(o) && ProvenanceOk(o)
    requires OneGroup(x) && multiset(x) == multiset(y)
    ensures Arranged(x) == Arranged(y)
  {
    NormalsGroup(x);
    NormalsOfPermutation(x, y);
    SortSorts(Normals(x));
    SortSorts(Normals(y));
    GroupOfPermutation(Normals(x), Sort(Normals(x)));
    SortedUnique(Sort(Normals(x)), Sort(Normals(y)));
  }

  lemma GroupOfPermutation(x: seq<Observation>, y: seq<Observation>)
    requires Group(x) && multiset(x) == multiset(y)
    ensures Group(y)
  {
    assert forall o :: o in y ==> o in multiset(x);
  }

  // --------------------------------------------------------- what the status means

  ghost predicate Agree(obs: seq<Observation>) { forall a, b :: a in obs && b in obs ==> SameReport(a, b) }

  ghost predicate AllComplete(obs: seq<Observation>) { forall o :: o in obs ==> Complete(o) }

  /** Two reports that are each other's corroboration: another source, another id. */
  predicate Corroborates(a: Observation, b: Observation) { a.source != b.source && Clean(a.caId) != Clean(b.caId) }

  ghost predicate SomeCorroborated(obs: seq<Observation>) {
    exists a, b :: a in obs && b in obs && Corroborates(a, b)
  }

  lemma TwoMembers<T>(s: set<T>)
    ensures |s| >= 2 <==> exists a, b :: a in s && b in s && a != b
  {
    if |s| >= 2 {
      var a :| a in s;
      assert |s - {a}| >= 1;
      var b :| b in s - {a};
      assert a in s && b in s && a != b;
    }
    if a, b :| a in s && b in s && a != b {
      assert {a, b} <= s && |{a, b}| == 2;
      assert |s| == |{a, b}| + |s - {a, b}|;
    }
  }

  /** The two cardinality tests together say that some two reports differ in both. */
  lemma IndependentIff(obs: seq<Observation>)
    ensures Independent(obs) <==> SomeCorroborated(obs)
  {
    TwoMembers(SourcesOf(obs));
    TwoMembers(CaIdsOf(obs));
    if SomeCorroborated(obs) {
      var a, b :| a in obs && b in obs && Corroborates(a, b);
      assert a.source in SourcesOf(obs) && b.source in SourcesOf(obs);
      assert Clean(a.caId) in CaIdsOf(obs) && Clean(b.caId) in CaIdsOf(obs);
    }
    if Independent(obs) {
      var x, y :| x in SourcesOf(obs) && y in SourcesOf(obs) && x != y;
      var a :| a in obs && a.source == x;
      var b :| b in obs && b.source == y;
      var i, j :| i in CaIdsOf(obs) && j in CaIdsOf(obs) && i != j;
      var c :| c in obs && Clean(c.caId) == (if i == Clean(a.caId) then j else i);
      assert Corroborates(a, b) || Corroborates(a, c) || Corroborates(b, c);
    }
  }

  ghost predicate FromReport(obs: seq<Observation>, x: Observation) { exists o :: o in obs && x == Normal(o) }

  /** The normal forms of the reports, in whatever order. */
  ghost predicate Mirrors(s: seq<Observation>, obs: seq<Observation>) {
    && (forall o :: o in obs ==> Normal(o) in s)
    && (forall x :: x in s ==> FromReport(obs, x))
  }

  /** Sorting the normal forms loses and adds nothing. */
  lemma SortMirrors(obs: seq<Observation>)
    ensures Mirrors(Sort(Normals(obs)), obs)
  {
    NormalsLength(obs);
    SortSorts(Normals(obs));
    var n, s := Normals(obs), Sort(Normals(obs));
    assert forall x :: x in s <==> x in multiset(n);
    forall o | o in obs ensures Normal(o) in s {
      var i :| 0 <= i < |obs| && obs[i] == o;
      assert n[i] == Normal(o) && n[i] in multiset(n);
    }
    forall x | x in s ensures FromReport(obs, x) {
      var i :| 0 <= i < |n| && n[i] == x;
      assert obs[i] in obs;
    }
  }

  lemma MirrorIndependence(s: seq<Observation>, obs: seq<Observation>)
    requires Mirrors(s, obs)
    ensures SomeCorroborated(s) <==> SomeCorroborated(obs)
  {
    if SomeCorroborated(s) {
      var x, y :| x in s && y in s && Corroborates(x, y);
      assert FromReport(obs, x) && FromReport(obs, y);
      var a :| a in obs && x == Normal(a);
      var b :| b in obs && y == Normal(b);
      CleanIdempotent(a.caId);
      CleanIdempotent(b.caId);
      assert Corroborates(a, b);
    }
    if SomeCorroborated(obs) {
      var a, b :| a in obs && b in obs && Corroborates(a, b);
      CleanIdempotent(a.caId);
      CleanIdempotent(b.caId);
      assert Normal(a) in s && Normal(b) in s && Corroborates(Normal(a), Normal(b));
    }
  }

  ghost predicate Disagrees(s: seq<Observation>)
    requires s != []
  {
    exists i :: 0 <= i < |s| && !SameReport(s[i], s[0])
  }

  ghost predicate SomeIncomplete(s: seq<Observation>) { exists i :: 0 <= i < |s| && !Complete(s[i]) }

  lemma MirrorAgrees(s: seq<Observation>, obs: seq<Observation>)
    requires s != [] && Mirrors(s, obs)
    ensures Disagrees(s) <==> !Agree(obs)
  {
    assert s[0] in s && FromReport(obs, s[0]);
    if Disagrees(s) {
      var i :| 0 <= i < |s| && !SameReport(s[i], s[0]);
      assert s[i] in s && FromReport(obs, s[i]);
      var a :| a in obs && s[i] == Normal(a);
      var b :| b in obs && s[0] == Normal(b);
      assert !SameReport(a, b);
    }
    if !Agree(obs) {
      var a, b :| a in obs && b in obs && !SameReport(a, b);
      var i :| 0 <= i < |s| && s[i] == Normal(a);
      var j :| 0 <= j < |s| && s[j] == Normal(b);
      assert !SameReport(s[i], s[0]) || !SameReport(s[j], s[0]);
    }
  }

  lemma MirrorComplete(s: seq<Observation>, obs: seq<Observation>)
    requires Mirrors(s, obs)
    ensures SomeIncomplete(s) <==> !AllComplete(obs)
  {
    if SomeIncomplete(s) {
      var i :| 0 <= i < |s| && !Complete(s[i]);
      assert s[i] in s && FromReport(obs, s[i]);
    }
    if !AllComplete(obs) {
      var a :| a in obs && !Complete(a);
      var i :| 0 <= i < |s| && s[i] == Normal(a);
    }
  }

  lemma MirrorStatus(s: seq<Observation>, obs: seq<Observation>)
    requires s != [] && Mirrors(s, obs)
    ensures StatusOf(s) == if !Agree(obs) || !AllComplete(obs) then Conflicting
                           else if SomeCorroborated(obs) then Confirmed else SingleSource
    ensures Independent(s) == SomeCorroborated(obs)
  {
    MirrorAgrees(s, obs);
    MirrorComplete(s, obs);
    IndependentIff(s);
    MirrorIndependence(s, obs);
    assert Disagrees(s) <==> exists i :: 0 <= i < |s| && !SameReport(s[i], s[0]);
    assert SomeIncomplete(s) <==> exists i :: 0 <= i < |s| && !Complete(s[i]);
  }

  /** A confirmation is exactly: all agree, all are complete, and two of them are from
      different sources under different ids. Disagreement and incompleteness dominate. */
  lemma StatusMeaning(obs: seq<Observation>, lead: int, trail: int)
    ensures var r := CrossValidate(obs, lead, trail);
            r.Success? ==>
              && (r.value.status == Confirmed <==> Agree(obs) && AllComplete(obs) && SomeCorroborated(obs))
              && (r.value.status == Conflicting <==> !Agree(obs) || !AllComplete(obs))
              && r.value.independent == SomeCorroborated(obs)
  {
    if obs != [] {
      SortMirrors(obs);
      MirrorStatus(Arranged(obs), obs);
    }
  }

  /** The window is the ex-date's, which all reports share, with its margins. */
  lemma WindowMeaning(obs: seq<Observation>, lead: int, trail: int, o: Observation)
    requires CrossValidate(obs, lead, trail).Success? && o in obs
    ensures var e := CrossValidate(obs, lead, trail).value;
            e.from == o.exDate - lead <= o.exDate - BLACKOUT_LEAD_DAYS && e.to == o.exDate + trail >= o.exDate + BLACKOUT_TRAIL_DAYS
  {
    var s := Arranged(obs);
    SortMirrors(obs);
    assert s[0] in s && FromReport(obs, s[0]);
    SameDates(obs, lead, trail);
  }

  lemma SameDates(obs: seq<Observation>, lead: int, trail: int)
    requires Refusal(obs, lead, trail).None?
    ensures OneGroup(obs) && forall o :: o in obs ==> ProvenanceOk(o) && DurableKey(o.durable).Some?
  {}

  /** More reports never undo a conflict, and never unmake a confirmation into a lone
      report: all that a confirmation can turn into is a conflict. */
  lemma MoreReports(few: seq<Observation>, many: seq<Observation>, lead: int, trail: int)
    requires CrossValidate(few, lead, trail).Success? && CrossValidate(many, lead, trail).Success?
    requires forall o :: o in few ==> o in many
    ensures var a, b := CrossValidate(few, lead, trail).value, CrossValidate(many, lead, trail).value;
            && (a.status == Conflicting ==> b.status == Conflicting)
            && (a.status == Confirmed ==> b.status != SingleSource)
            && a.from == b.from && a.to == b.to
  {
    StatusMeaning(few, lead, trail);
    StatusMeaning(many, lead, trail);
    assert few[0] in few;
    WindowMeaning(few, lead, trail, few[0]);
    WindowMeaning(many, lead, trail, few[0]);
    if SomeCorroborated(few) {
      var a, b :| a in few && b in few && Corroborates(a, b);
      assert a in many && b in many;
    }
  }

  // ---------------------------------------------------------------- the blackout

  /** A confirmed action blacks out its window; any other, everything from its start. */
  predicate BlackedOut(e: Event, date: int) { e.from <= date && (e.status == Confirmed ==> date <= e.to) }

  /** A blackout lifts with more reports only by a confirmation, and then only for the
      days after the window. */
  lemma LiftsOnlyByConfirmation(few: seq<Observation>, many: seq<Observation>, lead: int, trail: int, date: int)
    requires CrossValidate(few, lead, trail).Success? && CrossValidate(many, lead, trail).Success?
    requires forall o :: o in few ==> o in many
    requires BlackedOut(CrossValidate(few, lead, trail).value, date)
    requires !BlackedOut(CrossValidate(many, lead, trail).value, date)
    ensures CrossValidate(few, lead, trail).value.status == SingleSource
    ensures Agree(many) && AllComplete(many) && SomeCorroborated(many)
    ensures forall o :: o in many ==> date > o.exDate + trail
  {
    MoreReports(few, many, lead, trail);
    StatusMeaning(many, lead, trail);
    forall o | o in many ensures date > o.exDate + trail {
      WindowMeaning(many, lead, trail, o);
    }
  }

  method IsBlackedOut(events: seq<Event>, date: int) returns (out: bool)
    ensures out <==> exists e :: e in events && e.from <= date && (e.status == Confirmed ==> date <= e.to)
  {
    for i := 0 to |events|
      invariant forall j :: 0 <= j < i ==>
        !(events[j].from <= date && (events[j].status == Confirmed ==> date <= events[j].to))
    {
      assert events[i] in events;
      if events[i].status == Confirmed {
        if events[i].from <= date <= events[i].to {
          return true;
        }
      } else if date >= events[i].from {
        return true;
      }
    }
    out := false;
  }

  // ------------------------------------------------------------------- the scan

  lemma {:induction false} SortNormals(obs: seq<Observation>)
    ensures Sort(Normals(obs)) == Normals(Sort(obs))
  {
    if obs != [] {
      var n := |obs| - 1;
      SortNormals(obs[..n]);
      InsertNormals(obs[n], Sort(obs[..n]));
    }
  }

  lemma {:induction false} InsertNormals(o: Observation, s: seq<Observation>)
    ensures Insert(Normal(o), Normals(s)) == Normals(Insert(o, s))
  {
    NormalsLength(s);
    CleanIdempotent(o.caId);
    if s == [] {
      NormalsOne(o);
    } else {
      CleanIdempotent(s[0].caId);
      assert Normals(s)[1..] == Normals(s[1..]) by { NormalsLength(s[1..]); }
      assert TotalKey(Normal(o)) == TotalKey(o) && TotalKey(Normal(s[0])) == TotalKey(s[0]);
      if Before(o, s[0]) {
        NormalsConcat([o], s);
        NormalsOne(o);
      } else {
        InsertNormals(o, s[1..]);
        NormalsConcat([s[0]], Insert(o, s[1..]));
        NormalsOne(s[0]);
      }
    }
  }

  /** One scan against the first report in key order, with its two flags. */
  method Scan(s: seq<Observation>) returns (conflicting: bool, allComplete: bool)
    requires s != []
    ensures conflicting <==> exists i :: 0 <= i < |s| && !SameReport(s[i], s[0])
    ensures allComplete <==> !exists i :: 0 <= i < |s| && !Complete(s[i])
  {
    conflicting, allComplete := false, Complete(s[0]);
    for i := 1 to |s|
      invariant conflicting <==> exists j :: 0 <= j < i && !SameReport(s[j], s[0])
      invariant allComplete <==> forall j :: 0 <= j < i ==> Complete(s[j])
    {
      allComplete := allComplete && Complete(s[i]);
      if s[i].caType != s[0].caType {
        conflicting := true;
      }
      if s[i].exDate != s[0].exDate {
        conflicting := true;
      }
      if s[i].factor != s[0].factor {
        conflicting := true;
      }
      if s[i].cash != s[0].cash {
        conflicting := true;
      }
    }
  }

  method CollectProvenance(s: seq<Observation>) returns (p: seq<Provenance>)
    ensures p == Provenances(s)
  {
    p := [];
    for i := 0 to |s|
      invariant p == Provenances(s[..i])
    {
      assert s[..i + 1][..i] == s[..i];
      p := p + [Provenance(s[i].provenanceSource, Clean(s[i].caId), s[i].announced, s[i].received)];
    }
    assert s[..|s|] == s;
  }

  method Decide(s: seq<Observation>, lead: int, trail: int) returns (e: Event)
    requires s != []
    ensures e == EventOf(s, lead, trail)
  {
    var conflicting, allComplete := Scan(s);
    var independent := |SourcesOf(s)| >= MIN_INDEPENDENT_SOURCES && |CaIdsOf(s)| >= MIN_INDEPENDENT_SOURCES;
    var status := if conflicting || !allComplete then Conflicting else if independent then Confirmed else SingleSource;
    var provenance := CollectProvenance(s);
    e := Event(s[0].durable, s[0].caType, s[0].exDate, s[0].factor, s[0].cash, SourcesOf(s), provenance, status,
               independent, s[0].exDate - lead, s[0].exDate + trail);
  }

  /** As the source does it: refuse, sort the reports by their key, scan, decide. */
  method Validate(obs: seq<Observation>, lead: int, trail: int) returns (r: Result<Event, Error>)
    ensures r == CrossValidate(obs, lead, trail)
  {
    var refusal := Refusal(obs, lead, trail);
    if refusal.Some? {
      return Failure(refusal.value);
    }
    var s := Sort(obs);
    SortNormals(obs);
    var e := Decide(Normals(s), lead, trail);
    r := Success(e);
  }
}
