/**
 What a validated corporate-action event says, field by field, in terms of the reports
 it was made from (corporate_actions.cross_validate), and why a set of reports is
 refused.
 */
module CorporateEvents {
  import opened Wrappers
  import opened CorporateActions

  // ------------------------------------------------------------------- the order

  /** Texts are compared character by character, a prefix coming first. */
  ghost predicate FirstDiffers(a: string, b: string, k: int) {
    0 <= k < |a| && k < |b| && a[..k] == b[..k] && a[k] < b[k]
  }

  lemma {:induction false} LeqMeaning(a: string, b: string)
    ensures Leq(a, b) <==> a <= b || exists k :: FirstDiffers(a, b, k)
  {
    if a != [] && b != [] {
      LeqMeaning(a[1..], b[1..]);
      if k :| FirstDiffers(a, b, k) {
        if k > 0 {
          assert a[..k][0] == a[0] && b[..k][0] == b[0];
          assert a[1..][..k - 1] == a[..k][1..] && b[1..][..k - 1] == b[..k][1..];
          assert FirstDiffers(a[1..], b[1..], k - 1);
        }
      }
      if a[0] < b[0] {
        assert FirstDiffers(a, b, 0);
      } else if a[0] == b[0] && Leq(a, b) {
        if k :| FirstDiffers(a[1..], b[1..], k) {
          assert a[..k + 1] == [a[0]] + a[1..][..k] && b[..k + 1] == [b[0]] + b[1..][..k];
          assert FirstDiffers(a, b, k + 1);
        } else {
          assert a == [a[0]] + a[1..] && b == [b[0]] + b[1..];
        }
      }
    }
  }

  /** The first component that differs decides. */
  lemma KeyLeqHead(a: seq<string>, b: seq<string>)
    requires a != [] && b != []
    ensures KeyLeq(a, b) <==> if a[0] == b[0] then KeyLeq(a[1..], b[1..]) else Leq(a[0], b[0])
  {}

  /** Source before id, id before type, type before amounts, amounts before identifiers,
      those before the ticker and the times; a missing text counts as empty. */
  ghost predicate Precedes(a: Observation, b: Observation) {
    if a.provenanceSource != b.provenanceSource then a.provenanceSource.Alpaca?
    else if Clean(a.caId) != Clean(b.caId) then Leq(Clean(a.caId), Clean(b.caId))
    else if a.caType != b.caType then Leq(TypeName(a.caType), TypeName(b.caType))
    else if OrEmpty(a.factor) != OrEmpty(b.factor) then Leq(OrEmpty(a.factor), OrEmpty(b.factor))
    else if OrEmpty(a.cash) != OrEmpty(b.cash) then Leq(OrEmpty(a.cash), OrEmpty(b.cash))
    else if OrEmpty(a.durable.cusip) != OrEmpty(b.durable.cusip) then Leq(OrEmpty(a.durable.cusip), OrEmpty(b.durable.cusip))
    else if OrEmpty(a.durable.figi) != OrEmpty(b.durable.figi) then Leq(OrEmpty(a.durable.figi), OrEmpty(b.durable.figi))
    else if a.durable.ticker != b.durable.ticker then Leq(a.durable.ticker, b.durable.ticker)
    else if a.announced != b.announced then Leq(a.announced, b.announced)
    else Leq(a.received, b.received)
  }

  lemma SourcesInOrder(a: Source, b: Source)
    requires a != b
    ensures Leq(SourceName(a), SourceName(b)) <==> a.Alpaca?
  {
    assert SourceName(Alpaca)[0] == 'a' && SourceName(DataVendor)[0] == 'd';
  }

  /** From the `k`-th component of the keys on. */
  lemma KeyTail(a: seq<string>, b: seq<string>, k: nat)
    requires k < |a| == |b|
    ensures KeyLeq(a[k..], b[k..]) <==> if a[k] == b[k] then KeyLeq(a[k + 1..], b[k + 1..]) else Leq(a[k], b[k])
  {
    assert a[k..][1..] == a[k + 1..] && b[k..][1..] == b[k + 1..];
    KeyLeqHead(a[k..], b[k..]);
  }

  /** The components from the `k`-th on, compared one after the other. */
  ghost predicate Cascade(x: seq<string>, y: seq<string>, k: nat)
    requires k < |x| == |y|
    decreases |x| - k
  {
    if x[k] != y[k] || k == |x| - 1 then Leq(x[k], y[k]) else Cascade(x, y, k + 1)
  }

  lemma {:induction false} KeyCascade(x: seq<string>, y: seq<string>, k: nat)
    requires k < |x| == |y|
    ensures KeyLeq(x[k..], y[k..]) <==> Cascade(x, y, k)
    decreases |x| - k
  {
    KeyTail(x, y, k);
    LeqOrder(x[k], y[k]);
    if k < |x| - 1 {
      KeyCascade(x, y, k + 1);
    }
  }

  lemma BeforeIff(a: Observation, b: Observation)
    ensures Before(a, b) <==> Precedes(a, b)
  {
    var x, y := TotalKey(a), TotalKey(b);
    assert x[0..] == x && y[0..] == y;
    KeyCascade(x, y, 0);
    if a.provenanceSource != b.provenanceSource {
      SourcesInOrder(a.provenanceSource, b.provenanceSource);
      if SourceName(a.provenanceSource) == SourceName(b.provenanceSource) {
        SourceNames(a.provenanceSource, b.provenanceSource);
      }
    } else {
      if a.caType != b.caType && TypeName(a.caType) == TypeName(b.caType) {
        TypeNames(a.caType, b.caType);
      }
      assert Cascade(x, y, 0) <==> Cascade(x, y, 1);
      FromTheId(a, b);
    }
  }

  lemma FromTheId(a: Observation, b: Observation)
    requires a.provenanceSource == b.provenanceSource
    requires a.caType == b.caType || TypeName(a.caType) != TypeName(b.caType)
    ensures Cascade(TotalKey(a), TotalKey(b), 1) <==> Precedes(a, b)
  {
    var x, y := TotalKey(a), TotalKey(b);
    assert Cascade(x, y, 1) <==> if x[1] != y[1] then Leq(x[1], y[1]) else Cascade(x, y, 2);
    assert Cascade(x, y, 2) <==> if x[2] != y[2] then Leq(x[2], y[2]) else Cascade(x, y, 3);
    assert Cascade(x, y, 3) <==> if x[3] != y[3] then Leq(x[3], y[3]) else Cascade(x, y, 4);
    assert Cascade(x, y, 4) <==> if x[4] != y[4] then Leq(x[4], y[4]) else Cascade(x, y, 5);
    assert Cascade(x, y, 5) <==> if x[5] != y[5] then Leq(x[5], y[5]) else Cascade(x, y, 6);
    assert Cascade(x, y, 6) <==> if x[6] != y[6] then Leq(x[6], y[6]) else Cascade(x, y, 7);
    assert Cascade(x, y, 7) <==> if x[7] != y[7] then Leq(x[7], y[7]) else Cascade(x, y, 8);
    assert Cascade(x, y, 8) <==> if x[8] != y[8] then Leq(x[8], y[8]) else Cascade(x, y, 9);
    assert Cascade(x, y, 9) <==> Leq(x[9], y[9]);
  }

  // ---------------------------------------------------------------- the ids' text

  ghost predicate Whitespace(code: int) {
    9 <= code <= 13 || 28 <= code <= 32 || code == 133 || code == 160
  }

  lemma BlankIff(c: char)
    ensures Blank(c) <==> Whitespace(c as int)
  {}

  ghost predicate AllBlank(s: string) { forall i :: 0 <= i < |s| ==> Whitespace(s[i] as int) }

  lemma {:induction false} StripLeftMeaning(s: string) returns (a: string)
    ensures s == a + StripLeft(s) && AllBlank(a)
  {
    if s != [] && Blank(s[0]) {
      BlankIff(s[0]);
      var tail := s[1..];
      var b := StripLeftMeaning(tail);
      a := [s[0]] + b;
      assert s == [s[0]] + tail;
      assert a + StripLeft(tail) == [s[0]] + (b + StripLeft(tail));
    } else {
      a := [];
    }
  }

  lemma {:induction false} StripRightMeaning(s: string) returns (b: string)
    ensures s == StripRight(s) + b && AllBlank(b)
  {
    if s != [] && Blank(s[|s| - 1]) {
      BlankIff(s[|s| - 1]);
      var front := s[..|s| - 1];
      var c := StripRightMeaning(front);
      b := c + [s[|s| - 1]];
      assert s == front + [s[|s| - 1]];
      assert StripRight(front) + b == (StripRight(front) + c) + [s[|s| - 1]];
    } else {
      b := [];
    }
  }

  ghost predicate Around(s: string, a: string, core: string, b: string) {
    s == a + core + b && AllBlank(a) && AllBlank(b)
  }

  /** An id is what is left between the blanks around it, and begins and ends with none. */
  lemma CleanMeaning(s: string)
    ensures exists a, b :: Around(s, a, Clean(s), b)
    ensures Clean(s) != "" ==> !Whitespace(Clean(s)[0] as int) && !Whitespace(Clean(s)[|Clean(s)| - 1] as int)
  {
    var a := StripLeftMeaning(s);
    var b := StripRightMeaning(StripLeft(s));
    assert Around(s, a, Clean(s), b);
    CleanEnds(s);
    if Clean(s) != "" {
      BlankIff(Clean(s)[0]);
      BlankIff(Clean(s)[|Clean(s)| - 1]);
    }
  }

  lemma CleanEnds(s: string)
    ensures Clean(s) != "" ==> !Blank(Clean(s)[0]) && !Blank(Clean(s)[|Clean(s)| - 1])
  {
    StripLeftShape(s);
    StripRightShape(StripLeft(s));
  }

  // ------------------------------------------------------------------ the refusals

  /** A set of reports is validated exactly if the windows are no narrower than a day,
      there is a report, every report's source is that of its provenance and its id not
      blank, every security is durably identified, and all are of one security and date. */
  lemma ValidatedIff(obs: seq<Observation>, lead: int, trail: int)
    ensures CrossValidate(obs, lead, trail).Success? <==>
              && lead >= 1 && trail >= 1 && obs != []
              && (forall o :: o in obs ==> o.source == o.provenanceSource && Clean(o.caId) != "")
              && (forall o :: o in obs ==> o.durable.figi.Some? || o.durable.cusip.Some?)
              && (forall a, b :: a in obs && b in obs ==>
                    && a.exDate == b.exDate
                    && (if a.durable.figi.Some? then a.durable.figi else a.durable.cusip)
                       == (if b.durable.figi.Some? then b.durable.figi else b.durable.cusip))
  {
    if obs != [] && !OneGroup(obs) {
      var a, b :| a in obs && b in obs && !(DurableKey(a.durable) == DurableKey(b.durable) && a.exDate == b.exDate);
    }
  }

  // ------------------------------------------------------------------- the event

  /** `f` comes first among the reports. */
  ghost predicate First(obs: seq<Observation>, f: Observation) {
    f in obs && forall o :: o in obs ==> Before(f, o)
  }

  /** The same reports, first to last. */
  ghost predicate InKeyOrder(obs: seq<Observation>, s: seq<Observation>) {
    multiset(s) == multiset(obs) && forall i, j :: 0 <= i < j < |s| ==> Before(s[i], s[j])
  }

  /** Where and when each report came from. */
  ghost predicate Tells(provenance: seq<Provenance>, s: seq<Observation>) {
    && |provenance| == |s|
    && forall i :: 0 <= i < |s| ==>
         provenance[i] == Provenance(s[i].provenanceSource, Clean(s[i].caId), s[i].announced, s[i].received)
  }

  /** An event has what the first report in key order says, the sources of all, and the
      provenance of each in that order, its id without the blanks around it. */
  lemma EventMeaning(obs: seq<Observation>, lead: int, trail: int)
    requires CrossValidate(obs, lead, trail).Success?
    ensures var e := CrossValidate(obs, lead, trail).value;
            && (exists f :: First(obs, f) && (e.durable, e.caType, e.exDate, e.factor, e.cash)
                                             == (f.durable, f.caType, f.exDate, f.factor, f.cash))
            && (forall x :: x in e.sources <==> exists o :: o in obs && o.source == x)
            && exists s :: InKeyOrder(obs, s) && Tells(e.provenance, s)
  {
    var s := Sort(obs);
    SortNormals(obs);
    SortSorts(obs);
    assert |multiset(s)| == |s| && |multiset(obs)| == |obs|;
    NormalsLength(s);
    assert s[0] in multiset(obs);
    forall o | o in obs ensures Before(s[0], o) {
      assert o in multiset(s);
      KeyLeqOrder(TotalKey(s[0]), TotalKey(s[0]));
    }
    assert First(obs, s[0]);
    ProvenancesMeaning(Normals(s));
    forall i | 0 <= i < |s| ensures Clean(Normals(s)[i].caId) == Clean(s[i].caId) {
      CleanIdempotent(s[i].caId);
    }
    assert InKeyOrder(obs, s) && Tells(Provenances(Normals(s)), s);
    SourcesMeaning(obs, lead, trail);
  }

  lemma SourcesMeaning(obs: seq<Observation>, lead: int, trail: int)
    requires CrossValidate(obs, lead, trail).Success?
    ensures forall x :: x in CrossValidate(obs, lead, trail).value.sources <==> exists o :: o in obs && o.source == x
  {
    SortMirrors(obs);
    var s := Sort(Normals(obs));
    forall x ensures x in SourcesOf(s) <==> exists o :: o in obs && o.source == x {
      if x in SourcesOf(s) {
        var n :| n in s && n.source == x;
        assert FromReport(obs, n);
      }
      if o :| o in obs && o.source == x {
        assert Normal(o) in s && Normal(o).source == x;
      }
    }
  }

  lemma {:induction false} ProvenancesMeaning(s: seq<Observation>)
    ensures Tells(Provenances(s), s)
  {
    if s != [] {
      ProvenancesMeaning(s[..|s| - 1]);
    }
  }

  // ------------------------------------------------------- why a set is refused

  ghost predicate SomeBadProvenance(obs: seq<Observation>) {
    exists o :: o in obs && (o.source != o.provenanceSource || Clean(o.caId) == "")
  }

  ghost predicate SomeNotDurable(obs: seq<Observation>) {
    exists o :: o in obs && o.durable.figi.None? && o.durable.cusip.None?
  }

  /** The first fault in this order is the one that is reported. */
  lemma RefusedFor(obs: seq<Observation>, lead: int, trail: int)
    requires CrossValidate(obs, lead, trail).Failure?
    ensures CrossValidate(obs, lead, trail).error ==
              if lead < 1 || trail < 1 then WindowShrunk
              else if obs == [] then NothingToValidate
              else if SomeBadProvenance(obs) then BadProvenance
              else if SomeNotDurable(obs) then NotDurable
              else MixedGroups
  {}

  // -------------------------------------------------------------------- the status

  /** The same kind of action, day and amounts. */
  ghost predicate SaysTheSame(a: Observation, b: Observation) {
    (a.caType, a.exDate, a.factor, a.cash) == (b.caType, b.exDate, b.factor, b.cash)
  }

  /** A split comes with a factor and a dividend with an amount. */
  ghost predicate SaysEnough(o: Observation) {
    match o.caType
    case Split => o.factor.Some?
    case ReverseSplit => o.factor.Some?
    case Dividend => o.cash.Some?
    case SpecialDividend => o.cash.Some?
    case _ => true
  }

  /** An event is confirmed exactly if all reports say the same and say enough, and two
      differ in source and id; conflicting exactly if not all say the same or enough. */
  lemma ConfirmedIff(obs: seq<Observation>, lead: int, trail: int)
    requires CrossValidate(obs, lead, trail).Success?
    ensures var status := CrossValidate(obs, lead, trail).value.status;
            var settled := (forall a, b :: a in obs && b in obs ==> SaysTheSame(a, b))
                           && (forall o :: o in obs ==> SaysEnough(o));
            && (status == Confirmed <==>
                  settled && exists a, b :: a in obs && b in obs && a.source != b.source && Clean(a.caId) != Clean(b.caId))
            && (status == Conflicting <==> !settled)
  {
    StatusMeaning(obs, lead, trail);
    forall a, b ensures SaysTheSame(a, b) <==> SameReport(a, b) {}
    forall o ensures SaysEnough(o) <==> Complete(o) {}
    assert SomeCorroborated(obs) <==>
           exists a, b :: a in obs && b in obs && a.source != b.source && Clean(a.caId) != Clean(b.caId) by {
      if SomeCorroborated(obs) {
        var a, b :| a in obs && b in obs && Corroborates(a, b);
      }
      if a, b :| a in obs && b in obs && a.source != b.source && Clean(a.caId) != Clean(b.caId) {
        assert Corroborates(a, b);
      }
    }
  }

  // ------------------------------------------------------------------ the blackout

  /** A day is blacked out by an event from `lead` days before its ex-date on; and only a
      confirmation ends that, `trail` days after it. */
  lemma BlackoutMeaning(obs: seq<Observation>, lead: int, trail: int, o: Observation, date: int)
    requires CrossValidate(obs, lead, trail).Success? && o in obs
    ensures var e := CrossValidate(obs, lead, trail).value;
            BlackedOut(e, date) <==> date >= o.exDate - lead && (date <= o.exDate + trail || e.status != Confirmed)
  {
    WindowMeaning(obs, lead, trail, o);
  }
}
