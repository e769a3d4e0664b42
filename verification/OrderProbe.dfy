/**
 How a reconcile settles the orders it still believes open by asking the broker
 (broker_reconcile.resolve_order_probe and the probing loops of run_reconcile).
 */
module OrderProbe {
  import opened Wrappers
  import opened ReconcileRows

  datatype LocalState = LocallyOpen | LocallyUnconfirmed | LocallyEnded(name: string)

  datatype BrokerState = Filled | Ended(name: string) | PartiallyFilled | Accepted | OtherState(name: string)

  datatype Probe = ProbeFailed | NotFound | Found(state: BrokerState, filled: real)

  /** An open order together with the broker's answer for it. */
  datatype OpenOrder = OpenOrder(
    id: string, symbol: Option<string>, local: LocalState, cumFilled: real, sessionOver: bool, probe: Probe)

  /** A symbol still to be flattened, together with the answer for its flatten order. */
  datatype Residual = Residual(symbol: string, probe: Probe)

  datatype Resolution = Resolution(orderId: string, state: string, filled: real)

  datatype Verdict = Verdict(findings: seq<NonCash>, resolutions: seq<Resolution>, defer: set<Option<string>>)

  predicate IsTerminal(state: BrokerState) { state.Filled? || state.Ended? }

  function Missed(o: OpenOrder, filled: real): seq<NonCash> {
    if filled > o.cumFilled then [FillsMissed(o.id)] else []
  }

  function ResolveOrderProbe(o: OpenOrder): Verdict {
    match o.probe
    case ProbeFailed => Verdict([], [], {o.symbol})
    case NotFound =>
      (match o.local
       case LocallyUnconfirmed =>
         if o.sessionOver then
           Verdict([OrderState(o.id, ResolvedTerminal)], [Resolution(o.id, "expired", o.cumFilled)], {})
         else Verdict([], [], {o.symbol})
       case LocallyEnded(_) => Verdict([], [], {})
       case LocallyOpen => Verdict([OrderState(o.id, LatchedOperator)], [], {o.symbol}))
    case Found(state, filled) =>
      if o.local.LocallyEnded? && !IsTerminal(state) then
        Verdict([OrderState(o.id, LatchedOperator)], [], {o.symbol})
      else
        match state
        case Filled =>
          Verdict(Missed(o, filled) + [OrderState(o.id, ResolvedTerminal)], [Resolution(o.id, "filled", filled)], {})
        case Ended(name) =>
          Verdict([OrderState(o.id, ResolvedTerminal)], [Resolution(o.id, name, filled)], {})
        case PartiallyFilled => Verdict(Missed(o, filled), [], {o.symbol})
        case Accepted => Verdict([], [], {o.symbol})
        case OtherState(_) => Verdict([], [], {o.symbol})
  }

  /** Evidence that an order can fill no further. */
  predicate Settled(o: OpenOrder) {
    || (o.probe.Found? && IsTerminal(o.probe.state))
    || (o.probe.NotFound? && o.local.LocallyUnconfirmed? && o.sessionOver)
  }

  /** An order is given a terminal row exactly on evidence, and never silently: a
      resolved order is always reported, an unresolved one keeps its symbol out of
      the comparison unless it had already ended here and the broker has no trace. */
  lemma ResolvedIffSettled(o: OpenOrder)
    ensures var v := ResolveOrderProbe(o);
            && (v.resolutions != [] <==> Settled(o))
            && (forall r :: r in v.resolutions ==> r.orderId == o.id)
            && (Settled(o) ==> v.findings != [] && v.defer == {} && OrderState(o.id, ResolvedTerminal) in v.findings)
            && (!Settled(o) ==> v.defer == {o.symbol} || (o.probe.NotFound? && o.local.LocallyEnded?))
            && (o.probe.NotFound? && o.local.LocallyOpen? ==> OrderState(o.id, LatchedOperator) in v.findings)
  {
    if o.probe.Found? && o.probe.state.Filled? {
      var v := ResolveOrderProbe(o);
      assert v.findings[|v.findings| - 1] == OrderState(o.id, ResolvedTerminal);
    }
  }

  // ------------------------------------------------------------------ the loops

  datatype Probed = Probed(completed: bool, findings: seq<NonCash>, resolutions: seq<Resolution>, defer: set<Option<string>>)

  function ProbeOrders(orders: seq<OpenOrder>): Probed {
    if orders == [] then Probed(true, [], [], {})
    else
      var p := ProbeOrders(orders[..|orders| - 1]);
      var v := ResolveOrderProbe(orders[|orders| - 1]);
      Probed(p.completed && !orders[|orders| - 1].probe.ProbeFailed?,
             p.findings + v.findings, p.resolutions + v.resolutions, p.defer + v.defer)
  }

  /** A probe reports order states and missed fills, nothing else. */
  lemma {:induction false} ProbesReportOrders(orders: seq<OpenOrder>, residuals: seq<Residual>, held: set<string>)
    ensures forall f :: f in ProbeAll(orders, residuals, held).findings ==> f.OrderState? || f.FillsMissed?
  {
    OrdersReportOrders(orders);
    ResidualsKeepFindings(ProbeOrders(orders), residuals);
  }

  lemma {:induction false} OrdersReportOrders(orders: seq<OpenOrder>)
    ensures forall f :: f in ProbeOrders(orders).findings ==> f.OrderState? || f.FillsMissed?
  {
    if orders != [] {
      OrdersReportOrders(orders[..|orders| - 1]);
    }
  }

  lemma {:induction false} ResidualsKeepFindings(p: Probed, residuals: seq<Residual>)
    ensures ProbeResiduals(p, residuals).findings == p.findings
  {
    if residuals != [] {
      ResidualsKeepFindings(p, residuals[..|residuals| - 1]);
    }
  }

  predicate FlattenOver(r: Residual) { r.probe.NotFound? || (r.probe.Found? && IsTerminal(r.probe.state)) }

  function ProbeResiduals(p: Probed, residuals: seq<Residual>): Probed {
    if residuals == [] then p
    else
      var q, r := ProbeResiduals(p, residuals[..|residuals| - 1]), residuals[|residuals| - 1];
      q.(completed := q.completed && !r.probe.ProbeFailed?,
         defer := q.defer + if FlattenOver(r) then {} else {Some(r.symbol)})
  }

  predicate IsResolved(id: string, resolutions: seq<Resolution>) {
    exists r :: r in resolutions && r.orderId == id
  }

  predicate Named(symbol: Option<string>) { symbol.Some? && symbol.value != "" }

  /** Symbols of the orders that got no terminal row. */
  function Unresolved(orders: seq<OpenOrder>, resolutions: seq<Resolution>): set<Option<string>> {
    if orders == [] then {}
    else
      var o := orders[|orders| - 1];
      Unresolved(orders[..|orders| - 1], resolutions)
      + (if !IsResolved(o.id, resolutions) && Named(o.symbol) then {o.symbol} else {})
  }

  /** Everything probed; `held` are the symbols with a task or an open-deny. */
  function ProbeAll(orders: seq<OpenOrder>, residuals: seq<Residual>, held: set<string>): Probed {
    var p := ProbeResiduals(ProbeOrders(orders), residuals);
    p.(defer := p.defer + Unresolved(orders, p.resolutions) + set s | s in held :: Some(s))
  }

  method ProbeOpenOrders(orders: seq<OpenOrder>) returns (p: Probed)
    ensures p == ProbeOrders(orders)
  {
    p := Probed(true, [], [], {});
    var i := 0;
    while i < |orders|
      invariant 0 <= i <= |orders|
      invariant p == ProbeOrders(orders[..i])
    {
      assert orders[..i + 1][..i] == orders[..i];
      var o := orders[i];
      if o.probe.ProbeFailed? {
        p := p.(completed := false, defer := p.defer + {o.symbol});
        assert p.findings + [] == p.findings && p.resolutions + [] == p.resolutions;
      } else {
        var v := ResolveOrderProbe(o);
        p := Probed(p.completed, p.findings + v.findings, p.resolutions + v.resolutions, p.defer + v.defer);
      }
      i := i + 1;
    }
    assert orders[..|orders|] == orders;
  }

  method ProbeEverything(orders: seq<OpenOrder>, residuals: seq<Residual>, held: set<string>) returns (p: Probed)
    ensures p == ProbeAll(orders, residuals, held)
  {
    p := ProbeOpenOrders(orders);
    ghost var p0 := p;
    var i := 0;
    while i < |residuals|
      invariant 0 <= i <= |residuals|
      invariant p == ProbeResiduals(p0, residuals[..i])
    {
      assert residuals[..i + 1][..i] == residuals[..i];
      var r := residuals[i];
      if r.probe.ProbeFailed? {
        p := p.(completed := false, defer := p.defer + {Some(r.symbol)});
      } else if !FlattenOver(r) {
        p := p.(defer := p.defer + {Some(r.symbol)});
      }
      i := i + 1;
    }
    assert residuals[..|residuals|] == residuals;
    var unresolved: set<Option<string>> := {};
    i := 0;
    while i < |orders|
      invariant 0 <= i <= |orders|
      invariant unresolved == Unresolved(orders[..i], p.resolutions)
    {
      assert orders[..i + 1][..i] == orders[..i];
      if !IsResolved(orders[i].id, p.resolutions) && Named(orders[i].symbol) {
        unresolved := unresolved + {orders[i].symbol};
      }
      i := i + 1;
    }
    assert orders[..|orders|] == orders;
    p := p.(defer := p.defer + unresolved + set s | s in held :: Some(s));
  }

  // ---------------------------------------------------------- what quiet means

  lemma {:induction false} OrdersResolved(orders: seq<OpenOrder>)
    ensures var p := ProbeOrders(orders);
            && (p.defer == {} ==> p.completed)
            && (forall r :: r in p.resolutions ==> exists o :: o in orders && o.id == r.orderId && Settled(o))
  {
    if orders != [] {
      var o := orders[|orders| - 1];
      OrdersResolved(orders[..|orders| - 1]);
      ResolvedIffSettled(o);
      assert forall r :: r in ResolveOrderProbe(o).resolutions ==> o in orders && o.id == r.orderId && Settled(o);
    }
  }

  lemma {:induction false} ResidualsOver(p: Probed, residuals: seq<Residual>)
    ensures var q := ProbeResiduals(p, residuals);
            && q.resolutions == p.resolutions && q.findings == p.findings && p.defer <= q.defer
            && (q.defer == {} ==> forall r :: r in residuals ==> FlattenOver(r))
            && (q.defer == {} ==> q.completed == p.completed)
  {
    if residuals != [] {
      var r := residuals[|residuals| - 1];
      ResidualsOver(p, residuals[..|residuals| - 1]);
      var q := ProbeResiduals(p, residuals);
      assert !FlattenOver(r) ==> Some(r.symbol) in q.defer;
    }
  }

  lemma {:induction false} NoneUnresolved(orders: seq<OpenOrder>, resolutions: seq<Resolution>)
    ensures Unresolved(orders, resolutions) == {} <==>
              forall o :: o in orders && Named(o.symbol) ==> IsResolved(o.id, resolutions)
  {
    if orders != [] {
      var o := orders[|orders| - 1];
      NoneUnresolved(orders[..|orders| - 1], resolutions);
      assert !IsResolved(o.id, resolutions) && Named(o.symbol) ==> o.symbol in Unresolved(orders, resolutions);
    }
  }

  /** Cash is only ever compared on a quiet account: when nothing defers, the probing
      completed, nothing is held, every order with a symbol can fill no further and
      every flatten order is over. */
  lemma QuietMeansSettled(orders: seq<OpenOrder>, residuals: seq<Residual>, held: set<string>)
    requires forall i, j :: 0 <= i < |orders| && 0 <= j < |orders| && orders[i].id == orders[j].id ==> i == j
    requires ProbeAll(orders, residuals, held).defer == {}
    ensures ProbeAll(orders, residuals, held).completed
    ensures held == {}
    ensures forall o :: o in orders && Named(o.symbol) ==> Settled(o)
    ensures forall r :: r in residuals ==> FlattenOver(r)
  {
    QuietMeansCompleted(orders, residuals, held);
    var p := ProbeResiduals(ProbeOrders(orders), residuals);
    OrdersResolved(orders);
    ResidualsOver(ProbeOrders(orders), residuals);
    NoneUnresolved(orders, p.resolutions);
    forall o | o in orders && Named(o.symbol) ensures Settled(o) {
      var r :| r in p.resolutions && r.orderId == o.id;
      var q :| q in orders && q.id == r.orderId && Settled(q);
    }
  }

  lemma QuietMeansCompleted(orders: seq<OpenOrder>, residuals: seq<Residual>, held: set<string>)
    requires ProbeAll(orders, residuals, held).defer == {}
    ensures ProbeAll(orders, residuals, held).completed
    ensures held == {}
    ensures ProbeResiduals(ProbeOrders(orders), residuals).defer == {}
    ensures Unresolved(orders, ProbeOrders(orders).resolutions) == {}
  {
    OrdersResolved(orders);
    ResidualsOver(ProbeOrders(orders), residuals);
    var all := ProbeAll(orders, residuals, held);
    assert forall s :: s in held ==> Some(s) in all.defer;
    assert held == {};
    assert ProbeResiduals(ProbeOrders(orders), residuals).defer <= all.defer;
    assert Unresolved(orders, ProbeOrders(orders).resolutions) <= all.defer;
  }

  // ----------------------------------------------------- what probing comes to, exactly

  ghost predicate BrokerDone(p: Probe) {
    p.Found? && match p.state case Filled => true case Ended(_) => true case _ => false
  }

  /** A locally ended order that the broker still works on, or an open one that the
      broker has no trace of. */
  ghost predicate Contradicts(o: OpenOrder) {
    || (o.probe.NotFound? && o.local.LocallyOpen?)
    || (o.probe.Found? && !BrokerDone(o.probe) && o.local.LocallyEnded?)
  }

  ghost predicate MissesFills(o: OpenOrder) {
    && o.probe.Found? && o.probe.filled > o.cumFilled && !Contradicts(o)
    && (o.probe.state.Filled? || o.probe.state.PartiallyFilled?)
  }

  /** The one row an order is resolved with: the broker's end state and fill, or an
      expiry at what was known. */
  ghost function RowOf(o: OpenOrder): Resolution
    requires Settled(o)
  {
    match o.probe
    case Found(Filled, filled) => Resolution(o.id, "filled", filled)
    case Found(Ended(name), filled) => Resolution(o.id, name, filled)
    case _ => Resolution(o.id, "expired", o.cumFilled)
  }

  lemma SettledIff(o: OpenOrder)
    ensures Settled(o) <==> BrokerDone(o.probe) || (o.probe.NotFound? && o.local == LocallyUnconfirmed && o.sessionOver)
  {}

  /** Every order is resolved, reported and deferred exactly as it should be. */
  lemma VerdictIff(o: OpenOrder)
    ensures var v := ResolveOrderProbe(o);
            && v.resolutions == (if Settled(o) then [RowOf(o)] else [])
            && (forall f :: f in v.findings <==>
                  || (f == FillsMissed(o.id) && MissesFills(o))
                  || (f == OrderState(o.id, ResolvedTerminal) && Settled(o))
                  || (f == OrderState(o.id, LatchedOperator) && Contradicts(o)))
            && v.defer == (if Settled(o) || (o.probe.NotFound? && o.local.LocallyEnded?) then {} else {o.symbol})
  {
    SettledIff(o);
    if o.probe.Found? && o.probe.state.Filled? && o.probe.filled > o.cumFilled {
      var v := ResolveOrderProbe(o);
      assert v.findings == [FillsMissed(o.id), OrderState(o.id, ResolvedTerminal)];
    } else if o.probe.Found? && o.probe.state.Filled? {
      assert ResolveOrderProbe(o).findings == [OrderState(o.id, ResolvedTerminal)];
    }
  }

  lemma {:induction false} ProbeOrdersIff(orders: seq<OpenOrder>)
    ensures var p := ProbeOrders(orders);
            && (p.completed <==> forall o :: o in orders ==> !o.probe.ProbeFailed?)
            && (forall f :: f in p.findings <==> exists o :: o in orders && f in ResolveOrderProbe(o).findings)
            && (forall r :: r in p.resolutions <==> exists o :: o in orders && r in ResolveOrderProbe(o).resolutions)
            && (forall x :: x in p.defer <==> exists o :: o in orders && x in ResolveOrderProbe(o).defer)
  {
    if orders != [] {
      var front, o := orders[..|orders| - 1], orders[|orders| - 1];
      ProbeOrdersIff(front);
      assert orders == front + [o];
      assert forall q :: q in orders <==> q in front || q == o;
    }
  }

  lemma {:induction false} ResidualsIff(p: Probed, residuals: seq<Residual>)
    ensures var q := ProbeResiduals(p, residuals);
            && q.findings == p.findings && q.resolutions == p.resolutions
            && (q.completed <==> p.completed && forall r :: r in residuals ==> !r.probe.ProbeFailed?)
            && (forall x :: x in q.defer <==>
                  x in p.defer || exists r :: r in residuals && Some(r.symbol) == x && !(r.probe.NotFound? || BrokerDone(r.probe)))
  {
    if residuals != [] {
      var front, r := residuals[..|residuals| - 1], residuals[|residuals| - 1];
      ResidualsIff(p, front);
      assert residuals == front + [r];
      assert forall q :: q in residuals <==> q in front || q == r;
      assert FlattenOver(r) <==> r.probe.NotFound? || BrokerDone(r.probe);
    }
  }

  lemma {:induction false} UnresolvedIff(orders: seq<OpenOrder>, resolutions: seq<Resolution>)
    ensures forall x :: x in Unresolved(orders, resolutions) <==>
              exists o :: o in orders && x == o.symbol && x.Some? && x.value != "" && !IsResolved(o.id, resolutions)
  {
    if orders != [] {
      var front, o := orders[..|orders| - 1], orders[|orders| - 1];
      UnresolvedIff(front, resolutions);
      assert orders == front + [o];
      assert forall q :: q in orders <==> q in front || q == o;
    }
  }

  /** The probing as a whole: complete exactly if no answer failed; its findings and rows
      are those of the orders; and a symbol is deferred for an order that says so or got
      no row, a flatten order that is not over, or because it is held. */
  lemma ProbeAllIff(orders: seq<OpenOrder>, residuals: seq<Residual>, held: set<string>)
    ensures var p := ProbeAll(orders, residuals, held);
            && (p.completed <==>
                  (forall o :: o in orders ==> !o.probe.ProbeFailed?) && forall r :: r in residuals ==> !r.probe.ProbeFailed?)
            && (forall f :: f in p.findings <==> exists o :: o in orders && f in ResolveOrderProbe(o).findings)
            && (forall r :: r in p.resolutions <==> exists o :: o in orders && r in ResolveOrderProbe(o).resolutions)
            && (forall x :: x in p.defer <==>
                  || (exists o :: o in orders && x in ResolveOrderProbe(o).defer)
                  || (exists r :: r in residuals && Some(r.symbol) == x && !(r.probe.NotFound? || BrokerDone(r.probe)))
                  || (exists o :: o in orders && x == o.symbol && x.Some? && x.value != "" && !IsResolved(o.id, p.resolutions))
                  || (x.Some? && x.value in held))
  {
    ProbeOrdersIff(orders);
    ResidualsIff(ProbeOrders(orders), residuals);
    UnresolvedIff(orders, ProbeOrders(orders).resolutions);
  }
}
