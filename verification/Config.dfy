/**
 Tighten-only overlays (config.py) and the run gates that read the merged tree
 (gates.py). Numbers are reals: a merge that keeps 2 where another keeps 2.0 is
 the same here, as it is for Python's ==.
 */
module Config {
  import opened Wrappers

  datatype Tree =
    | Dict(entries: map<string, Tree>)
    | Flag(on: bool)
    | Number(n: real)
    | Text(s: string)      // strings, lists, null: everything no overlay can change

  function Min(a: real, b: real): real { if b < a then b else a }

  function TightenOnlyMerge(base: Tree, overlay: Tree): Tree
    decreases base
  {
    match (base, overlay)
    case (Dict(es), Dict(os)) =>
      Dict(map k | k in es :: if k in os then TightenOnlyMerge(es[k], os[k]) else es[k])
    case (Flag(a), Flag(b)) => Flag(a && b)
    case (Number(a), Number(b)) => Number(Min(a, b))
    case _ => base
  }

  /** `a` is the tree `b` with some flags turned off and some numbers lowered, and
      nothing else. */
  ghost predicate AtMost(a: Tree, b: Tree)
    decreases b
  {
    match (a, b)
    case (Dict(es), Dict(fs)) => es.Keys == fs.Keys && forall k :: k in fs ==> AtMost(es[k], fs[k])
    case (Flag(x), Flag(y)) => x ==> y
    case (Number(x), Number(y)) => x <= y
    case _ => a == b
  }

  lemma {:induction false} AtMostReflexive(a: Tree)
    ensures AtMost(a, a)
    decreases a
  {
    if a.Dict? {
      forall k | k in a.entries ensures AtMost(a.entries[k], a.entries[k]) {
        AtMostReflexive(a.entries[k]);
      }
    }
  }

  lemma {:induction false} AtMostTransitive(a: Tree, b: Tree, c: Tree)
    requires AtMost(a, b) && AtMost(b, c)
    ensures AtMost(a, c)
    decreases c
  {
    if c.Dict? {
      forall k | k in c.entries ensures AtMost(a.entries[k], c.entries[k]) {
        AtMostTransitive(a.entries[k], b.entries[k], c.entries[k]);
      }
    }
  }

  lemma {:induction false} AtMostAntisymmetric(a: Tree, b: Tree)
    requires AtMost(a, b) && AtMost(b, a)
    ensures a == b
    decreases b
  {
    if b.Dict? {
      forall k | k in b.entries ensures a.entries[k] == b.entries[k] {
        AtMostAntisymmetric(a.entries[k], b.entries[k]);
      }
      assert a.entries == b.entries;
    }
  }

  /** An overlay never raises a number, turns a flag on, or adds or drops a key. */
  lemma {:induction false} MergeTightens(base: Tree, overlay: Tree)
    ensures AtMost(TightenOnlyMerge(base, overlay), base)
    decreases base
  {
    AtMostReflexive(base);
    if base.Dict? && overlay.Dict? {
      forall k | k in base.entries
        ensures AtMost(TightenOnlyMerge(base, overlay).entries[k], base.entries[k])
      {
        if k in overlay.entries {
          MergeTightens(base.entries[k], overlay.entries[k]);
        } else {
          AtMostReflexive(base.entries[k]);
        }
      }
    }
  }

  lemma {:induction false} MergesCommute(base: Tree, o: Tree, p: Tree)
    ensures TightenOnlyMerge(TightenOnlyMerge(base, o), p) == TightenOnlyMerge(TightenOnlyMerge(base, p), o)
    decreases base
  {
    if base.Dict? && o.Dict? && p.Dict? {
      var op := TightenOnlyMerge(TightenOnlyMerge(base, o), p);
      var po := TightenOnlyMerge(TightenOnlyMerge(base, p), o);
      forall k | k in base.entries ensures op.entries[k] == po.entries[k] {
        if k in o.entries && k in p.entries {
          MergesCommute(base.entries[k], o.entries[k], p.entries[k]);
        }
      }
      assert op.entries == po.entries;
    }
  }

  lemma {:induction false} MergeIdempotent(base: Tree, o: Tree)
    ensures TightenOnlyMerge(TightenOnlyMerge(base, o), o) == TightenOnlyMerge(base, o)
    decreases base
  {
    if base.Dict? && o.Dict? {
      var once := TightenOnlyMerge(base, o);
      var twice := TightenOnlyMerge(once, o);
      forall k | k in base.entries ensures twice.entries[k] == once.entries[k] {
        if k in o.entries {
          MergeIdempotent(base.entries[k], o.entries[k]);
        }
      }
      assert twice.entries == once.entries;
    }
  }

  /** Wherever the two trees meet, `t` is no looser than the overlay: keys of one alone
      and kinds that differ say nothing. */
  ghost predicate Within(t: Tree, overlay: Tree)
    decreases overlay
  {
    match (t, overlay)
    case (Dict(es), Dict(os)) => forall k :: k in os && k in es ==> Within(es[k], os[k])
    case (Flag(x), Flag(y)) => x ==> y
    case (Number(x), Number(y)) => x <= y
    case _ => true
  }

  /** A tree is at most the merge exactly if it is the base tightened and keeps within
      the overlay. */
  lemma {:induction false} AtMostMergeIff(base: Tree, overlay: Tree, t: Tree)
    ensures AtMost(t, TightenOnlyMerge(base, overlay)) <==> AtMost(t, base) && Within(t, overlay)
    decreases base
  {
    if base.Dict? && overlay.Dict? && t.Dict? && t.entries.Keys == base.entries.Keys {
      forall k | k in base.entries && k in overlay.entries
        ensures AtMost(t.entries[k], TightenOnlyMerge(base, overlay).entries[k])
                <==> AtMost(t.entries[k], base.entries[k]) && Within(t.entries[k], overlay.entries[k])
      {
        AtMostMergeIff(base.entries[k], overlay.entries[k], t.entries[k]);
      }
      assert TightenOnlyMerge(base, overlay).entries.Keys == base.entries.Keys;
    }
  }

  /** The base tightened, within the overlay, and no looser tree is. */
  ghost predicate Loosest(u: Tree, base: Tree, overlay: Tree) {
    && AtMost(u, base) && Within(u, overlay)
    && forall t :: AtMost(t, base) && Within(t, overlay) ==> AtMost(t, u)
  }

  /** The merge is the loosest of those trees, and the only one that is. */
  lemma MergeIsLoosest(base: Tree, overlay: Tree, u: Tree)
    ensures Loosest(u, base, overlay) <==> u == TightenOnlyMerge(base, overlay)
  {
    var merge := TightenOnlyMerge(base, overlay);
    AtMostReflexive(merge);
    AtMostMergeIff(base, overlay, merge);
    forall t ensures AtMost(t, merge) <==> AtMost(t, base) && Within(t, overlay) {
      AtMostMergeIff(base, overlay, t);
    }
    if Loosest(u, base, overlay) {
      AtMostAntisymmetric(u, merge);
    }
  }

  // --------------------------------------------------------- lists of overlays

  function MergeAll(base: Tree, overlays: seq<Tree>): Tree
    decreases overlays
  {
    if overlays == [] then base
    else MergeAll(TightenOnlyMerge(base, overlays[0]), overlays[1..])
  }

  lemma {:induction false} MergeAllTightens(base: Tree, overlays: seq<Tree>)
    ensures AtMost(MergeAll(base, overlays), base)
    decreases overlays
  {
    if overlays == [] {
      AtMostReflexive(base);
    } else {
      var first := TightenOnlyMerge(base, overlays[0]);
      MergeAllTightens(first, overlays[1..]);
      MergeTightens(base, overlays[0]);
      AtMostTransitive(MergeAll(base, overlays), first, base);
    }
  }

  /** Any overlay of the list may as well come first. */
  lemma {:induction false} PullToFront(base: Tree, before: seq<Tree>, o: Tree, after: seq<Tree>)
    ensures MergeAll(base, before + [o] + after) == MergeAll(TightenOnlyMerge(base, o), before + after)
    decreases before
  {
    var whole := before + [o] + after;
    if before == [] {
      assert whole[1..] == after && before + after == after;
    } else {
      assert whole[1..] == before[1..] + [o] + after;
      assert (before + after)[1..] == before[1..] + after;
      PullToFront(TightenOnlyMerge(base, before[0]), before[1..], o, after);
      MergesCommute(base, before[0], o);
    }
  }

  lemma WithoutOne(xs: seq<Tree>, ys: seq<Tree>, i: nat)
    requires xs != [] && i < |ys| && ys[i] == xs[0]
    requires multiset(xs) == multiset(ys)
    ensures multiset(xs[1..]) == multiset(ys[..i] + ys[i + 1..])
  {
    assert xs == [xs[0]] + xs[1..];
    assert ys == ys[..i] + [xs[0]] + ys[i + 1..];
    var a, b := multiset(xs[1..]), multiset(ys[..i] + ys[i + 1..]);
    assert multiset(xs) == multiset{xs[0]} + a;
    assert multiset(ys) == multiset{xs[0]} + b;
    assert a == multiset(xs) - multiset{xs[0]};
  }

  /** The order in which overlays are applied does not matter. */
  lemma {:induction false} OverlayOrderIrrelevant(base: Tree, xs: seq<Tree>, ys: seq<Tree>)
    requires multiset(xs) == multiset(ys)
    ensures MergeAll(base, xs) == MergeAll(base, ys)
    decreases xs
  {
    if xs == [] {
      assert |multiset(ys)| == 0;
    } else {
      assert xs[0] in multiset(xs);
      var i :| 0 <= i < |ys| && ys[i] == xs[0];
      var before, after := ys[..i], ys[i + 1..];
      WithoutOne(xs, ys, i);
      assert ys == before + [xs[0]] + after;
      OverlayOrderIrrelevant(TightenOnlyMerge(base, xs[0]), xs[1..], before + after);
      PullToFront(base, before, xs[0], after);
    }
  }

  // ---------------------------------------------------------------------- gates

  /** A gate is open only when its path leads to exactly true. */
  predicate GateOpen(config: Tree, path: seq<string>)
    decreases path
  {
    if path == [] then config == Flag(true)
    else config.Dict? && path[0] in config.entries && GateOpen(config.entries[path[0]], path[1..])
  }

  /** The walk down the path. */
  method Gate(config: Tree, path: seq<string>) returns (open: bool)
    ensures open == GateOpen(config, path)
  {
    var node := config;
    var i := 0;
    while i < |path|
      invariant 0 <= i <= |path|
      invariant GateOpen(config, path) == GateOpen(node, path[i..])
    {
      if !node.Dict? || path[i] !in node.entries {
        return false;
      }
      node := node.entries[path[i]];
      i := i + 1;
    }
    open := node == Flag(true);
  }

  predicate OpeningAllowed(config: Tree) {
    && GateOpen(config, ["agent_rules", "enabled"])
    && GateOpen(config, ["agent_rules", "paper_trading", "enabled"])
  }

  lemma {:induction false} TighterGate(a: Tree, b: Tree, path: seq<string>)
    requires AtMost(a, b) && GateOpen(a, path)
    ensures GateOpen(b, path)
    decreases path
  {
    if path != [] {
      TighterGate(a.entries[path[0]], b.entries[path[0]], path[1..]);
    }
  }

  /** No list of overlays can open what the base keeps closed. */
  lemma OverlaysNeverOpen(base: Tree, overlays: seq<Tree>)
    requires OpeningAllowed(MergeAll(base, overlays))
    ensures OpeningAllowed(base)
  {
    MergeAllTightens(base, overlays);
    TighterGate(MergeAll(base, overlays), base, ["agent_rules", "enabled"]);
    TighterGate(MergeAll(base, overlays), base, ["agent_rules", "paper_trading", "enabled"]);
  }

  /** A gate survives a merge exactly when the base has it open and the overlay
      does not turn it off on the way. */
  lemma {:induction false} MergedGateIff(base: Tree, overlay: Tree, path: seq<string>)
    ensures GateOpen(TightenOnlyMerge(base, overlay), path)
            <==> GateOpen(base, path) && !TurnedOff(overlay, path)
    decreases path
  {
    if path != [] && base.Dict? && overlay.Dict? && path[0] in base.entries && path[0] in overlay.entries {
      MergedGateIff(base.entries[path[0]], overlay.entries[path[0]], path[1..]);
    }
  }

  /** The overlay holds exactly false at the end of the path. */
  predicate TurnedOff(overlay: Tree, path: seq<string>)
    decreases path
  {
    if path == [] then overlay == Flag(false)
    else overlay.Dict? && path[0] in overlay.entries && TurnedOff(overlay.entries[path[0]], path[1..])
  }
}
