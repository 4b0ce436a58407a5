/** The traversal state that reruns a test body until every leaf of its decision tree was reached. */
module Traversal {
  import opened Common
  import opened DecisionTree

  datatype DecisionPoint = DecisionPoint(branchCount: nat, subcases: seq<Signature>)

  function BranchCounts(points: seq<DecisionPoint>): (counts: seq<nat>)
    ensures |counts| == |points|
  {
    seq(|points|, i requires 0 <= i < |points| => points[i].branchCount)
  }

  class TraversalState {
    var discoveredDecisionPath: seq<DecisionPoint>
    var decisionPath: seq<nat>
    var decisionDepth: nat
    var enteredSubcaseDepths: seq<nat>
    var activeSubcaseDepth: nat

    constructor ()
      ensures decisionPath == [] && discoveredDecisionPath == []
      ensures decisionDepth == 0 && enteredSubcaseDepths == [] && activeSubcaseDepth == 0
    {
      discoveredDecisionPath, decisionPath, decisionDepth := [], [], 0;
      enteredSubcaseDepths, activeSubcaseDepth := [], 0;
    }

    /** The body stands at a depth it has discovered, or at the next one. */
    ghost predicate Valid()
      reads this
    {
      decisionDepth <= |discoveredDecisionPath| <= |decisionPath|
    }

    method EnsureDecisionPointAtCurrentDepth()
      requires Valid()
      modifies `discoveredDecisionPath, `decisionPath
      ensures Valid() && decisionDepth < |discoveredDecisionPath|
      ensures discoveredDecisionPath == old(discoveredDecisionPath)
           || discoveredDecisionPath == old(discoveredDecisionPath) + [DecisionPoint(0, [])]
      ensures discoveredDecisionPath != old(discoveredDecisionPath) <==> old(|discoveredDecisionPath|) == decisionDepth
      ensures decisionPath == old(decisionPath) + if old(|decisionPath|) == decisionDepth then [0] else []
    {
      if |discoveredDecisionPath| == decisionDepth {
        discoveredDecisionPath := discoveredDecisionPath + [DecisionPoint(0, [])];
        if |decisionPath| == decisionDepth { decisionPath := decisionPath + [0]; }
      }
    }

    method ResetForTestCase()
      modifies this
      ensures decisionPath == [] && discoveredDecisionPath == []
      ensures decisionDepth == 0 && enteredSubcaseDepths == [] && activeSubcaseDepth == 0
    {
      decisionPath := [];
      discoveredDecisionPath := [];
      enteredSubcaseDepths := [];
      activeSubcaseDepth := 0;
      decisionDepth := 0;
    }

    method ResetForRun()
      modifies this
      ensures decisionPath == old(decisionPath) && discoveredDecisionPath == []
      ensures decisionDepth == 0 && enteredSubcaseDepths == [] && activeSubcaseDepth == 0
    {
      activeSubcaseDepth := 0;
      discoveredDecisionPath := [];
      decisionDepth := 0;
      enteredSubcaseDepths := [];
    }

    /** The depth down to which a choice and a discovered point both exist. */
    function CommonDepth(): (depth: nat)
      reads this
      ensures depth <= |decisionPath| && depth <= |discoveredDecisionPath|
    {
      if |decisionPath| < |discoveredDecisionPath| then |decisionPath| else |discoveredDecisionPath|
    }

    method Advance() returns (more: bool)
      modifies `decisionPath
      ensures var next := Advanced(old(decisionPath), BranchCounts(discoveredDecisionPath), old(CommonDepth()));
              more == next.Some? && decisionPath == if more then next.value else old(decisionPath)
    {
      var maxDepth := CommonDepth();
      var depth: nat := maxDepth;
      ghost var was := decisionPath;
      while depth > 0
        invariant depth <= maxDepth && decisionPath == was
        invariant Advanced(was, BranchCounts(discoveredDecisionPath), maxDepth)
               == Advanced(was, BranchCounts(discoveredDecisionPath), depth)
      {
        var index := depth - 1;
        if decisionPath[index] + 1 < discoveredDecisionPath[index].branchCount {
          decisionPath := decisionPath[index := decisionPath[index] + 1];
          decisionPath := decisionPath[..index + 1];
          assert decisionPath == was[..index] + [was[index] + 1];
          return true;
        }
        depth := depth - 1;
      }
      return false;
    }

    method TryEnterSubcase(signature: Signature) returns (entered: bool)
      requires Valid()
      modifies this
      ensures Valid()
      ensures decisionPath == old(decisionPath) + if old(|decisionPath|) == old(decisionDepth) then [0] else []
      ensures var d, was := old(decisionDepth), old(discoveredDecisionPath);
              var seen := if d < |was| then was[d].subcases else [];
              var known := if signature in seen then seen else seen + [signature];
              && discoveredDecisionPath == was[..d] + [DecisionPoint(|known|, known)]
                                           + (if d < |was| then was[d + 1..] else [])
              && (entered <==> IsFirst(known, decisionPath[d], signature))
      ensures entered ==> decisionDepth == old(decisionDepth) + 1 && activeSubcaseDepth == old(activeSubcaseDepth) + 1
                          && enteredSubcaseDepths == old(enteredSubcaseDepths) + [old(decisionDepth)]
      ensures !entered ==> decisionDepth == old(decisionDepth) && activeSubcaseDepth == old(activeSubcaseDepth)
                           && enteredSubcaseDepths == old(enteredSubcaseDepths)
    {
      EnsureDecisionPointAtCurrentDepth();
      var subcases := discoveredDecisionPath[decisionDepth].subcases;
      var siblingIndex := 0;
      while siblingIndex < |subcases| && subcases[siblingIndex] != signature
        invariant siblingIndex <= |subcases|
        invariant forall j :: 0 <= j < siblingIndex ==> subcases[j] != signature
      {
        siblingIndex := siblingIndex + 1;
      }
      if siblingIndex == |subcases| { subcases := subcases + [signature]; }
      discoveredDecisionPath := discoveredDecisionPath[decisionDepth := DecisionPoint(|subcases|, subcases)];
      if siblingIndex != decisionPath[decisionDepth] { return false; }
      enteredSubcaseDepths := enteredSubcaseDepths + [decisionDepth];
      activeSubcaseDepth := activeSubcaseDepth + 1;
      decisionDepth := decisionDepth + 1;
      return true;
    }

    static predicate IsFirst(known: seq<Signature>, k: nat, signature: Signature) {
      k < |known| && known[k] == signature && forall j :: 0 <= j < k ==> known[j] != signature
    }

    method LeaveSubcase()
      requires enteredSubcaseDepths != [] && activeSubcaseDepth > 0
      modifies `decisionDepth, `enteredSubcaseDepths, `activeSubcaseDepth
      ensures decisionDepth == old(enteredSubcaseDepths)[|old(enteredSubcaseDepths)| - 1]
      ensures enteredSubcaseDepths == old(enteredSubcaseDepths)[..|old(enteredSubcaseDepths)| - 1]
      ensures activeSubcaseDepth == old(activeSubcaseDepth) - 1
    {
      decisionDepth := enteredSubcaseDepths[|enteredSubcaseDepths| - 1];
      enteredSubcaseDepths := enteredSubcaseDepths[..|enteredSubcaseDepths| - 1];
      activeSubcaseDepth := activeSubcaseDepth - 1;
    }

    method AcquireGeneratorIndex(count: nat) returns (index: nat)
      requires Valid()
      modifies this
      ensures decisionPath == old(decisionPath) + if old(|decisionPath|) == old(decisionDepth) then [0] else []
      ensures Valid()
      ensures var d, was := old(decisionDepth), old(discoveredDecisionPath);
              discoveredDecisionPath == was[..d] + [DecisionPoint(count, if d < |was| then was[d].subcases else [])]
                                        + (if d < |was| then was[d + 1..] else [])
      ensures index == if decisionPath[old(decisionDepth)] < count then decisionPath[old(decisionDepth)] else 0
      ensures decisionDepth == old(decisionDepth) + 1
      ensures enteredSubcaseDepths == old(enteredSubcaseDepths) && activeSubcaseDepth == old(activeSubcaseDepth)
    {
      EnsureDecisionPointAtCurrentDepth();
      discoveredDecisionPath := discoveredDecisionPath[decisionDepth :=
        discoveredDecisionPath[decisionDepth].(branchCount := count)];
      var at := decisionPath[decisionDepth];
      decisionDepth := decisionDepth + 1;
      index := if at < count then at else 0;
    }
  }

  /** `points` records these branch counts from depth d on. */
  predicate CountsFrom(points: seq<DecisionPoint>, d: nat, counts: seq<nat>) {
    |points| == d + |counts| && forall k :: 0 <= k < |counts| ==> points[d + k].branchCount == counts[k]
  }

  /** What one run of `t` does from depth d: it reaches exactly the first leaf below the chosen
      path, completes the path to that leaf, and notes the branch counts on the way. */
  ghost predicate Ran(t: Test, p: Path, points: seq<DecisionPoint>,
                      reached: seq<Path>, p': Path, points': seq<DecisionPoint>)
  {
    var d := |points|;
    && Ready(t, p, points)
    && var leaf := Descend(t, p[d..]);
       && reached == [leaf] && IsLeaf(t, leaf)
       && p' == p[..d] + leaf && CountsFrom(points', d, Counts(t, leaf)) && points'[..d] == points
  }

  ghost predicate Ready(t: Test, p: Path, points: seq<DecisionPoint>) {
    WellFormed(t) && |points| <= |p| && IsPrefix(t, p[|points|..])
  }

  /** The path once the decision at depth d has a choice. */
  function Chosen(p: Path, d: nat): Path {
    p + if |p| == d then [0] else []
  }

  lemma ReadyBelow(t: Test, p: Path, points: seq<DecisionPoint>, point: DecisionPoint)
    requires Ready(t, p, points) && !t.Stop?
    ensures var d, q := |points|, Chosen(p, |points|);
            && d < |q| && q[..d] == p[..d] && q[d] == Head(p[d..]) && q[d + 1..] == Tail(p[d..])
            && q[d] < |Kids(t)| && Ready(Kids(t)[q[d]], q, points + [point])
  {
    RemainingUnder(t, p[|points|..]);
  }

  lemma SplicedPoint(points: seq<DecisionPoint>, first: DecisionPoint, last: DecisionPoint,
                     points': seq<DecisionPoint>, counts: seq<nat>)
    requires CountsFrom(points', |points| + 1, counts) && points'[..|points| + 1] == points + [first]
    ensures var d, all := |points|, points'[|points| := last];
            all[..d] == points && CountsFrom(all, d, [last.branchCount] + counts)
  {
    var d, all := |points|, points'[|points| := last];
    assert all[..d] == points'[..d + 1][..d] == points;
    forall k | 0 <= k < |counts| + 1 ensures all[d + k].branchCount == ([last.branchCount] + counts)[k] {
      if k > 0 { assert points'[d + 1 + (k - 1)].branchCount == counts[k - 1]; }
    }
  }

  lemma ChosenPath(p: Path, q: Path, d: nat, lower: Path)
    requires d <= |p| && d < |q| && q[..d] == p[..d]
    ensures q[..d + 1] + lower == p[..d] + ([q[d]] + lower)
  {
    assert q[..d + 1] == p[..d] + [q[d]];
  }

  /** A run of the chosen branch is a run of the whole, once the point above it is complete. */
  lemma RanAbove(t: Test, p: Path, points: seq<DecisionPoint>, first: DecisionPoint, last: DecisionPoint,
                 below: seq<Path>, p': Path, points': seq<DecisionPoint>)
    requires Ready(t, p, points) && !t.Stop? && last.branchCount == |Kids(t)| && Head(p[|points|..]) < |Kids(t)|
    requires Ran(Kids(t)[Head(p[|points|..])], Chosen(p, |points|), points + [first], below, p', points')
    ensures |points| < |points'|
    ensures Ran(t, p, points, Under(Head(p[|points|..]), below), p', points'[|points| := last])
  {
    var d, i, q := |points|, Head(p[|points|..]), Chosen(p, |points|);
    ReadyBelow(t, p, points, first);
    RemainingUnder(t, p[d..]);
    var kid := Kids(t)[i];
    hide Descend, IsLeaf, Counts, IsPrefix, WellFormed, Remaining, LeavesFrom, Chosen;
    assert q[|points + [first]|..] == Tail(p[d..]);
    LeafUnder(t, p[d..]);
    var lower := Descend(kid, Tail(p[d..]));
    SplicedPoint(points, first, last, points', Counts(kid, lower));
    ChosenPath(p, q, d, lower);
    assert Under(i, below) == [[i] + lower];
  }

  /** Runs a body once; `reached` lists the leaves it came to, by the branches it was told to take. */
  method RunBody(t: Test, ts: TraversalState) returns (reached: seq<Path>)
    requires ts.decisionDepth == |ts.discoveredDecisionPath|
    requires Ready(t, ts.decisionPath, ts.discoveredDecisionPath)
    modifies ts
    ensures Ran(t, old(ts.decisionPath), old(ts.discoveredDecisionPath),
                reached, ts.decisionPath, ts.discoveredDecisionPath)
    ensures ts.enteredSubcaseDepths == old(ts.enteredSubcaseDepths)
    ensures ts.activeSubcaseDepth == old(ts.activeSubcaseDepth)
    decreases t, 1
  {
    ghost var p, points := ts.decisionPath, ts.discoveredDecisionPath;
    match t
    case Stop =>
      reached := [[]];
      assert p[|points|..] == [];
    case Generator(branches) =>
      ReadyBelow(t, p, points, DecisionPoint(|branches|, []));
      var index := ts.AcquireGeneratorIndex(|branches|);
      var below := RunBody(branches[index], ts);
      reached := Under(index, below);
      var point := DecisionPoint(|branches|, []);
      RanAbove(t, p, points, point, point, below, ts.decisionPath, ts.discoveredDecisionPath);
      assert ts.discoveredDecisionPath[|points| := point] == ts.discoveredDecisionPath;
    case Subcases(_, _) =>
      reached := RunSiblings(t, ts);
  }

  /** Siblings 0..k were offered at depth d, where branch i is chosen: once it was entered, its run
      came to `below` and left the points `mid`. */
  ghost predicate Offered(t: Test, p: Path, points: seq<DecisionPoint>, i: nat, k: nat, reached: seq<Path>,
                          path: Path, now: seq<DecisionPoint>, below: seq<Path>, mid: seq<DecisionPoint>)
    requires t.Subcases? && k <= |t.names|
  {
    var d := |points|;
    && |t.names| == |t.bodies| && i < |t.names| && d <= |p|
    && if k <= i then
         && reached == []
         && (k == 0 ==> path == p && now == points)
         && (k > 0 ==> path == Chosen(p, d) && now == points + [Sibling(t, k)])
       else
         && Ran(t.bodies[i], Chosen(p, d), points + [Sibling(t, i + 1)], below, path, mid)
         && d < |mid| == |now| <= |path| && path[d] == i && now == mid[d := Sibling(t, k)]
         && reached == Under(i, below)
  }

  /** The decision point at which the first k siblings are known. */
  function Sibling(t: Test, k: nat): DecisionPoint
    requires t.Subcases? && k <= |t.names|
  {
    DecisionPoint(k, t.names[..k])
  }

  lemma OfferedDepth(t: Test, p: Path, points: seq<DecisionPoint>, i: nat, k: nat, reached: seq<Path>,
                     path: Path, now: seq<DecisionPoint>, below: seq<Path>, mid: seq<DecisionPoint>)
    requires t.Subcases? && k <= |t.names| && Offered(t, p, points, i, k, reached, path, now, below, mid)
    ensures |points| <= |now| <= |path|
    ensures now[..|points|] == (if k <= i then points else mid[..|points|])
    ensures if |points| < |now| then now[|points|] == Sibling(t, k) else k == 0
  {}

  /** Offering sibling k enters it exactly when it is the chosen one. */
  lemma OfferedNext(t: Test, p: Path, points: seq<DecisionPoint>, i: nat, k: nat, reached: seq<Path>,
                    path: Path, now: seq<DecisionPoint>, below: seq<Path>, mid: seq<DecisionPoint>,
                    path': Path, now': seq<DecisionPoint>)
    requires t.Subcases? && WellFormed(t) && k < |t.names|
    requires Offered(t, p, points, i, k, reached, path, now, below, mid)
    requires i == Head(p[|points|..])
    requires path' == Chosen(path, |points|)
    requires now' == now[..|points|] + [Sibling(t, k + 1)] + (if |points| < |now| then now[|points| + 1..] else [])
    ensures |points| < |path'| && path'[|points|] == i
    ensures if k == i then path' == Chosen(p, |points|) && now' == points + [Sibling(t, i + 1)]
            else Offered(t, p, points, i, k + 1, reached, path', now', below, mid)
  {
    hide Ran, WellFormed;
    var d := |points|;
    if k > i {
      assert path' == path && now' == mid[d := Sibling(t, k + 1)];
    } else {
      assert path' == Chosen(p, d);
      assert now[..d] == points;
      assert now' == points + [Sibling(t, k + 1)];
    }
  }

  lemma EnteredOnly(t: Test, i: nat, k: nat)
    requires t.Subcases? && WellFormed(t) && i < |t.names| && k < |t.names|
    ensures t.names[k] !in t.names[..k] && t.names[..k] + [t.names[k]] == t.names[..k + 1]
    ensures TraversalState.IsFirst(t.names[..k + 1], i, t.names[k]) <==> k == i
  {
    assert Distinct(t.names);
    hide WellFormed;
    if k == i { assert forall j :: 0 <= j < k ==> t.names[..k + 1][j] == t.names[j] != t.names[k]; }
    if i < k { assert t.names[..k + 1][i] == t.names[i] != t.names[k]; }
  }

  lemma OfferedChosen(t: Test, p: Path, points: seq<DecisionPoint>, i: nat,
                      path: Path, now: seq<DecisionPoint>, below: seq<Path>)
    requires t.Subcases? && |t.names| == |t.bodies| && i < |t.names| && |points| <= |p|
    requires i == Head(p[|points|..])
    requires Ran(t.bodies[i], Chosen(p, |points|), points + [Sibling(t, i + 1)], below, path, now)
    ensures Offered(t, p, points, i, i + 1, [] + Under(i, below), path, now, below, now)
  {
    hide Descend, IsLeaf, Counts, WellFormed, IsPrefix;
    var d, q := |points|, Chosen(p, |points|);
    assert path[d] == path[..d + 1][d] == q[d];
    assert now[d] == now[..d + 1][d] == Sibling(t, i + 1);
    assert now[d := Sibling(t, i + 1)] == now;
  }

  /** Offers every sibling in turn, and runs the body of the one that is entered. */
  method RunSiblings(t: Test, ts: TraversalState) returns (reached: seq<Path>)
    requires t.Subcases? && ts.decisionDepth == |ts.discoveredDecisionPath|
    requires Ready(t, ts.decisionPath, ts.discoveredDecisionPath)
    modifies ts
    ensures Ran(t, old(ts.decisionPath), old(ts.discoveredDecisionPath),
                reached, ts.decisionPath, ts.discoveredDecisionPath)
    ensures ts.enteredSubcaseDepths == old(ts.enteredSubcaseDepths)
    ensures ts.activeSubcaseDepth == old(ts.activeSubcaseDepth)
    decreases t, 0
  {
    ghost var p, points := ts.decisionPath, ts.discoveredDecisionPath;
    ghost var d, i := |points|, Head(p[|points|..]);
    ghost var below, mid := [], [];
    assert WellFormed(t);
    ReadyBelow(t, p, points, Sibling(t, i + 1));
    reached := [];
    assert Offered(t, p, points, i, 0, reached, p, points, below, mid);
    hide Ran, Ready, WellFormed, Offered, Under, TraversalState.IsFirst;
    for k := 0 to |t.names|
      invariant ts.decisionDepth == d && ts.enteredSubcaseDepths == old(ts.enteredSubcaseDepths)
      invariant ts.activeSubcaseDepth == old(ts.activeSubcaseDepth)
      invariant k <= i ==> reached == []
      invariant Offered(t, p, points, i, k, reached, ts.decisionPath, ts.discoveredDecisionPath, below, mid)
    {
      ghost var path, now := ts.decisionPath, ts.discoveredDecisionPath;
      OfferedDepth(t, p, points, i, k, reached, path, now, below, mid);
      EnteredOnly(t, i, k);
      var entered := ts.TryEnterSubcase(t.names[k]);
      OfferedNext(t, p, points, i, k, reached, path, now, below, mid, ts.decisionPath, ts.discoveredDecisionPath);
      if entered {
        var leaves := RunBody(t.bodies[k], ts);
        reached := reached + Under(k, leaves);
        below, mid := leaves, ts.discoveredDecisionPath;
        OfferedChosen(t, p, points, i, ts.decisionPath, mid, below);
        ts.LeaveSubcase();
      }
    }
    RanAboveOffered(t, p, points, i, reached, ts.decisionPath, ts.discoveredDecisionPath, below, mid);
  }

  lemma RanAboveOffered(t: Test, p: Path, points: seq<DecisionPoint>, i: nat, reached: seq<Path>,
                        path: Path, now: seq<DecisionPoint>, below: seq<Path>, mid: seq<DecisionPoint>)
    requires t.Subcases? && Ready(t, p, points) && i == Head(p[|points|..])
    requires Offered(t, p, points, i, |t.names|, reached, path, now, below, mid)
    ensures Ran(t, p, points, reached, path, now)
  {
    hide Ran, Ready;
    RanAbove(t, p, points, Sibling(t, i + 1), Sibling(t, |t.names|), below, path, mid);
  }

  /** The loop that reruns a test case until advance() finds no further path: it ends, and has
      reached every leaf of the decision tree exactly once, in lexicographic order. */
  method RunTestCase(t: Test) returns (visited: seq<Path>)
    requires WellFormed(t)
    ensures visited == Leaves(t)
    ensures Increasing(visited) && forall p :: p in visited <==> IsLeaf(t, p)
  {
    hide Ran, Advanced, Remaining, Descend, Leaves, IsLeaf, Counts, IsPrefix, Increasing;
    var traversal := new TraversalState();
    traversal.ResetForTestCase();
    StartsWithAll(t);
    visited := [];
    var more := true;
    while more
      invariant more ==> IsPrefix(t, traversal.decisionPath)
                         && visited + Remaining(t, traversal.decisionPath) == Leaves(t)
      invariant !more ==> visited == Leaves(t)
      decreases if more then 1 + |Remaining(t, traversal.decisionPath)| else 0
    {
      traversal.ResetForRun();
      ghost var p := traversal.decisionPath;
      VisitThenAdvance(t, p);
      assert p[0..] == p;
      var reached := RunBody(t, traversal);
      RunCounts(t, p, reached, traversal.decisionPath, traversal.discoveredDecisionPath);
      visited := visited + reached;
      more := traversal.Advance();
    }
    LeavesIncrease(t);
    forall p ensures p in Leaves(t) <==> IsLeaf(t, p) { LeavesAreLeaves(t, p); }
  }

  lemma StartsWithAll(t: Test)
    requires WellFormed(t)
    ensures IsPrefix(t, []) && [] + Remaining(t, []) == Leaves(t)
  {}

  lemma RunCounts(t: Test, p: Path, reached: seq<Path>, leaf: Path, points: seq<DecisionPoint>)
    requires Ran(t, p, [], reached, leaf, points)
    ensures Ready(t, p, []) && IsPrefix(t, p) && leaf == Descend(t, p) && reached == [leaf] && IsLeaf(t, leaf)
    ensures |points| == |leaf| && BranchCounts(points) == Counts(t, leaf)
  {
    assert p[0..] == p && p[..0] + Descend(t, p) == Descend(t, p);
    forall k | 0 <= k < |leaf| ensures BranchCounts(points)[k] == Counts(t, leaf)[k] {
      assert points[0 + k].branchCount == Counts(t, leaf)[k];
    }
  }
}
