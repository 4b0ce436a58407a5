/** A test body as the tree of decisions it takes, and the order its leaves are to be visited in. */
module DecisionTree {
  import opened Common

  /** Stands for a subcase's name, file and line. */
  type Signature = int

  /** A body stops, draws one of a generator's values and goes on, or offers sibling subcases. */
  datatype Test =
    | Stop
    | Generator(branches: seq<Test>)
    | Subcases(names: seq<Signature>, bodies: seq<Test>)

  type Path = seq<nat>

  function Kids(t: Test): (kids: seq<Test>)
    ensures forall k :: k in kids ==> k < t
  {
    match t
    case Stop => []
    case Generator(branches) => branches
    case Subcases(_, bodies) => bodies
  }

  /** Generators have a value, subcase groups a subcase, and siblings differ. */
  ghost predicate WellFormed(t: Test)
    decreases t
  {
    && (!t.Stop? ==> |Kids(t)| > 0)
    && (t.Subcases? ==> |t.names| == |t.bodies| && Distinct(t.names))
    && forall i :: 0 <= i < |Kids(t)| ==> WellFormed(Kids(t)[i])
  }

  ghost predicate Distinct(names: seq<Signature>) {
    forall i, j :: 0 <= i < j < |names| ==> names[i] != names[j]
  }

  /** A path that follows branches of t, perhaps not down to a leaf. */
  ghost predicate IsPrefix(t: Test, p: Path)
    decreases t
  {
    p == [] || (p[0] < |Kids(t)| && IsPrefix(Kids(t)[p[0]], p[1..]))
  }

  ghost predicate IsLeaf(t: Test, p: Path)
    decreases t
  {
    if t.Stop? then p == [] else p != [] && p[0] < |Kids(t)| && IsLeaf(Kids(t)[p[0]], p[1..])
  }

  function Under(i: nat, leaves: seq<Path>): (r: seq<Path>)
    ensures |r| == |leaves|
  {
    seq(|leaves|, k requires 0 <= k < |leaves| => [i] + leaves[k])
  }

  /** The leaves, first branches first. */
  function Leaves(t: Test): seq<Path>
    decreases t, 0
  {
    if t.Stop? then [[]] else LeavesFrom(Kids(t), 0)
  }

  function LeavesFrom(kids: seq<Test>, i: nat): seq<Path>
    decreases kids, |kids| - i
  {
    if i >= |kids| then [] else Under(i, Leaves(kids[i])) + LeavesFrom(kids, i + 1)
  }

  /** The first leaf below a prefix. */
  function Descend(t: Test, p: Path): Path
    requires WellFormed(t) && IsPrefix(t, p)
    decreases t
  {
    if t.Stop? then [] else
      var i := if p == [] then 0 else p[0];
      [i] + Descend(Kids(t)[i], if p == [] then [] else p[1..])
  }

  /** The branch counts met on the way to a leaf. */
  function Counts(t: Test, leaf: Path): (counts: seq<nat>)
    requires IsLeaf(t, leaf)
    ensures |counts| == |leaf|
    decreases t
  {
    if t.Stop? then [] else [|Kids(t)|] + Counts(Kids(t)[leaf[0]], leaf[1..])
  }

  /** The deepest decision that has a branch left is moved on and everything below it forgotten. */
  function Advanced(path: Path, counts: seq<nat>, depth: nat): Option<Path>
    requires depth <= |path| && depth <= |counts|
  {
    if depth == 0 then None
    else if path[depth - 1] + 1 < counts[depth - 1] then Some(path[..depth - 1] + [path[depth - 1] + 1])
    else Advanced(path, counts, depth - 1)
  }

  /** The leaves from the first one below p on. */
  function Remaining(t: Test, p: Path): seq<Path>
    requires WellFormed(t) && IsPrefix(t, p)
    decreases t
  {
    if p == [] then Leaves(t)
    else Under(p[0], Remaining(Kids(t)[p[0]], p[1..])) + LeavesFrom(Kids(t), p[0] + 1)
  }

  lemma {:induction false} DescendIsLeaf(t: Test, p: Path)
    requires WellFormed(t) && IsPrefix(t, p)
    ensures IsLeaf(t, Descend(t, p)) && (IsLeaf(t, p) ==> Descend(t, p) == p)
    decreases t
  {
    if !t.Stop? {
      var i := if p == [] then 0 else p[0];
      var q := if p == [] then [] else p[1..];
      DescendIsLeaf(Kids(t)[i], q);
      assert Descend(t, p)[1..] == Descend(Kids(t)[i], q);
      if p != [] { assert p == [p[0]] + p[1..]; }
    }
  }

  lemma {:induction false} AdvancedBelow(i: nat, path: Path, n: nat, counts: seq<nat>, depth: nat)
    requires depth <= |path| == |counts|
    ensures var below := Advanced(path, counts, depth);
            Advanced([i] + path, [n] + counts, depth + 1) ==
              if below.Some? then Some([i] + below.value) else if i + 1 < n then Some([i + 1]) else None
    decreases depth
  {
    var p, c := [i] + path, [n] + counts;
    assert p[depth] == (if depth == 0 then i else path[depth - 1]);
    if depth == 0 {
      assert p[..0] + [i + 1] == [i + 1];
    } else {
      AdvancedBelow(i, path, n, counts, depth - 1);
      assert p[..depth] == [i] + path[..depth - 1];
      assert p[..depth] + [path[depth - 1] + 1] == [i] + (path[..depth - 1] + [path[depth - 1] + 1]);
    }
  }

  lemma UnderCons(i: nat, first: Path, rest: seq<Path>)
    ensures Under(i, [first] + rest) == [[i] + first] + Under(i, rest)
  {}

  /** The branch a path takes at the root, and where it goes on below. */
  function Head(p: Path): nat {
    if p == [] then 0 else p[0]
  }

  function Tail(p: Path): Path {
    if p == [] then [] else p[1..]
  }

  lemma RemainingUnder(t: Test, p: Path)
    requires WellFormed(t) && IsPrefix(t, p) && !t.Stop?
    ensures var kids := Kids(t);
            && Head(p) < |kids| && WellFormed(kids[Head(p)]) && IsPrefix(kids[Head(p)], Tail(p))
            && Remaining(t, p) == Under(Head(p), Remaining(kids[Head(p)], Tail(p))) + LeavesFrom(kids, Head(p) + 1)
            && Descend(t, p) == [Head(p)] + Descend(kids[Head(p)], Tail(p))
  {
    if p == [] {
      assert Remaining(Kids(t)[0], []) == Leaves(Kids(t)[0]);
      assert Leaves(t) == LeavesFrom(Kids(t), 0);
    }
  }

  lemma RemainingAtNextBranch(t: Test, i: nat)
    requires WellFormed(t) && i < |Kids(t)|
    ensures IsPrefix(t, [i]) && Remaining(t, [i]) == LeavesFrom(Kids(t), i)
  {
    assert [i][1..] == [];
    assert IsPrefix(Kids(t)[i], []);
  }

  ghost predicate Inner(t: Test, p: Path) {
    && WellFormed(t) && IsPrefix(t, p) && !t.Stop?
    && Head(p) < |Kids(t)| && WellFormed(Kids(t)[Head(p)]) && IsPrefix(Kids(t)[Head(p)], Tail(p))
  }

  lemma LeafUnder(t: Test, p: Path)
    requires Inner(t, p)
    requires IsLeaf(Kids(t)[Head(p)], Descend(Kids(t)[Head(p)], Tail(p)))
    ensures var kid := Kids(t)[Head(p)];
            var below := Descend(kid, Tail(p));
            && IsLeaf(t, Descend(t, p)) && Descend(t, p) == [Head(p)] + below
            && Counts(t, Descend(t, p)) == [|Kids(t)|] + Counts(kid, below)
  {
    var below := Descend(Kids(t)[Head(p)], Tail(p));
    RemainingUnder(t, p);
    assert ([Head(p)] + below)[1..] == below;
  }

  /** What the theorem below says of one prefix. */
  ghost predicate VisitsThenAdvances(t: Test, p: Path)
    requires WellFormed(t) && IsPrefix(t, p)
  {
    var leaf := Descend(t, p);
    && IsLeaf(t, leaf)
    && var next := Advanced(leaf, Counts(t, leaf), |leaf|);
       && (next.Some? ==> IsPrefix(t, next.value) && Remaining(t, p) == [leaf] + Remaining(t, next.value))
       && (next.None? ==> Remaining(t, p) == [leaf])
  }

  lemma ExtendedPrefix(t: Test, i: nat, next: Path)
    requires !t.Stop? && i < |Kids(t)| && IsPrefix(Kids(t)[i], next)
    ensures IsPrefix(t, [i] + next) && Head([i] + next) == i && Tail([i] + next) == next
  {
    assert ([i] + next)[1..] == next;
  }

  lemma LiftNext(t: Test, p: Path, next: Path)
    requires Inner(t, p) && IsPrefix(Kids(t)[Head(p)], next)
    requires var kid := Kids(t)[Head(p)]; Remaining(kid, Tail(p)) == [Descend(kid, Tail(p))] + Remaining(kid, next)
    ensures IsPrefix(t, [Head(p)] + next)
    ensures Remaining(t, p) == [Descend(t, p)] + Remaining(t, [Head(p)] + next)
  {
    hide Remaining, LeavesFrom, Under, WellFormed, IsPrefix, Descend, Head, Tail, Kids;
    var i, kids := Head(p), Kids(t);
    ExtendedPrefix(t, i, next);
    RemainingUnder(t, p);
    RemainingUnder(t, [i] + next);
    FirstThenRest(i, Descend(kids[i], Tail(p)), Remaining(kids[i], next), LeavesFrom(kids, i + 1));
  }

  lemma LiftLast(t: Test, p: Path)
    requires Inner(t, p)
    requires var kid := Kids(t)[Head(p)]; Remaining(kid, Tail(p)) == [Descend(kid, Tail(p))]
    ensures var i := Head(p) + 1;
            if i < |Kids(t)| then IsPrefix(t, [i]) && Remaining(t, p) == [Descend(t, p)] + Remaining(t, [i])
            else Remaining(t, p) == [Descend(t, p)]
  {
    var i, kids := Head(p), Kids(t);
    RemainingUnder(t, p);
    OnlyThenRest(i, Descend(kids[i], Tail(p)), LeavesFrom(kids, i + 1));
    if i + 1 < |kids| { RemainingAtNextBranch(t, i + 1); }
  }

  lemma VisitLifts(t: Test, p: Path)
    requires Inner(t, p) && VisitsThenAdvances(Kids(t)[Head(p)], Tail(p))
    ensures VisitsThenAdvances(t, p)
  {
    LeafUnder(t, p);
    hide Remaining, Descend, Counts, IsLeaf, WellFormed, IsPrefix;
    var i, q, kids := Head(p), Tail(p), Kids(t);
    var below := Descend(kids[i], q);
    AdvancedBelow(i, below, |kids|, Counts(kids[i], below), |below|);
    hide Advanced;
    var next := Advanced(below, Counts(kids[i], below), |below|);
    if next.Some? { LiftNext(t, p, next.value); } else { LiftLast(t, p); }
  }

  lemma FirstThenRest(i: nat, below: Path, more: seq<Path>, rest: seq<Path>)
    ensures Under(i, [below] + more) + rest == [[i] + below] + (Under(i, more) + rest)
  {
    UnderCons(i, below, more);
  }

  lemma OnlyThenRest(i: nat, below: Path, rest: seq<Path>)
    ensures Under(i, [below]) + rest == [[i] + below] + rest
  {
    assert Under(i, [below]) == [[i] + below];
  }

  /** What is left from p on: the leaf below p, then what is left after advancing from it. */
  lemma {:induction false} VisitThenAdvance(t: Test, p: Path)
    requires WellFormed(t) && IsPrefix(t, p)
    ensures VisitsThenAdvances(t, p)
    decreases t
  {
    if t.Stop? {
      assert p == [];
    } else {
      RemainingUnder(t, p);
      VisitThenAdvance(Kids(t)[Head(p)], Tail(p));
      VisitLifts(t, p);
    }
  }

  // ----- what the list of leaves is

  predicate LexLess(p: Path, q: Path) {
    if p == [] then q != [] else q != [] && (p[0] < q[0] || (p[0] == q[0] && LexLess(p[1..], q[1..])))
  }

  ghost predicate Increasing(s: seq<Path>) {
    forall i, j :: 0 <= i < j < |s| ==> LexLess(s[i], s[j])
  }

  lemma {:induction false} LeavesFromHeads(kids: seq<Test>, i: nat, k: nat)
    requires k < |LeavesFrom(kids, i)|
    ensures LeavesFrom(kids, i)[k] != [] && i <= LeavesFrom(kids, i)[k][0] < |kids|
    decreases |kids| - i
  {
    if i < |kids| {
      var n := |Leaves(kids[i])|;
      if k >= n { LeavesFromHeads(kids, i + 1, k - n); }
    }
  }

  lemma {:induction false} LeavesIncrease(t: Test)
    ensures Increasing(Leaves(t))
    decreases t, 0
  {
    if !t.Stop? { LeavesFromIncrease(Kids(t), 0); }
  }

  lemma {:induction false} LeavesFromIncrease(kids: seq<Test>, i: nat)
    ensures Increasing(LeavesFrom(kids, i))
    decreases kids, |kids| - i
  {
    if i < |kids| {
      LeavesIncrease(kids[i]);
      LeavesFromIncrease(kids, i + 1);
      var a, b := Leaves(kids[i]), LeavesFrom(kids, i + 1);
      var s := Under(i, a) + b;
      forall x, y | 0 <= x < y < |s| ensures LexLess(s[x], s[y]) {
        if y < |a| {
          assert s[x][1..] == a[x] && s[y][1..] == a[y];
        } else {
          LeavesFromHeads(kids, i + 1, y - |a|);
          if x >= |a| { assert LexLess(b[x - |a|], b[y - |a|]); }
        }
      }
    }
  }

  lemma {:induction false} LeavesAreLeaves(t: Test, p: Path)
    ensures p in Leaves(t) <==> IsLeaf(t, p)
    decreases t, 0
  {
    if !t.Stop? { LeavesFromAreLeaves(Kids(t), 0, p); }
  }

  lemma {:induction false} LeavesFromAreLeaves(kids: seq<Test>, i: nat, p: Path)
    ensures p in LeavesFrom(kids, i) <==> p != [] && i <= p[0] < |kids| && IsLeaf(kids[p[0]], p[1..])
    decreases kids, |kids| - i
  {
    if i < |kids| {
      LeavesFromAreLeaves(kids, i + 1, p);
      var a := Leaves(kids[i]);
      if p in Under(i, a) {
        var k :| 0 <= k < |a| && Under(i, a)[k] == p;
        assert p[1..] == a[k];
        LeavesAreLeaves(kids[i], p[1..]);
      }
      if p != [] && p[0] == i {
        LeavesAreLeaves(kids[i], p[1..]);
        if p[1..] in a {
          var k :| 0 <= k < |a| && a[k] == p[1..];
          assert p == [i] + p[1..] == Under(i, a)[k];
        }
      }
    }
  }
}
