/** The pane tree of a split tab (services/workspace/model.rs).

    A leaf names a real tab; a split holds its children and the share of the
    space each one gets. The Rust code edits the tree through `&mut self`; here
    each operation returns the tree it leaves behind. Shares are reals, so the
    rounding of `f32` is not modelled. */
module Panes {
  import opened Wrappers
  import opened Sequences

  type TabId = string

  datatype Direction = Row | Column

  datatype PaneNode =
    | Leaf(tabId: TabId)
    | Split(direction: Direction, children: seq<PaneNode>, weights: seq<real>)

  function LeafTabIds(node: PaneNode): (ids: seq<TabId>)
    decreases node, 1
  {
    match node
    case Leaf(id) => [id]
    case Split(_, children, _) => LeavesOf(children)
  }

  function LeavesOf(nodes: seq<PaneNode>): seq<TabId>
    decreases nodes, 0
  {
    if nodes == [] then [] else LeafTabIds(nodes[0]) + LeavesOf(nodes[1..])
  }

  // ----- weights

  function Sum(weights: seq<real>): real {
    if weights == [] then 0.0 else weights[0] + Sum(weights[1..])
  }

  function Scale(weights: seq<real>, total: real): (scaled: seq<real>)
    requires total != 0.0
    ensures |scaled| == |weights|
  {
    seq(|weights|, i requires 0 <= i < |weights| => weights[i] / total)
  }

  function NormalizeWeights(weights: seq<real>): (normal: seq<real>)
    ensures |normal| == |weights|
  {
    if weights == [] then
      []
    else if Sum(weights) <= 0.0 then
      seq(|weights|, _ => 1.0 / |weights| as real)
    else
      Scale(weights, Sum(weights))
  }

  lemma {:induction false} SumOfScaled(weights: seq<real>, total: real)
    requires total != 0.0
    ensures Sum(Scale(weights, total)) == Sum(weights) / total
  {
    if weights != [] {
      SumOfScaled(weights[1..], total);
      assert Scale(weights, total)[1..] == Scale(weights[1..], total);
    }
  }

  lemma {:induction false} SumOfConstant(weights: seq<real>, w: real)
    requires forall i :: 0 <= i < |weights| ==> weights[i] == w
    ensures Sum(weights) == |weights| as real * w
  {
    if weights != [] {
      SumOfConstant(weights[1..], w);
    }
  }

  /** Whatever shares come in, the normalised shares add up to one; shares that
      already do are left exactly as they are. */
  lemma NormalizedWeightsAddUpToOne(weights: seq<real>)
    requires weights != []
    ensures Sum(NormalizeWeights(weights)) == 1.0
    ensures Sum(weights) == 1.0 ==> NormalizeWeights(weights) == weights
  {
    var total := Sum(weights);
    if total <= 0.0 {
      var n := |weights| as real;
      SumOfConstant(NormalizeWeights(weights), 1.0 / n);
      assert n * (1.0 / n) == 1.0;
    } else {
      SumOfScaled(weights, total);
      assert total / total == 1.0;
      if total == 1.0 {
        assert NormalizeWeights(weights) == weights;
      }
    }
  }

  // ----- replacing and removing a leaf

  function ReplaceLeaf(node: PaneNode, target: TabId, replacement: PaneNode): Option<PaneNode>
    decreases node, 1
  {
    match node
    case Leaf(id) => if id == target then Some(replacement) else None
    case Split(direction, children, weights) =>
      match ReplaceInFirst(children, target, replacement)
      case None => None
      case Some(next) => Some(Split(direction, next, weights))
  }

  function ReplaceInFirst(nodes: seq<PaneNode>, target: TabId, replacement: PaneNode)
    : (result: Option<seq<PaneNode>>)
    ensures result.Some? ==> |result.value| == |nodes|
    decreases nodes, 0
  {
    if nodes == [] then
      None
    else
      match ReplaceLeaf(nodes[0], target, replacement)
      case Some(next) => Some([next] + nodes[1..])
      case None =>
        match ReplaceInFirst(nodes[1..], target, replacement)
        case None => None
        case Some(rest) => Some([nodes[0]] + rest)
  }

  /** A split left with one child becomes that child. */
  function Collapse(node: PaneNode): PaneNode {
    if node.Split? && |node.children| == 1 then node.children[0] else node
  }

  function DirectLeaf(nodes: seq<PaneNode>, target: TabId): (i: nat)
    ensures i <= |nodes|
    ensures i < |nodes| ==> nodes[i] == Leaf(target)
    ensures forall k :: 0 <= k < i ==> nodes[k] != Leaf(target)
  {
    IndexOf(nodes, Leaf(target))
  }

  /** `None` when the subtree holds no such leaf. A lone leaf reports the match
      but is not removed: only a split can drop a child. */
  function RemoveLeaf(node: PaneNode, target: TabId): Option<PaneNode>
    decreases node, 1
  {
    match node
    case Leaf(id) => if id == target then Some(node) else None
    case Split(direction, children, weights) =>
      var i := DirectLeaf(children, target);
      if i < |children| then
        var kept := if i < |weights| then RemoveAt(weights, i) else weights;
        Some(Collapse(Split(direction, RemoveAt(children, i), NormalizeWeights(kept))))
      else
        match RemoveFromFirst(children, target)
        case None => None
        case Some(next) => Some(Collapse(Split(direction, next, NormalizeWeights(weights))))
  }

  function RemoveFromFirst(nodes: seq<PaneNode>, target: TabId): (result: Option<seq<PaneNode>>)
    ensures result.Some? ==> |result.value| == |nodes|
    decreases nodes, 0
  {
    if nodes == [] then
      None
    else
      match RemoveLeaf(nodes[0], target)
      case Some(next) => Some([next] + nodes[1..])
      case None =>
        match RemoveFromFirst(nodes[1..], target)
        case None => None
        case Some(rest) => Some([nodes[0]] + rest)
  }

  function SetWeightsAtPath(node: PaneNode, path: seq<nat>, weights: seq<real>): Option<PaneNode>
    decreases node
  {
    match node
    case Leaf(_) => None
    case Split(direction, children, before) =>
      if path == [] then
        if |before| != |weights| then None else Some(Split(direction, children, NormalizeWeights(weights)))
      else if path[0] >= |children| then
        None
      else
        match SetWeightsAtPath(children[path[0]], path[1..], weights)
        case None => None
        case Some(child) => Some(Split(direction, children[path[0] := child], before))
  }

  // ----- what every operation keeps

  /** Every split has at least two children, one share per child, and shares
      that add up to one. */
  ghost predicate WellShaped(node: PaneNode)
    decreases node, 1
  {
    match node
    case Leaf(_) => true
    case Split(_, children, weights) =>
      |children| >= 2 && |weights| == |children| && Sum(weights) == 1.0 && AllWellShaped(children)
  }

  ghost predicate AllWellShaped(nodes: seq<PaneNode>)
    decreases nodes, 0
  {
    nodes == [] || (WellShaped(nodes[0]) && AllWellShaped(nodes[1..]))
  }

  /** The tree a split command puts in the place of the leaf it splits. */
  function SplitOf(direction: Direction, first: TabId, second: TabId): (node: PaneNode) {
    Split(direction, [Leaf(first), Leaf(second)], [0.5, 0.5])
  }

  lemma SplitOfIsWellShaped(direction: Direction, first: TabId, second: TabId)
    ensures WellShaped(SplitOf(direction, first, second))
    ensures LeafTabIds(SplitOf(direction, first, second)) == [first, second]
  {
    var node := SplitOf(direction, first, second);
    var last := node.children[1..];
    assert last == [Leaf(second)] && last[1..] == [];
    assert AllWellShaped(last[1..]) && AllWellShaped(last);
    assert node.weights[1..] == [0.5] && [0.5][1..] == [];
    assert Sum([0.5]) == 0.5;
    assert LeavesOf(last) == LeafTabIds(last[0]) + LeavesOf(last[1..]);
    assert LeavesOf(node.children) == LeafTabIds(node.children[0]) + LeavesOf(last);
  }

  /** A well shaped tree is a leaf exactly when it lists one tab. */
  lemma {:induction false} LeafCount(node: PaneNode)
    requires WellShaped(node)
    ensures |LeafTabIds(node)| >= 1
    ensures node.Split? <==> |LeafTabIds(node)| >= 2
    decreases node, 1
  {
    if node.Split? {
      LeafCounts(node.children);
    }
  }

  lemma {:induction false} LeafCounts(nodes: seq<PaneNode>)
    requires AllWellShaped(nodes)
    ensures |LeavesOf(nodes)| >= |nodes|
    decreases nodes, 0
  {
    if nodes != [] {
      LeafCount(nodes[0]);
      LeafCounts(nodes[1..]);
    }
  }

  /** `xs` with the first `x` replaced by `ys`. */
  function Substitute<T(==)>(xs: seq<T>, x: T, ys: seq<T>): seq<T> {
    var i := IndexOf(xs, x);
    if i < |xs| then Splice(xs, i, ys) else xs
  }

  function Splice<T>(xs: seq<T>, i: nat, ys: seq<T>): seq<T>
    requires i < |xs|
  {
    xs[..i] + ys + xs[i + 1..]
  }

  lemma SubstituteInFirst<T>(xs: seq<T>, zs: seq<T>, x: T, ys: seq<T>)
    requires x in xs
    ensures Substitute(xs + zs, x, ys) == Substitute(xs, x, ys) + zs
  {
    IndexInSum(xs, zs, x);
    SpliceInSum(xs, zs, IndexOf(xs, x), ys);
  }

  lemma SubstituteInSecond<T>(xs: seq<T>, zs: seq<T>, x: T, ys: seq<T>)
    requires x !in xs && x in zs
    ensures Substitute(xs + zs, x, ys) == xs + Substitute(zs, x, ys)
  {
    IndexInSum(xs, zs, x);
    SpliceAfter(xs, zs, IndexOf(zs, x), ys);
  }

  lemma SpliceAfter<T>(xs: seq<T>, zs: seq<T>, j: nat, ys: seq<T>)
    requires j < |zs|
    ensures Splice(xs + zs, |xs| + j, ys) == xs + Splice(zs, j, ys)
  {
  }

  lemma SpliceInSum<T>(xs: seq<T>, zs: seq<T>, i: nat, ys: seq<T>)
    requires i < |xs|
    ensures Splice(xs + zs, i, ys) == Splice(xs, i, ys) + zs
  {
  }

  lemma IndexInSum<T>(xs: seq<T>, zs: seq<T>, x: T)
    ensures IndexOf(xs + zs, x) == if x in xs then IndexOf(xs, x) else |xs| + IndexOf(zs, x)
  {
    var i := IndexOf(xs + zs, x);
    var j := if x in xs then IndexOf(xs, x) else |xs| + IndexOf(zs, x);
    assert forall k :: 0 <= k < j ==> (xs + zs)[k] != x;
    assert j < |xs + zs| ==> (xs + zs)[j] == x;
  }

  /** Replacing succeeds exactly on a listed leaf, and the leaf order changes at
      that one place only. */
  lemma {:induction false} ReplaceLeafLeaves(node: PaneNode, target: TabId, replacement: PaneNode)
    ensures ReplaceLeaf(node, target, replacement).Some? <==> target in LeafTabIds(node)
    ensures target in LeafTabIds(node) ==>
              LeafTabIds(ReplaceLeaf(node, target, replacement).value)
              == Substitute(LeafTabIds(node), target, LeafTabIds(replacement))
    ensures target in LeafTabIds(node) && WellShaped(node) && WellShaped(replacement) ==>
              WellShaped(ReplaceLeaf(node, target, replacement).value)
    decreases node, 1
  {
    if node.Split? {
      ReplaceInFirstLeaves(node.children, target, replacement);
    }
  }

  lemma {:induction false} ReplaceInFirstLeaves(nodes: seq<PaneNode>, target: TabId, replacement: PaneNode)
    ensures ReplaceInFirst(nodes, target, replacement).Some? <==> target in LeavesOf(nodes)
    ensures target in LeavesOf(nodes) ==>
              LeavesOf(ReplaceInFirst(nodes, target, replacement).value)
              == Substitute(LeavesOf(nodes), target, LeafTabIds(replacement))
    ensures target in LeavesOf(nodes) && AllWellShaped(nodes) && WellShaped(replacement) ==>
              AllWellShaped(ReplaceInFirst(nodes, target, replacement).value)
    decreases nodes, 0
  {
    if nodes != [] {
      ReplaceLeafLeaves(nodes[0], target, replacement);
      ReplaceInFirstLeaves(nodes[1..], target, replacement);
      if target in LeafTabIds(nodes[0]) {
        SubstituteInFirst(LeafTabIds(nodes[0]), LeavesOf(nodes[1..]), target, LeafTabIds(replacement));
      } else if target in LeavesOf(nodes[1..]) {
        SubstituteInSecond(LeafTabIds(nodes[0]), LeavesOf(nodes[1..]), target, LeafTabIds(replacement));
      }
    }
  }

  lemma {:induction false} LeavesOfSum(left: seq<PaneNode>, right: seq<PaneNode>)
    ensures LeavesOf(left + right) == LeavesOf(left) + LeavesOf(right)
    ensures AllWellShaped(left + right) <==> AllWellShaped(left) && AllWellShaped(right)
    decreases left
  {
    if left == [] {
      assert left + right == right;
    } else {
      assert (left + right)[1..] == left[1..] + right;
      LeavesOfSum(left[1..], right);
    }
  }

  lemma DistinctParts<T>(xs: seq<T>, ys: seq<T>)
    requires Distinct(xs + ys)
    ensures Distinct(xs) && Distinct(ys)
    ensures forall x :: x in xs ==> x !in ys
  {
    forall i, j | 0 <= i < j < |xs| ensures xs[i] != xs[j] {
      assert (xs + ys)[i] != (xs + ys)[j];
    }
    forall i, j | 0 <= i < j < |ys| ensures ys[i] != ys[j] {
      assert (xs + ys)[|xs| + i] != (xs + ys)[|xs| + j];
    }
    forall i, j | 0 <= i < |xs| && 0 <= j < |ys| ensures xs[i] != ys[j] {
      assert (xs + ys)[i] != (xs + ys)[|xs| + j];
    }
  }

  lemma WithoutInFirst<T>(xs: seq<T>, zs: seq<T>, x: T)
    requires x in xs
    ensures Without(xs + zs, x) == Without(xs, x) + zs
  {
    IndexInSum(xs, zs, x);
    RemoveInFirst(xs, zs, IndexOf(xs, x));
  }

  lemma WithoutInSecond<T>(xs: seq<T>, zs: seq<T>, x: T)
    requires x !in xs
    ensures Without(xs + zs, x) == xs + Without(zs, x)
  {
    IndexInSum(xs, zs, x);
    if x in zs {
      RemoveInSecond(xs, zs, IndexOf(zs, x));
    }
  }

  lemma RemoveInFirst<T>(xs: seq<T>, zs: seq<T>, i: nat)
    requires i < |xs|
    ensures RemoveAt(xs + zs, i) == RemoveAt(xs, i) + zs
  {
  }

  lemma RemoveInSecond<T>(xs: seq<T>, zs: seq<T>, j: nat)
    requires j < |zs|
    ensures RemoveAt(xs + zs, |xs| + j) == xs + RemoveAt(zs, j)
  {
  }

  /** Removing finds exactly the listed leaves. On a split it drops that one
      leaf, keeps the order of the others and leaves a well shaped tree. */
  lemma {:induction false} RemoveLeafLeaves(node: PaneNode, target: TabId)
    requires WellShaped(node) && Distinct(LeafTabIds(node))
    ensures RemoveLeaf(node, target).Some? <==> target in LeafTabIds(node)
    ensures node.Split? && target in LeafTabIds(node) ==>
              LeafTabIds(RemoveLeaf(node, target).value) == Without(LeafTabIds(node), target)
    ensures target in LeafTabIds(node) ==> WellShaped(RemoveLeaf(node, target).value)
    decreases node, 1
  {
    if node.Split? {
      var children := node.children;
      var i := DirectLeaf(children, target);
      if i < |children| {
        RemoveDirectLeaf(node, target, i);
      } else {
        RemoveFromFirstLeaves(children, target);
        NormalizedWeightsAddUpToOne(node.weights);
      }
    }
  }

  lemma RemoveDirectLeaf(node: PaneNode, target: TabId, i: nat)
    requires node.Split? && WellShaped(node) && Distinct(LeafTabIds(node))
    requires i == DirectLeaf(node.children, target) < |node.children|
    ensures target in LeafTabIds(node)
    ensures RemoveLeaf(node, target).Some?
    ensures LeafTabIds(RemoveLeaf(node, target).value) == Without(LeafTabIds(node), target)
    ensures WellShaped(RemoveLeaf(node, target).value)
  {
    var kept := RemoveAt(node.children, i);
    DropDirectLeaf(node.children, target, i);
    NormalizedWeightsAddUpToOne(RemoveAt(node.weights, i));
    if |kept| == 1 {
      OnlyChild(kept);
    }
  }

  lemma OnlyChild(nodes: seq<PaneNode>)
    requires |nodes| == 1
    ensures LeavesOf(nodes) == LeafTabIds(nodes[0])
    ensures AllWellShaped(nodes) <==> WellShaped(nodes[0])
  {
  }

  lemma DropDirectLeaf(nodes: seq<PaneNode>, target: TabId, i: nat)
    requires i < |nodes| && nodes[i] == Leaf(target) && Distinct(LeavesOf(nodes))
    ensures target in LeavesOf(nodes)
    ensures LeavesOf(RemoveAt(nodes, i)) == Without(LeavesOf(nodes), target)
    ensures AllWellShaped(nodes) ==> AllWellShaped(RemoveAt(nodes, i))
  {
    var before, after := nodes[..i], nodes[i + 1..];
    var there := [Leaf(target)];
    assert nodes == before + (there + after);
    LeavesOfSum(before, there + after);
    LeavesOfSum(there, after);
    LeavesOfSum(before, after);
    OnlyChild(there);
    DropMiddle(LeavesOf(before), target, LeavesOf(after));
  }

  lemma DropMiddle<T>(xs: seq<T>, x: T, zs: seq<T>)
    requires Distinct(xs + ([x] + zs))
    ensures x in xs + ([x] + zs)
    ensures Without(xs + ([x] + zs), x) == xs + zs
  {
    DistinctParts(xs, [x] + zs);
    assert ([x] + zs)[0] == x;
    WithoutInSecond(xs, [x] + zs, x);
    WithoutInFirst([x], zs, x);
    assert Without([x], x) == [];
    assert [] + zs == zs;
  }

  lemma {:induction false} RemoveFromFirstLeaves(nodes: seq<PaneNode>, target: TabId)
    requires AllWellShaped(nodes) && Distinct(LeavesOf(nodes))
    requires Leaf(target) !in nodes
    ensures RemoveFromFirst(nodes, target).Some? <==> target in LeavesOf(nodes)
    ensures target in LeavesOf(nodes) ==>
              LeavesOf(RemoveFromFirst(nodes, target).value) == Without(LeavesOf(nodes), target)
    ensures target in LeavesOf(nodes) ==> AllWellShaped(RemoveFromFirst(nodes, target).value)
    decreases nodes, 0
  {
    if nodes != [] {
      DistinctParts(LeafTabIds(nodes[0]), LeavesOf(nodes[1..]));
      RemoveLeafLeaves(nodes[0], target);
      assert nodes[0] != Leaf(target);
      RemoveFromFirstLeaves(nodes[1..], target);
      if target in LeafTabIds(nodes[0]) {
        WithoutInFirst(LeafTabIds(nodes[0]), LeavesOf(nodes[1..]), target);
      } else {
        WithoutInSecond(LeafTabIds(nodes[0]), LeavesOf(nodes[1..]), target);
      }
    }
  }

  // ----- splitting a leaf and closing the new pane

  /** Closing the pane a split has just opened gives back the same tree: same
      shape, same directions, same shares. */
  lemma {:induction false} CloseUndoesSplit(node: PaneNode, source: TabId, added: TabId, direction: Direction)
    requires WellShaped(node) && Distinct(LeafTabIds(node))
    requires source in LeafTabIds(node) && added !in LeafTabIds(node)
    ensures var grown := ReplaceLeaf(node, source, SplitOf(direction, source, added));
            grown.Some? && RemoveLeaf(grown.value, added) == Some(node)
    decreases node, 1
  {
    var pane := SplitOf(direction, source, added);
    ReplaceLeafLeaves(node, source, pane);
    match node
    case Leaf(_) =>
      assert pane.children[1] == Leaf(added) && pane.children[0] == Leaf(source);
      assert RemoveAt(pane.children, 1) == [Leaf(source)];
    case Split(_, children, weights) =>
      CloseUndoesSplitInFirst(children, source, added, direction);
      NormalizedWeightsAddUpToOne(weights);
  }

  lemma {:induction false} CloseUndoesSplitInFirst(nodes: seq<PaneNode>, source: TabId, added: TabId, direction: Direction)
    requires AllWellShaped(nodes) && Distinct(LeavesOf(nodes))
    requires source in LeavesOf(nodes) && added !in LeavesOf(nodes)
    ensures var grown := ReplaceInFirst(nodes, source, SplitOf(direction, source, added));
            grown.Some? && Leaf(added) !in grown.value && RemoveFromFirst(grown.value, added) == Some(nodes)
    decreases nodes, 0
  {
    var pane := SplitOf(direction, source, added);
    DirectLeavesAreListed(nodes, added);
    ReplaceLeafLeaves(nodes[0], source, pane);
    ReplaceInFirstLeaves(nodes, source, pane);
    DistinctParts(LeafTabIds(nodes[0]), LeavesOf(nodes[1..]));
    if source in LeafTabIds(nodes[0]) {
      CloseUndoesSplit(nodes[0], source, added, direction);
      var grown := ReplaceInFirst(nodes, source, pane).value;
      assert grown[1..] == nodes[1..];
      assert [nodes[0]] + nodes[1..] == nodes;
      assert grown[0] == ReplaceLeaf(nodes[0], source, pane).value;
      assert grown[0].Split?;
    } else {
      CloseUndoesSplitInFirst(nodes[1..], source, added, direction);
      RemoveLeafLeaves(nodes[0], added);
      var grown := ReplaceInFirst(nodes, source, pane).value;
      assert grown[1..] == ReplaceInFirst(nodes[1..], source, pane).value;
      assert [nodes[0]] + nodes[1..] == nodes;
    }
  }

  lemma {:induction false} DirectLeavesAreListed(nodes: seq<PaneNode>, id: TabId)
    ensures Leaf(id) in nodes ==> id in LeavesOf(nodes)
  {
    if nodes != [] {
      DirectLeavesAreListed(nodes[1..], id);
    }
  }

  // ----- dragging a divider

  /** New shares change no leaf and keep the tree well shaped. */
  lemma {:induction false} SetWeightsKeepsLeaves(node: PaneNode, path: seq<nat>, weights: seq<real>)
    requires SetWeightsAtPath(node, path, weights).Some?
    ensures LeafTabIds(SetWeightsAtPath(node, path, weights).value) == LeafTabIds(node)
    ensures WellShaped(node) ==> WellShaped(SetWeightsAtPath(node, path, weights).value)
    ensures SetWeightsAtPath(node, path, weights).value.Split?
    decreases node
  {
    if path == [] {
      if weights != [] {
        NormalizedWeightsAddUpToOne(weights);
      }
    } else {
      var children, k := node.children, path[0];
      SetWeightsKeepsLeaves(children[k], path[1..], weights);
      var child := SetWeightsAtPath(children[k], path[1..], weights).value;
      SameLeavesInPlace(children, k, child);
    }
  }

  lemma SameLeavesInPlace(nodes: seq<PaneNode>, k: nat, node: PaneNode)
    requires k < |nodes| && LeafTabIds(node) == LeafTabIds(nodes[k])
    ensures LeavesOf(nodes[k := node]) == LeavesOf(nodes)
    ensures AllWellShaped(nodes) && (WellShaped(nodes[k]) ==> WellShaped(node)) ==> AllWellShaped(nodes[k := node])
  {
    var before, after := nodes[..k], nodes[k + 1..];
    LeavesOfSum(before, [nodes[k]] + after);
    LeavesOfSum([nodes[k]], after);
    LeavesOfSum(before, [node] + after);
    LeavesOfSum([node], after);
    OnlyChild([nodes[k]]);
    OnlyChild([node]);
    assert nodes == before + ([nodes[k]] + after);
    assert nodes[k := node] == before + ([node] + after);
  }
}
