/** The tab list as a forest of pane trees.

    Every tab of the workspace is in one list. Some tabs own a pane tree whose
    leaves are other tabs of the same list; a leaf points back at the tab that
    owns its tree. This module says when such a list is a forest and which
    elementary edits keep it one. */
module TabForest {
  import opened Wrappers
  import opened Sequences
  import opened Panes

  datatype SessionSource = Cli | Mcp

  datatype Tab = Tab(
    id: TabId,
    sessionType: string,
    isBackground: bool,
    source: Option<SessionSource>,
    paneRoot: Option<PaneNode>,
    paneRootTabId: Option<TabId>)

  function Leaves(tab: Tab): seq<TabId> {
    if tab.paneRoot.Some? then LeafTabIds(tab.paneRoot.value) else []
  }

  ghost function Ids(tabs: seq<Tab>): (ids: set<TabId>)
    ensures forall i :: 0 <= i < |tabs| ==> tabs[i].id in ids
  {
    set i | 0 <= i < |tabs| :: tabs[i].id
  }

  /** The first tab with this id, or the length of the list. */
  function IndexOfId(tabs: seq<Tab>, id: TabId): (i: nat)
    ensures i <= |tabs|
    ensures i < |tabs| <==> id in Ids(tabs)
    ensures i < |tabs| ==> tabs[i].id == id
    ensures forall k :: 0 <= k < i ==> tabs[k].id != id
  {
    if tabs == [] then 0
    else if tabs[0].id == id then 0
    else
      var i := IndexOfId(tabs[1..], id);
      assert forall k :: 0 <= k < |tabs[1..]| ==> tabs[1..][k] == tabs[k + 1];
      assert id in Ids(tabs) ==> id in Ids(tabs[1..]) by {
        if id in Ids(tabs) {
          var k :| 0 <= k < |tabs| && tabs[k].id == id;
          assert tabs[1..][k - 1].id == id;
        }
      }
      1 + i
  }

  /** The first tab whose pane tree lists `leaf`, or the length of the list. */
  function ContainingRoot(tabs: seq<Tab>, leaf: TabId): (i: nat)
    ensures i <= |tabs|
    ensures i < |tabs| ==> leaf in Leaves(tabs[i])
    ensures forall k :: 0 <= k < i ==> leaf !in Leaves(tabs[k])
  {
    if tabs == [] then 0
    else if leaf in Leaves(tabs[0]) then 0
    else 1 + ContainingRoot(tabs[1..], leaf)
  }

  // ----- the invariant

  ghost predicate UniqueIds(tabs: seq<Tab>) {
    forall i, j :: 0 <= i < j < |tabs| ==> tabs[i].id != tabs[j].id
  }

  /** Tab `j` is a leaf, other than the root's own, of the tree tab `i` owns. It
      comes after the root, points back at it and owns no tree itself. */
  ghost predicate LeafOf(tabs: seq<Tab>, i: nat, j: nat)
    requires i < |tabs| && j < |tabs|
  {
    i < j && tabs[j].paneRoot.None? && tabs[j].paneRootTabId == Some(tabs[i].id)
  }

  ghost predicate TreeOk(tabs: seq<Tab>, i: nat)
    requires i < |tabs| && tabs[i].paneRoot.Some?
  {
    var leaves := Leaves(tabs[i]);
    && WellShaped(tabs[i].paneRoot.value)
    && Distinct(leaves) && |leaves| >= 2
    && tabs[i].id in leaves
    && tabs[i].paneRootTabId.None?
    && (forall l :: l in leaves ==> l in Ids(tabs))
    && (forall j :: 0 <= j < |tabs| && j != i && tabs[j].id in leaves ==> LeafOf(tabs, i, j))
  }

  /** Tab `j` is listed by the tree of the tab it points at. */
  ghost predicate Attached(tabs: seq<Tab>, j: nat)
    requires j < |tabs|
  {
    exists i :: 0 <= i < |tabs| && tabs[i].paneRoot.Some? && tabs[j].id in Leaves(tabs[i])
                && tabs[j].paneRootTabId == Some(tabs[i].id)
  }

  /** The tab list is a forest. `loose` are the tabs that carry a back pointer
      without being in any tree: a new pane whose split is still starting. */
  ghost predicate Forest(tabs: seq<Tab>, loose: set<TabId>) {
    && UniqueIds(tabs)
    && (forall i :: 0 <= i < |tabs| && tabs[i].paneRoot.Some? ==> TreeOk(tabs, i))
    && (forall j :: 0 <= j < |tabs| && tabs[j].paneRootTabId.Some? && tabs[j].id !in loose ==> Attached(tabs, j))
    && (forall j :: 0 <= j < |tabs| && tabs[j].id in loose ==> tabs[j].paneRoot.None?)
    && (forall i, l :: 0 <= i < |tabs| && l in Leaves(tabs[i]) ==> l !in loose)
  }

  /** The trees of different tabs share no leaf. */
  lemma TreesAreDisjoint(tabs: seq<Tab>, loose: set<TabId>, a: nat, b: nat, leaf: TabId)
    requires Forest(tabs, loose)
    requires a < |tabs| && b < |tabs|
    requires leaf in Leaves(tabs[a]) && leaf in Leaves(tabs[b])
    ensures a == b
  {
    var k := IndexOfId(tabs, leaf);
    assert TreeOk(tabs, a) && TreeOk(tabs, b);
    assert k != a ==> LeafOf(tabs, a, k);
    assert k != b ==> LeafOf(tabs, b, k);
  }

  /** A tab that owns no tree and is in none is free of back pointers. */
  lemma StandaloneTabIsFree(tabs: seq<Tab>, loose: set<TabId>, k: nat)
    requires Forest(tabs, loose)
    requires k < |tabs| && tabs[k].id !in loose && ContainingRoot(tabs, tabs[k].id) == |tabs|
    ensures tabs[k].paneRoot.None? && tabs[k].paneRootTabId.None?
  {
  }

  // ----- pushing a tab

  lemma PushKeepsForest(tabs: seq<Tab>, loose: set<TabId>, tab: Tab)
    requires Forest(tabs, loose) && tab.id !in Ids(tabs) && tab.paneRoot.None?
    requires tab.id in loose || tab.paneRootTabId.None?
    ensures Forest(tabs + [tab], loose)
  {
    var next := tabs + [tab];
    forall i | 0 <= i < |next| && next[i].paneRoot.Some? ensures TreeOk(next, i) {
      assert TreeOk(tabs, i);
      forall l | l in Leaves(tabs[i]) ensures l in Ids(next) {
        var k := IndexOfId(tabs, l);
        assert next[k].id == l;
      }
      assert forall j :: 0 <= j < |tabs| && j != i && tabs[j].id in Leaves(tabs[i]) ==> LeafOf(tabs, i, j);
    }
    forall j | 0 <= j < |next| && next[j].paneRootTabId.Some? && next[j].id !in loose
      ensures Attached(next, j)
    {
      assert Attached(tabs, j);
      var i :| 0 <= i < |tabs| && tabs[i].paneRoot.Some? && tabs[j].id in Leaves(tabs[i])
               && tabs[j].paneRootTabId == Some(tabs[i].id);
      assert next[i] == tabs[i];
    }
  }

  /** A fresh id is in no tree, so it may start out loose. */
  lemma AddLoose(tabs: seq<Tab>, loose: set<TabId>, id: TabId)
    requires Forest(tabs, loose) && id !in Ids(tabs)
    ensures Forest(tabs, loose + {id})
  {
  }

  // ----- growing and shrinking one tree

  /** The leaves tab `i` shows: those of its tree, or itself. */
  function Shown(tab: Tab): seq<TabId> {
    if tab.paneRoot.Some? then Leaves(tab) else [tab.id]
  }

  /** A loose tab `j` may join the tree of tab `i`, which then is `tree`. */
  ghost predicate CanGrow(tabs: seq<Tab>, loose: set<TabId>, i: nat, j: nat, tree: PaneNode) {
    && Forest(tabs, loose)
    && i < j < |tabs| && tabs[j].id in loose && tabs[i].id !in loose
    && tabs[i].paneRootTabId.None?
    && (tabs[i].paneRoot.None? ==> ContainingRoot(tabs, tabs[i].id) == |tabs|)
    && WellShaped(tree) && Distinct(LeafTabIds(tree)) && |LeafTabIds(tree)| >= 2
    && (forall l :: l in LeafTabIds(tree) <==> l in Shown(tabs[i]) || l == tabs[j].id)
  }

  function Grown(tabs: seq<Tab>, i: nat, j: nat, tree: PaneNode): (next: seq<Tab>)
    requires i < |tabs| && j < |tabs|
    ensures |next| == |tabs|
  {
    tabs[i := tabs[i].(paneRoot := Some(tree))][j := tabs[j].(paneRootTabId := Some(tabs[i].id))]
  }

  lemma GrowTree(tabs: seq<Tab>, loose: set<TabId>, i: nat, j: nat, tree: PaneNode, r: nat)
    requires CanGrow(tabs, loose, i, j, tree)
    requires r < |tabs| && Grown(tabs, i, j, tree)[r].paneRoot.Some?
    ensures TreeOk(Grown(tabs, i, j, tree), r)
  {
    var next := Grown(tabs, i, j, tree);
    SameIds(tabs, next);
    assert tabs[r].paneRoot.Some? ==> TreeOk(tabs, r);
    forall k | 0 <= k < |next| && k != r && next[k].id in Leaves(next[r]) ensures LeafOf(next, r, k) {
      if k != j || r != i {
        assert tabs[k].id in Leaves(tabs[r]);
        assert LeafOf(tabs, r, k);
      }
    }
  }

  lemma GrowAttached(tabs: seq<Tab>, loose: set<TabId>, i: nat, j: nat, tree: PaneNode, k: nat)
    requires CanGrow(tabs, loose, i, j, tree)
    requires k < |tabs| && Grown(tabs, i, j, tree)[k].paneRootTabId.Some? && (k == j || tabs[k].id !in loose)
    ensures Attached(Grown(tabs, i, j, tree), k)
  {
    var next := Grown(tabs, i, j, tree);
    if k == j {
      assert next[j].id in Leaves(next[i]);
    } else {
      assert Attached(tabs, k);
      var r :| 0 <= r < |tabs| && tabs[r].paneRoot.Some? && tabs[k].id in Leaves(tabs[r])
               && tabs[k].paneRootTabId == Some(tabs[r].id);
      assert next[k].id in Leaves(next[r]);
    }
  }

  lemma GrowKeepsForest(tabs: seq<Tab>, loose: set<TabId>, i: nat, j: nat, tree: PaneNode)
    requires CanGrow(tabs, loose, i, j, tree)
    ensures Forest(Grown(tabs, i, j, tree), loose - {tabs[j].id})
  {
    var next := Grown(tabs, i, j, tree);
    forall r | 0 <= r < |next| && next[r].paneRoot.Some? ensures TreeOk(next, r) {
      GrowTree(tabs, loose, i, j, tree, r);
    }
    forall k | 0 <= k < |next| && next[k].paneRootTabId.Some? && next[k].id !in loose - {tabs[j].id}
      ensures Attached(next, k)
    {
      GrowAttached(tabs, loose, i, j, tree, k);
    }
    forall r, l | 0 <= r < |next| && l in Leaves(next[r]) ensures l !in loose - {tabs[j].id} {
      GrowLeaf(tabs, loose, i, j, tree, r, l);
    }
  }

  lemma GrowLeaf(tabs: seq<Tab>, loose: set<TabId>, i: nat, j: nat, tree: PaneNode, r: nat, l: TabId)
    requires CanGrow(tabs, loose, i, j, tree)
    requires r < |tabs| && l in Leaves(Grown(tabs, i, j, tree)[r])
    ensures l !in loose - {tabs[j].id}
  {
    if r == i {
      assert l in Shown(tabs[i]) || l == tabs[j].id;
    } else {
      assert l in Leaves(tabs[r]);
    }
  }

  lemma SameIds(tabs: seq<Tab>, next: seq<Tab>)
    requires |tabs| == |next| && forall k :: 0 <= k < |tabs| ==> next[k].id == tabs[k].id
    ensures Ids(tabs) == Ids(next)
  {
  }

  /** What is left of the tree of tab `i` once `gone` is out of it: a smaller
      tree, or none when one leaf is left. */
  ghost predicate LeavesWithout(tabs: seq<Tab>, i: nat, gone: TabId, tree: Option<PaneNode>)
    requires i < |tabs|
  {
    match tree
    case Some(node) =>
      && WellShaped(node) && Distinct(LeafTabIds(node)) && |LeafTabIds(node)| >= 2
      && (forall l :: l in LeafTabIds(node) <==> l in Leaves(tabs[i]) && l != gone)
    case None =>
      exists last :: last != gone && last in Leaves(tabs[i]) && forall l :: l in Leaves(tabs[i]) ==> l == gone || l == last
  }

  lemma ShrinkTree(tabs: seq<Tab>, loose: set<TabId>, i: nat, leaf: TabId, tree: Option<PaneNode>, r: nat)
    requires Forest(tabs, loose)
    requires i < |tabs| && tabs[i].paneRoot.Some? && leaf in Leaves(tabs[i]) && leaf != tabs[i].id
    requires LeavesWithout(tabs, i, leaf, tree)
    requires r < |tabs| && tabs[i := tabs[i].(paneRoot := tree)][r].paneRoot.Some?
    ensures TreeOk(tabs[i := tabs[i].(paneRoot := tree)], r)
    ensures leaf !in Leaves(tabs[i := tabs[i].(paneRoot := tree)][r])
  {
    var next := tabs[i := tabs[i].(paneRoot := tree)];
    assert TreeOk(tabs, r) && TreeOk(tabs, i);
    SameIds(tabs, next);
    forall k | 0 <= k < |next| && k != r && next[k].id in Leaves(next[r]) ensures LeafOf(next, r, k) {
      assert LeafOf(tabs, r, k);
    }
    if r != i && leaf in Leaves(tabs[r]) {
      TreesAreDisjoint(tabs, loose, i, r, leaf);
    }
  }

  lemma ShrinkAttached(tabs: seq<Tab>, loose: set<TabId>, i: nat, leaf: TabId, tree: Option<PaneNode>, k: nat)
    requires Forest(tabs, loose)
    requires i < |tabs| && tabs[i].paneRoot.Some? && leaf in Leaves(tabs[i]) && leaf != tabs[i].id
    requires LeavesWithout(tabs, i, leaf, tree)
    requires k < |tabs| && tabs[k].paneRootTabId.Some? && tabs[k].id !in loose && tabs[k].id != leaf
    ensures Attached(tabs[i := tabs[i].(paneRoot := tree)], k)
  {
    var next := tabs[i := tabs[i].(paneRoot := tree)];
    assert TreeOk(tabs, i);
    assert Attached(tabs, k);
    var r :| 0 <= r < |tabs| && tabs[r].paneRoot.Some? && tabs[k].id in Leaves(tabs[r])
             && tabs[k].paneRootTabId == Some(tabs[r].id);
    assert k != r;
    assert tabs[k].id in Leaves(next[r]);
  }

  /** A leaf other than the root's own leaves the tree of tab `i`; the leaf is
      loose until its tab is dropped. */
  lemma ShrinkKeepsForest(tabs: seq<Tab>, loose: set<TabId>, i: nat, leaf: TabId, tree: Option<PaneNode>)
    requires Forest(tabs, loose)
    requires i < |tabs| && tabs[i].paneRoot.Some? && leaf in Leaves(tabs[i]) && leaf != tabs[i].id
    requires LeavesWithout(tabs, i, leaf, tree)
    ensures Forest(tabs[i := tabs[i].(paneRoot := tree)], loose + {leaf})
  {
    var next := tabs[i := tabs[i].(paneRoot := tree)];
    assert TreeOk(tabs, i);
    forall r | 0 <= r < |next| && next[r].paneRoot.Some? ensures TreeOk(next, r) && leaf !in Leaves(next[r]) {
      ShrinkTree(tabs, loose, i, leaf, tree, r);
    }
    forall k | 0 <= k < |next| && next[k].paneRootTabId.Some? && next[k].id !in loose + {leaf}
      ensures Attached(next, k)
    {
      ShrinkAttached(tabs, loose, i, leaf, tree, k);
    }
    forall k | 0 <= k < |next| && next[k].id in loose + {leaf} ensures next[k].paneRoot.None? {
      assert k != i ==> next[k] == tabs[k];
      if next[k].id == leaf { assert LeafOf(tabs, i, k); }
    }
  }

  lemma SameIndices(tabs: seq<Tab>, next: seq<Tab>, id: TabId)
    requires |tabs| == |next| && UniqueIds(tabs)
    requires forall k :: 0 <= k < |tabs| ==> next[k].id == tabs[k].id
    ensures IndexOfId(next, id) == IndexOfId(tabs, id)
    ensures Ids(next) == Ids(tabs) && UniqueIds(next)
  {
    SameIds(tabs, next);
  }

  // ----- dropping tabs

  /** `retain`: the tabs whose id is not in `drop`, in order. */
  function DropIds(tabs: seq<Tab>, drop: set<TabId>): seq<Tab> {
    if tabs == [] then []
    else
      var last := tabs[|tabs| - 1];
      DropIds(tabs[..|tabs| - 1], drop) + (if last.id in drop then [] else [last])
  }

  /** `at` says where each kept tab stood before. */
  ghost predicate KeepsAt(tabs: seq<Tab>, drop: set<TabId>, next: seq<Tab>, at: seq<nat>) {
    && |at| == |next|
    && (forall k :: 0 <= k < |at| ==> at[k] < |tabs| && tabs[at[k]].id !in drop && next[k] == tabs[at[k]])
    && (forall k, m :: 0 <= k < m < |at| ==> at[k] < at[m])
    && (forall i :: 0 <= i < |tabs| && tabs[i].id !in drop ==> i in at)
  }

  lemma {:induction false} KeptAt(tabs: seq<Tab>, drop: set<TabId>) returns (at: seq<nat>)
    ensures KeepsAt(tabs, drop, DropIds(tabs, drop), at)
  {
    if tabs == [] {
      at := [];
    } else {
      var n := |tabs| - 1;
      var before := KeptAt(tabs[..n], drop);
      at := KeepsOneMore(tabs, drop, DropIds(tabs[..n], drop), before);
    }
  }

  lemma KeepsOneMore(tabs: seq<Tab>, drop: set<TabId>, next: seq<Tab>, before: seq<nat>) returns (at: seq<nat>)
    requires tabs != [] && KeepsAt(tabs[..|tabs| - 1], drop, next, before)
    ensures var last := tabs[|tabs| - 1];
            KeepsAt(tabs, drop, next + (if last.id in drop then [] else [last]), at)
  {
    var n := |tabs| - 1;
    var front := tabs[..n];
    assert forall k :: 0 <= k < n ==> front[k] == tabs[k];
    if tabs[n].id in drop {
      at := before;
      assert next + [] == next;
    } else {
      at := before + [n];
      assert at[|before|] == n;
      forall i | 0 <= i < |tabs| && tabs[i].id !in drop ensures i in at {
        assert i < n ==> i in before;
      }
    }
  }

  /** Dropping takes a tree's leaves all together or not at all. */
  ghost predicate DropsWholeTrees(tabs: seq<Tab>, drop: set<TabId>) {
    forall i, l, m :: 0 <= i < |tabs| && l in Leaves(tabs[i]) && m in Leaves(tabs[i]) && l in drop ==> m in drop
  }

  lemma DropTree(tabs: seq<Tab>, loose: set<TabId>, drop: set<TabId>, at: seq<nat>, r: nat)
    requires Forest(tabs, loose) && DropsWholeTrees(tabs, drop)
    requires KeepsAt(tabs, drop, DropIds(tabs, drop), at)
    requires r < |DropIds(tabs, drop)| && DropIds(tabs, drop)[r].paneRoot.Some?
    ensures TreeOk(DropIds(tabs, drop), r)
  {
    var next := DropIds(tabs, drop);
    DropIdsIds(tabs, drop);
    assert TreeOk(tabs, at[r]);
    forall l | l in Leaves(next[r]) ensures l !in drop {
      assert tabs[at[r]].id in Leaves(tabs[at[r]]);
    }
    forall k | 0 <= k < |next| && k != r && next[k].id in Leaves(next[r]) ensures LeafOf(next, r, k) {
      assert LeafOf(tabs, at[r], at[k]);
    }
  }

  lemma DropAttached(tabs: seq<Tab>, loose: set<TabId>, drop: set<TabId>, at: seq<nat>, k: nat)
    requires Forest(tabs, loose) && DropsWholeTrees(tabs, drop)
    requires KeepsAt(tabs, drop, DropIds(tabs, drop), at)
    requires k < |DropIds(tabs, drop)|
    requires DropIds(tabs, drop)[k].paneRootTabId.Some? && DropIds(tabs, drop)[k].id !in loose - drop
    ensures Attached(DropIds(tabs, drop), k)
  {
  }

  lemma DropKeepsForest(tabs: seq<Tab>, loose: set<TabId>, drop: set<TabId>)
    requires Forest(tabs, loose) && DropsWholeTrees(tabs, drop)
    ensures Forest(DropIds(tabs, drop), loose - drop)
    ensures Ids(DropIds(tabs, drop)) == Ids(tabs) - drop
  {
    var next := DropIds(tabs, drop);
    var at := KeptAt(tabs, drop);
    DropIdsIds(tabs, drop);
    forall r | 0 <= r < |next| && next[r].paneRoot.Some? ensures TreeOk(next, r) {
      DropTree(tabs, loose, drop, at, r);
    }
    forall k | 0 <= k < |next| && next[k].paneRootTabId.Some? && next[k].id !in loose - drop
      ensures Attached(next, k)
    {
      DropAttached(tabs, loose, drop, at, k);
    }
  }

  lemma DropIdsIds(tabs: seq<Tab>, drop: set<TabId>)
    ensures Ids(DropIds(tabs, drop)) == Ids(tabs) - drop
  {
    var next := DropIds(tabs, drop);
    var at := KeptAt(tabs, drop);
    forall id | id in Ids(tabs) - drop ensures id in Ids(next) {
      var i := IndexOfId(tabs, id);
      var k :| 0 <= k < |at| && at[k] == i;
      assert next[k].id == id;
    }
    forall id | id in Ids(next) ensures id in Ids(tabs) - drop {
      var k := IndexOfId(next, id);
      assert tabs[at[k]].id == id;
    }
  }

  // ----- promoting a leaf in the place of its root

  function Repoint(tabs: seq<Tab>, from: TabId, to: TabId): (next: seq<Tab>)
    ensures |next| == |tabs|
    ensures forall k :: 0 <= k < |tabs| ==>
              next[k] == if tabs[k].paneRootTabId == Some(from)
                         then tabs[k].(paneRootTabId := Some(to)) else tabs[k]
  {
    seq(|tabs|, k requires 0 <= k < |tabs| =>
      if tabs[k].paneRootTabId == Some(from) then tabs[k].(paneRootTabId := Some(to)) else tabs[k])
  }

  /** The list with root `i` and its leaf `p` exchanged: the leaf now owns `tree`,
      every leaf points at it, and the old root is loose. */
  function Promoted(tabs: seq<Tab>, i: nat, p: nat, tree: Option<PaneNode>): (next: seq<Tab>)
    requires i < |tabs| && p < |tabs|
    ensures |next| == |tabs|
    ensures i != p ==> next[i] == tabs[p].(paneRoot := tree, paneRootTabId := None)
    ensures next[p] == tabs[i].(paneRoot := None, paneRootTabId := Some(tabs[p].id))
    ensures forall k :: 0 <= k < |tabs| && k != i && k != p ==>
              next[k] == if tabs[k].paneRootTabId == Some(tabs[i].id)
                         then tabs[k].(paneRootTabId := Some(tabs[p].id)) else tabs[k]
  {
    Repoint(tabs, tabs[i].id, tabs[p].id)
      [i := tabs[p].(paneRoot := tree, paneRootTabId := None)]
      [p := tabs[i].(paneRoot := None, paneRootTabId := Some(tabs[p].id))]
  }

  lemma PromotedIds(tabs: seq<Tab>, i: nat, p: nat, tree: Option<PaneNode>)
    requires UniqueIds(tabs) && i < p < |tabs|
    ensures UniqueIds(Promoted(tabs, i, p, tree))
    ensures Ids(Promoted(tabs, i, p, tree)) == Ids(tabs)
  {
  }

  ghost predicate CanPromote(tabs: seq<Tab>, loose: set<TabId>, i: nat, p: nat, tree: Option<PaneNode>) {
    && Forest(tabs, loose)
    && i < |tabs| && p < |tabs| && i != p
    && tabs[i].paneRoot.Some? && tabs[p].id in Leaves(tabs[i])
    && LeavesWithout(tabs, i, tabs[i].id, tree)
  }

  lemma PromoteTree(tabs: seq<Tab>, loose: set<TabId>, i: nat, p: nat, tree: Option<PaneNode>, r: nat)
    requires CanPromote(tabs, loose, i, p, tree)
    requires r < |tabs| && Promoted(tabs, i, p, tree)[r].paneRoot.Some?
    ensures TreeOk(Promoted(tabs, i, p, tree), r)
    ensures tabs[i].id !in Leaves(Promoted(tabs, i, p, tree)[r])
  {
    var next := Promoted(tabs, i, p, tree);
    assert TreeOk(tabs, i) && LeafOf(tabs, i, p);
    PromotedIds(tabs, i, p, tree);
    if r == i {
      forall k | 0 <= k < |next| && k != i && next[k].id in Leaves(next[i]) ensures LeafOf(next, i, k) {
        assert k != p;
        assert LeafOf(tabs, i, k);
      }
    } else {
      assert TreeOk(tabs, r);
      assert tabs[i].id in Leaves(tabs[r]) ==> tabs[i].id in Leaves(tabs[i]);
      OtherTree(tabs, loose, i, r, tabs[i].id);
      OtherTree(tabs, loose, i, r, tabs[p].id);
      forall k | 0 <= k < |next| && k != r && next[k].id in Leaves(next[r]) ensures LeafOf(next, r, k) {
        assert k != i && k != p;
        assert LeafOf(tabs, r, k);
      }
    }
  }

  lemma OtherTree(tabs: seq<Tab>, loose: set<TabId>, a: nat, b: nat, leaf: TabId)
    requires Forest(tabs, loose)
    requires a < |tabs| && b < |tabs| && a != b && leaf in Leaves(tabs[a])
    ensures leaf !in Leaves(tabs[b])
  {
  }

  lemma PromoteKeepsForest(tabs: seq<Tab>, loose: set<TabId>, i: nat, p: nat, tree: Option<PaneNode>)
    requires CanPromote(tabs, loose, i, p, tree)
    ensures i < p
    ensures Forest(Promoted(tabs, i, p, tree), loose + {tabs[i].id})
  {
    var next := Promoted(tabs, i, p, tree);
    assert TreeOk(tabs, i) && LeafOf(tabs, i, p);
    PromotedIds(tabs, i, p, tree);
    forall r | 0 <= r < |next| && next[r].paneRoot.Some?
      ensures TreeOk(next, r) && tabs[i].id !in Leaves(next[r])
    {
      PromoteTree(tabs, loose, i, p, tree, r);
    }
    forall k | 0 <= k < |next| && next[k].paneRootTabId.Some? && next[k].id !in loose + {tabs[i].id}
      ensures Attached(next, k)
    {
      PromoteAttached(tabs, loose, i, p, tree, k);
    }
    forall r, l | 0 <= r < |next| && l in Leaves(next[r]) ensures l !in loose + {tabs[i].id} {
      assert r != i ==> next[r].paneRoot == if r == p then None else tabs[r].paneRoot;
    }
  }

  lemma PromoteAttached(tabs: seq<Tab>, loose: set<TabId>, i: nat, p: nat, tree: Option<PaneNode>, k: nat)
    requires CanPromote(tabs, loose, i, p, tree)
    requires k < |tabs| && Promoted(tabs, i, p, tree)[k].paneRootTabId.Some?
    requires Promoted(tabs, i, p, tree)[k].id !in loose + {tabs[i].id}
    ensures Attached(Promoted(tabs, i, p, tree), k)
  {
  }

  // ----- the top-level tabs

  /** The tabs without a back pointer, in list order: those that get a tab of
      their own in the bar. */
  function TopLevel(tabs: seq<Tab>): seq<TabId> {
    if tabs == [] then []
    else
      var last := tabs[|tabs| - 1];
      TopLevel(tabs[..|tabs| - 1]) + (if last.paneRootTabId.None? then [last.id] else [])
  }

  function Rename(ids: seq<TabId>, from: TabId, to: TabId): seq<TabId> {
    seq(|ids|, k requires 0 <= k < |ids| => if ids[k] == from then to else ids[k])
  }

  /** Dropping tabs that carry a back pointer does not show in the bar. */
  lemma {:induction false} DropBelowTopLevel(tabs: seq<Tab>, drop: set<TabId>)
    requires forall k :: 0 <= k < |tabs| && tabs[k].id in drop ==> tabs[k].paneRootTabId.Some?
    ensures TopLevel(DropIds(tabs, drop)) == TopLevel(tabs)
  {
    if tabs != [] {
      var n := |tabs| - 1;
      var before := DropIds(tabs[..n], drop);
      DropBelowTopLevel(tabs[..n], drop);
      if tabs[n].id in drop {
        assert DropIds(tabs, drop) == before;
      } else {
        assert (before + [tabs[n]])[..|before|] == before;
      }
    }
  }

  /** Lists that agree on which entries are top-level, up to one renaming. */
  lemma {:induction false} RenamedTopLevel(tabs: seq<Tab>, next: seq<Tab>, from: TabId, to: TabId)
    requires |tabs| == |next|
    requires forall k :: 0 <= k < |tabs| ==> tabs[k].paneRootTabId.None? == next[k].paneRootTabId.None?
    requires forall k :: 0 <= k < |tabs| && tabs[k].paneRootTabId.None? ==>
               next[k].id == if tabs[k].id == from then to else tabs[k].id
    ensures TopLevel(next) == Rename(TopLevel(tabs), from, to)
  {
    if tabs != [] {
      var n := |tabs| - 1;
      RenamedTopLevel(tabs[..n], next[..n], from, to);
      assert next[n].paneRootTabId.None? == tabs[n].paneRootTabId.None?;
    }
  }
}
