/** How a close that is under way goes stale: exactly which steps of which commands
    make its removal break a tree. */
module WorkspaceStale {
  import opened Wrappers
  import opened Sequences
  import opened Panes
  import opened TabForest
  import opened TabLayout
  import opened WorkspaceRuns
  import opened WorkspaceStarts
  import opened WorkspaceTheorems
  import opened WorkspaceClosing

  /** The tab is the root of a tree. */
  predicate OwnsTree(tabs: seq<Tab>, id: TabId) {
    var k := IndexOfId(tabs, id);
    k < |tabs| && tabs[k].paneRoot.Some?
  }

  /** If the close went on from here undisturbed, its removal would break a tree. */
  ghost predicate Doomed(tabs: seq<Tab>, close: Close) {
    match close
    case Reading(id, leaves) => if leaves == [] then OwnsTree(tabs, id) else !DropsWholeTrees(tabs, ToSet(leaves))
    case Stopping(_, _, _, _) => WouldBreak(tabs, close)
  }

  lemma FirstReadIsFresh(tabs: seq<Tab>, loose: set<TabId>, id: TabId)
    requires Forest(tabs, loose)
    ensures !Doomed(tabs, FirstRead(tabs, id))
  {
    if OwnsTree(tabs, id) {
      assert TreeOk(tabs, IndexOfId(tabs, id));
    }
    if FirstRead(tabs, id).leaves != [] {
      ReadIsWhole(tabs, loose, id);
    }
  }

  /** A tree has two leaves at least, so dropping one tab breaks any tree it is in. */
  lemma OneLeafIsNotWhole(tabs: seq<Tab>, c: nat, id: TabId)
    requires c < |tabs| && tabs[c].paneRoot.Some? && TreeOk(tabs, c) && id in Leaves(tabs[c])
    ensures !DropsWholeTrees(tabs, {id})
  {
    var other := OtherLeaf(Leaves(tabs[c]), id);
    BreaksATree(tabs, {id}, c, id, other);
  }

  lemma BreaksATree(tabs: seq<Tab>, drop: set<TabId>, i: nat, gone: TabId, kept: TabId)
    requires i < |tabs| && gone in Leaves(tabs[i]) && kept in Leaves(tabs[i]) && gone in drop && kept !in drop
    ensures !DropsWholeTrees(tabs, drop)
  {
  }

  lemma OtherLeaf(leaves: seq<TabId>, id: TabId) returns (other: TabId)
    requires Distinct(leaves) && |leaves| >= 2
    ensures other in leaves && other != id
  {
    assert leaves[0] != leaves[1];
    other := if leaves[0] == id then leaves[1] else leaves[0];
  }

  lemma OneTabIsWholeIff(tabs: seq<Tab>, loose: set<TabId>, id: TabId)
    requires Forest(tabs, loose)
    ensures DropsWholeTrees(tabs, {id}) <==> ContainingRoot(tabs, id) == |tabs|
  {
    var c := ContainingRoot(tabs, id);
    if c < |tabs| {
      OneLeafIsNotWhole(tabs, c, id);
    }
  }

  /** The second read takes the path for leaves with a root of its own exactly when
      its tab has got a tree since the first one; otherwise it changes nothing. */
  lemma SecondReadIsDoomedIff(tabs: seq<Tab>, loose: set<TabId>, close: Close)
    requires Forest(tabs, loose) && close.Reading?
    ensures WouldBreak(tabs, SecondRead(tabs, close)) <==> Doomed(tabs, close)
    ensures close.leaves == [] && Doomed(tabs, close) ==> SecondRead(tabs, close).leafOf == Some(close.id)
  {
    if close.leaves == [] {
      assert ToSet([close.id]) == {close.id};
      OneTabIsWholeIff(tabs, loose, close.id);
      OwnerIsItsRootIff(tabs, loose, close.id);
    }
  }

  /** A tab owns a tree exactly when it is the root of the tree that lists it. */
  lemma OwnerIsItsRootIff(tabs: seq<Tab>, loose: set<TabId>, id: TabId)
    requires Forest(tabs, loose)
    ensures var c := ContainingRoot(tabs, id);
            && (OwnsTree(tabs, id) <==> c < |tabs| && tabs[c].id == id)
            && (c < |tabs| ==> IndexOfId(tabs, tabs[c].id) == c)
  {
    var c, k := ContainingRoot(tabs, id), IndexOfId(tabs, id);
    if c < |tabs| {
      RootIndex(tabs, loose, c);
    }
    if OwnsTree(tabs, id) {
      assert TreeOk(tabs, k);
      TreesAreDisjoint(tabs, loose, c, k, id);
    }
  }

  // ----- pointers

  /** A tab that stays in the list keeps its pointer, unless the root it points at
      goes or it is the new pane of a split. */
  ghost predicate KeepsPointer(tabs: seq<Tab>, next: seq<Tab>, id: TabId, root: TabId) {
    id in Ids(tabs) && id in Ids(next) && root in Ids(next) && tabs[IndexOfId(tabs, id)].paneRootTabId == Some(root) ==>
      next[IndexOfId(next, id)].paneRootTabId == Some(root)
  }

  lemma DropKeepsPointer(tabs: seq<Tab>, drop: set<TabId>, id: TabId, root: TabId)
    requires UniqueIds(tabs)
    ensures KeepsPointer(tabs, DropIds(tabs, drop), id, root)
  {
    if id in Ids(DropIds(tabs, drop)) {
      DropTypes(tabs, drop, id);
    }
  }

  lemma EditKeepsPointer(tabs: seq<Tab>, i: nat, tree: Option<PaneNode>, drop: set<TabId>, id: TabId, root: TabId)
    requires UniqueIds(tabs) && i < |tabs|
    ensures KeepsPointer(tabs, DropIds(tabs[i := tabs[i].(paneRoot := tree)], drop), id, root)
  {
    var shrunk := tabs[i := tabs[i].(paneRoot := tree)];
    SameIds(tabs, shrunk);
    SameIndices(tabs, shrunk, id);
    DropKeepsPointer(shrunk, drop, id, root);
    DropIdsIds(shrunk, drop);
  }

  lemma PromoteKeepsPointer(tabs: seq<Tab>, loose: set<TabId>, i: nat, tree: PaneNode, id: TabId, root: TabId)
    requires Forest(tabs, loose) && i < |tabs| && tabs[i].paneRoot.Some?
    requires LeafTabIds(tree) != [] && LeavesWithout(tabs, i, tabs[i].id, KeptTree(tree))
    requires forall l :: l in LeafTabIds(tree) <==> l in Leaves(tabs[i]) && l != tabs[i].id
    ensures KeepsPointer(tabs, PromoteSurvivor(tabs, i, tree, LeafTabIds(tree)).tabs, id, root)
  {
    assert TreeOk(tabs, i);
    assert LeafTabIds(tree)[0] in LeafTabIds(tree);
    var p := IndexOfId(tabs, LeafTabIds(tree)[0]);
    assert LeafOf(tabs, i, p);
    PromoteIsSwapAndDrop(tabs, i, p, tree);
    PromoteKeepsForest(tabs, loose, i, p, KeptTree(tree));
    SwapKeepsPointer(tabs, i, p, KeptTree(tree), id, root);
  }

  lemma SwapKeepsPointer(tabs: seq<Tab>, i: nat, p: nat, tree: Option<PaneNode>, id: TabId, root: TabId)
    requires UniqueIds(tabs) && i < p < |tabs| && tabs[p].paneRootTabId == Some(tabs[i].id)
    requires UniqueIds(Promoted(tabs, i, p, tree))
    ensures KeepsPointer(tabs, DropIds(Promoted(tabs, i, p, tree), {tabs[i].id}), id, root)
  {
    var swapped := Promoted(tabs, i, p, tree);
    var next := DropIds(swapped, {tabs[i].id});
    DropIdsIds(swapped, {tabs[i].id});
    if id in Ids(tabs) && id in Ids(next) && root in Ids(next) && tabs[IndexOfId(tabs, id)].paneRootTabId == Some(root) {
      var k := IndexOfId(tabs, id);
      assert k != i && k != p && root != tabs[i].id;
      assert swapped[k] == tabs[k];
      IndexIsUnique(swapped, k);
      DropTypes(swapped, {tabs[i].id}, id);
    }
  }

  lemma IndexIsUnique(tabs: seq<Tab>, k: nat)
    requires UniqueIds(tabs) && k < |tabs|
    ensures IndexOfId(tabs, tabs[k].id) == k
  {
  }

  lemma RemoveSplitPaneKeepsPointer(tabs: seq<Tab>, loose: set<TabId>, at: TabId, pane: TabId, id: TabId, root: TabId)
    requires Forest(tabs, loose)
    ensures KeepsPointer(tabs, RemoveSplitPane(tabs, at, pane).tabs, id, root)
  {
    var i := RequestedRoot(tabs, at, pane);
    if i < |tabs| && tabs[i].paneRoot.Some? && pane in Leaves(tabs[i]) {
      var tree := TreeWithout(tabs[i].paneRoot.value, pane);
      TreeWithoutLeaf(tabs, loose, i, pane);
      if pane == tabs[i].id {
        PromoteKeepsPointer(tabs, loose, i, tree, id, root);
      } else {
        EditKeepsPointer(tabs, i, KeptTree(tree), {pane}, id, root);
      }
    }
  }

  lemma CloseTabKeepsPointer(tabs: seq<Tab>, loose: set<TabId>, closed: TabId, id: TabId, root: TabId)
    requires Forest(tabs, loose)
    ensures KeepsPointer(tabs, CloseTab(tabs, closed), id, root)
  {
    if ClosesAsLeaf(tabs, closed) {
      var r := IndexOfId(tabs, tabs[ContainingRoot(tabs, closed)].id);
      EditKeepsPointer(tabs, r, ClosedTree(tabs[r].paneRoot, closed), {closed}, id, root);
    } else {
      DropKeepsPointer(tabs, ToSet(IdsToClose(tabs, closed)), id, root);
    }
  }

  lemma ClosePaneKeepsPointer(w: Workspace, at: TabId, pane: TabId, id: TabId, root: TabId)
    requires Forest(w.tabs, {})
    ensures KeepsPointer(w.tabs, ClosePane(w, at, pane).tabs, id, root)
  {
    var i := RequestedRoot(w.tabs, at, pane);
    if i < |w.tabs| {
      RemoveSplitPaneKeepsPointer(w.tabs, {}, w.tabs[i].id, pane, id, root);
    }
  }

  lemma GrownKeepsPointer(tabs: seq<Tab>, i: nat, j: nat, tree: PaneNode, id: TabId, root: TabId)
    requires UniqueIds(tabs) && i < j < |tabs| && id != tabs[j].id
    ensures KeepsPointer(tabs, Grown(tabs, i, j, tree), id, root)
  {
    SameIndices(tabs, Grown(tabs, i, j, tree), id);
  }

  lemma AttachKeepsPointer(m: Machine, id: TabId, root: TabId)
    requires Inv(m) && m.pending.Starting? && id !in Loose(m.pending)
    ensures KeepsPointer(m.workspace.tabs, Attach(m).workspace.tabs, id, root)
  {
    var tabs, p := m.workspace.tabs, m.pending;
    RolledBackIff(m);
    if Attach(m).pending.Focusing? {
      FinishSplitIsGrown(tabs, Loose(p), p.source, p.added, p.direction);
      var i := Host(tabs, p.source);
      GrownKeepsPointer(tabs, i, IndexOfId(tabs, p.added), GrownTree(tabs[i], p.source, p.added, p.direction), id, root);
    }
  }

  lemma PushKeepsPointer(tabs: seq<Tab>, tab: Tab, id: TabId, root: TabId)
    requires tab.id !in Ids(tabs)
    ensures KeepsPointer(tabs, tabs + [tab], id, root)
  {
    IndexAfterPush(tabs, tab, id);
  }

  lemma SplitStepKeepsPointer(m: Machine, c: Command, id: TabId, root: TabId)
    requires Inv(m) && Enabled(m, c) && IsSplitStep(c) && id !in Loose(m.pending)
    ensures KeepsPointer(m.workspace.tabs, Next(m, c).workspace.tabs, id, root)
  {
    match c
    case BeginSplit(source, added, _, profileType) =>
      var split := SplitTab(m.workspace, source, added, profileType);
      if split.Some? {
        PushKeepsPointer(m.workspace.tabs, split.value, id, root);
      }
    case StartSplit(_, _) =>
    case AttachSplit => AttachKeepsPointer(m, id, root);
    case FinishFocus =>
    case RollBack => DropKeepsPointer(m.workspace.tabs, {m.pending.added}, id, root);
  }

  lemma EditsKeepPointers(m: Machine, c: Command, id: TabId, root: TabId)
    requires ForestInv(m) && IsEdit(c)
    ensures KeepsPointer(m.workspace.tabs, Edit(m.workspace, c).tabs, id, root)
  {
    EditIsSameForest(m.workspace, c);
    SameIndices(m.workspace.tabs, Edit(m.workspace, c).tabs, id);
  }

  lemma StepKeepsPointer(m: Machine, c: Command, id: TabId, root: TabId)
    requires Inv(m) && Enabled(m, c) && id !in Loose(m.pending)
    ensures KeepsPointer(m.workspace.tabs, Next(m, c).workspace.tabs, id, root)
  {
    if IsSplitStep(c) {
      SplitStepKeepsPointer(m, c, id, root);
    } else if IsStartStep(c) {
      if c.OpenSession? {
        PushKeepsPointer(m.workspace.tabs, NewTab(c.tab, c.sessionType, c.isBackground, c.source, None), id, root);
      }
    } else if IsEdit(c) {
      EditsKeepPointers(m, c, id, root);
    } else if c.ClosePaneOf? {
      ClosePaneKeepsPointer(m.workspace, c.rootTabId, c.pane, id, root);
    } else if c.CloseTabOf? {
      CloseTabKeepsPointer(m.workspace.tabs, Loose(m.pending), c.closed, id, root);
    }
  }

  lemma BeginSplitLists(m: Machine, c: Command, id: TabId)
    requires Enabled(m, c) && c.BeginSplit?
    ensures id in Ids(Next(m, c).workspace.tabs) ==> id in Ids(m.workspace.tabs) || c.added == id
    ensures Loose(Next(m, c).pending) <= {c.added}
  {
    var split := SplitTab(m.workspace, c.splitSource, c.added, c.profileType);
    if split.Some? {
      IndexAfterPush(m.workspace.tabs, split.value, c.added);
    }
  }

  lemma SplitStepLists(m: Machine, c: Command, id: TabId)
    requires Inv(m) && Enabled(m, c) && IsSplitStep(c)
    ensures id in Ids(Next(m, c).workspace.tabs) ==> id in Ids(m.workspace.tabs) || NewId(c) == Some(id)
    ensures id in Loose(Next(m, c).pending) ==> id in Loose(m.pending) || NewId(c) == Some(id)
  {
    match c
    case BeginSplit(_, _, _, _) => BeginSplitLists(m, c, id);
    case StartSplit(_, _) =>
    case AttachSplit => AttachKeepsForest(m);
    case FinishFocus =>
    case RollBack => RollBackKeepsForest(m.workspace.tabs, m.pending.added);
  }

  lemma StepLists(m: Machine, c: Command, id: TabId)
    requires Inv(m) && Enabled(m, c)
    ensures id in Ids(Next(m, c).workspace.tabs) ==> id in Ids(m.workspace.tabs) || NewId(c) == Some(id)
    ensures id in Loose(Next(m, c).pending) ==> id in Loose(m.pending) || NewId(c) == Some(id)
  {
    if IsSplitStep(c) {
      SplitStepLists(m, c, id);
    } else if IsStartStep(c) {
      if c.OpenSession? {
        IndexAfterPush(m.workspace.tabs, NewTab(c.tab, c.sessionType, c.isBackground, c.source, None), c.tab);
      }
    } else if IsEdit(c) {
      EditStep(m, c);
    } else if c.ClosePaneOf? {
      ClosePaneKeepsListed(m, c, id);
    } else if c.CloseTabOf? {
      CloseTabKeepsListed(m, c, id);
    }
  }

  // ----- proper leaves stay so

  lemma GoneIsWhole(tabs: seq<Tab>, loose: set<TabId>, id: TabId)
    requires Forest(tabs, loose) && id !in Ids(tabs)
    ensures DropsWholeTrees(tabs, {id})
  {
    forall i | 0 <= i < |tabs| ensures id !in Leaves(tabs[i]) {
      assert tabs[i].paneRoot.Some? ==> TreeOk(tabs, i);
    }
  }

  lemma ProperLeafPoints(tabs: seq<Tab>, loose: set<TabId>, id: TabId, root: TabId)
    requires Forest(tabs, loose) && IsProperLeaf(tabs, id, root)
    ensures id in Ids(tabs) && id !in loose && tabs[IndexOfId(tabs, id)].paneRootTabId == Some(root)
    ensures tabs[IndexOfId(tabs, id)].paneRoot.None?
  {
    var r := IndexOfId(tabs, root);
    assert TreeOk(tabs, r);
    assert LeafOf(tabs, r, IndexOfId(tabs, id));
  }

  lemma PointsIsProperLeaf(tabs: seq<Tab>, loose: set<TabId>, id: TabId, root: TabId)
    requires Forest(tabs, loose) && id in Ids(tabs) && id !in loose
    requires tabs[IndexOfId(tabs, id)].paneRootTabId == Some(root)
    ensures IsProperLeaf(tabs, id, root)
  {
    var j := IndexOfId(tabs, id);
    assert Attached(tabs, j);
    var i :| 0 <= i < |tabs| && tabs[i].paneRoot.Some? && tabs[j].id in Leaves(tabs[i])
             && tabs[j].paneRootTabId == Some(tabs[i].id);
    assert TreeOk(tabs, i);
    RootIndex(tabs, loose, i);
  }

  /** As long as tab and root are both listed a proper leaf stays one. */
  lemma ProperLeafStays(m: Machine, next: Machine, id: TabId, root: TabId)
    requires ForestInv(m) && ForestInv(next) && IsProperLeaf(m.workspace.tabs, id, root)
    requires id in Ids(next.workspace.tabs) && root in Ids(next.workspace.tabs) && id !in Loose(next.pending)
    requires KeepsPointer(m.workspace.tabs, next.workspace.tabs, id, root)
    ensures IsProperLeaf(next.workspace.tabs, id, root)
  {
    ProperLeafPoints(m.workspace.tabs, Loose(m.pending), id, root);
    PointsIsProperLeaf(next.workspace.tabs, Loose(next.pending), id, root);
  }

  // ----- whole trees stay whole

  lemma InheritsKeepsWhole(tabs: seq<Tab>, next: seq<Tab>, drop: set<TabId>)
    requires Inherits(tabs, next) && DropsWholeTrees(tabs, drop)
    ensures DropsWholeTrees(next, drop)
  {
    forall i, l, m | 0 <= i < |next| && l in Leaves(next[i]) && m in Leaves(next[i]) && l in drop ensures m in drop {
      assert InOneTree(tabs, next[i]);
    }
  }

  lemma ShrinkKeepsWhole(
      tabs: seq<Tab>, loose: set<TabId>, i: nat, leaf: TabId, tree: Option<PaneNode>, drop: set<TabId>)
    requires Forest(tabs, loose) && DropsWholeTrees(tabs, drop)
    requires i < |tabs| && tabs[i].paneRoot.Some? && leaf in Leaves(tabs[i]) && leaf != tabs[i].id
    requires LeavesWithout(tabs, i, leaf, tree)
    ensures DropsWholeTrees(DropIds(tabs[i := tabs[i].(paneRoot := tree)], {leaf}), drop)
  {
    var shrunk := tabs[i := tabs[i].(paneRoot := tree)];
    ShrinkKeepsForest(tabs, loose, i, leaf, tree);
    EditInherits(tabs, loose, shrunk);
    InheritsKeepsWhole(tabs, shrunk, drop);
    DropInherits(shrunk, loose + {leaf}, {leaf});
    InheritsKeepsWhole(shrunk, DropIds(shrunk, {leaf}), drop);
  }

  lemma PromoteKeepsWhole(tabs: seq<Tab>, loose: set<TabId>, i: nat, tree: PaneNode, drop: set<TabId>)
    requires Forest(tabs, loose) && DropsWholeTrees(tabs, drop) && i < |tabs| && tabs[i].paneRoot.Some?
    requires LeafTabIds(tree) != [] && LeavesWithout(tabs, i, tabs[i].id, KeptTree(tree))
    requires forall l :: l in LeafTabIds(tree) <==> l in Leaves(tabs[i]) && l != tabs[i].id
    ensures DropsWholeTrees(PromoteSurvivor(tabs, i, tree, LeafTabIds(tree)).tabs, drop)
  {
    assert TreeOk(tabs, i);
    assert LeafTabIds(tree)[0] in LeafTabIds(tree);
    var p := IndexOfId(tabs, LeafTabIds(tree)[0]);
    assert LeafOf(tabs, i, p);
    var swapped := Promoted(tabs, i, p, KeptTree(tree));
    PromoteIsSwapAndDrop(tabs, i, p, tree);
    PromoteKeepsForest(tabs, loose, i, p, KeptTree(tree));
    PromoteInherits(tabs, loose, i, p, KeptTree(tree));
    InheritsKeepsWhole(tabs, swapped, drop);
    DropInherits(swapped, loose + {tabs[i].id}, {tabs[i].id});
    InheritsKeepsWhole(swapped, DropIds(swapped, {tabs[i].id}), drop);
  }

  lemma RemoveSplitPaneKeepsWhole(tabs: seq<Tab>, loose: set<TabId>, root: TabId, pane: TabId, drop: set<TabId>)
    requires Forest(tabs, loose) && DropsWholeTrees(tabs, drop)
    ensures DropsWholeTrees(RemoveSplitPane(tabs, root, pane).tabs, drop)
  {
    var i := RequestedRoot(tabs, root, pane);
    if i < |tabs| && tabs[i].paneRoot.Some? && pane in Leaves(tabs[i]) {
      assert TreeOk(tabs, i);
      TreeWithoutLeaf(tabs, loose, i, pane);
      var tree := TreeWithout(tabs[i].paneRoot.value, pane);
      if pane == tabs[i].id {
        PromoteKeepsWhole(tabs, loose, i, tree, drop);
      } else {
        ShrinkKeepsWhole(tabs, loose, i, pane, KeptTree(tree), drop);
      }
    }
  }

  lemma ClosePaneKeepsWhole(w: Workspace, root: TabId, pane: TabId, drop: set<TabId>)
    requires Forest(w.tabs, {}) && DropsWholeTrees(w.tabs, drop)
    ensures DropsWholeTrees(ClosePane(w, root, pane).tabs, drop)
  {
    var i := RequestedRoot(w.tabs, root, pane);
    if i < |w.tabs| {
      RemoveSplitPaneKeepsWhole(w.tabs, {}, w.tabs[i].id, pane, drop);
    }
  }

  lemma CloseTabKeepsWhole(tabs: seq<Tab>, loose: set<TabId>, id: TabId, drop: set<TabId>)
    requires Forest(tabs, loose) && DropsWholeTrees(tabs, drop)
    ensures DropsWholeTrees(CloseTab(tabs, id), drop)
  {
    if ClosesAsLeaf(tabs, id) {
      var i := ContainingRoot(tabs, id);
      LeafPathIsForChildren(tabs, loose, id);
      CloseTabAgreesWithClosePane(tabs, loose, i, id);
      RootIsRequested(tabs, loose, i, id);
      TreeWithoutLeaf(tabs, loose, i, id);
      assert TreeOk(tabs, i);
      ShrinkKeepsWhole(tabs, loose, i, id, KeptTree(TreeWithout(tabs[i].paneRoot.value, id)), drop);
    } else {
      DropInherits(tabs, loose, ToSet(IdsToClose(tabs, id)));
      InheritsKeepsWhole(tabs, CloseTab(tabs, id), drop);
    }
  }

  lemma PushKeepsWhole(tabs: seq<Tab>, tab: Tab, drop: set<TabId>)
    requires DropsWholeTrees(tabs, drop) && tab.paneRoot.None?
    ensures DropsWholeTrees(tabs + [tab], drop)
  {
  }

  lemma EditKeepsWhole(m: Machine, c: Command, drop: set<TabId>)
    requires ForestInv(m) && IsEdit(c) && DropsWholeTrees(m.workspace.tabs, drop)
    ensures DropsWholeTrees(Edit(m.workspace, c).tabs, drop)
  {
    EditIsSameForest(m.workspace, c);
    EditInherits(m.workspace.tabs, Loose(m.pending), Edit(m.workspace, c).tabs);
    InheritsKeepsWhole(m.workspace.tabs, Edit(m.workspace, c).tabs, drop);
  }

  lemma BeginSplitKeepsWhole(m: Machine, c: Command, drop: set<TabId>)
    requires c.BeginSplit? && DropsWholeTrees(m.workspace.tabs, drop)
    ensures DropsWholeTrees(Next(m, c).workspace.tabs, drop)
  {
    var split := SplitTab(m.workspace, c.splitSource, c.added, c.profileType);
    if split.Some? {
      PushKeepsWhole(m.workspace.tabs, split.value, drop);
    }
  }

  lemma SplitStepKeepsWhole(m: Machine, c: Command, drop: set<TabId>)
    requires Inv(m) && Enabled(m, c) && IsSplitStep(c) && !c.AttachSplit? && DropsWholeTrees(m.workspace.tabs, drop)
    ensures DropsWholeTrees(Next(m, c).workspace.tabs, drop)
  {
    match c
    case BeginSplit(_, _, _, _) => BeginSplitKeepsWhole(m, c, drop);
    case StartSplit(_, _) =>
    case FinishFocus =>
    case RollBack =>
      DropInherits(m.workspace.tabs, Loose(m.pending), {m.pending.added});
      InheritsKeepsWhole(m.workspace.tabs, DropIds(m.workspace.tabs, {m.pending.added}), drop);
  }

  lemma CommandKeepsWhole(m: Machine, c: Command, drop: set<TabId>)
    requires Inv(m) && Enabled(m, c) && !c.AttachSplit? && DropsWholeTrees(m.workspace.tabs, drop)
    ensures DropsWholeTrees(Next(m, c).workspace.tabs, drop)
  {
    if IsSplitStep(c) {
      SplitStepKeepsWhole(m, c, drop);
    } else if IsStartStep(c) {
      if c.OpenSession? {
        PushKeepsWhole(m.workspace.tabs, NewTab(c.tab, c.sessionType, c.isBackground, c.source, None), drop);
      }
    } else if IsEdit(c) {
      EditKeepsWhole(m, c, drop);
    } else if c.ClosePaneOf? {
      ClosePaneKeepsWhole(m.workspace, c.rootTabId, c.pane, drop);
    } else if c.CloseTabOf? {
      CloseTabKeepsWhole(m.workspace.tabs, Loose(m.pending), c.closed, drop);
    }
  }


  lemma RemovalKeepsWhole(m: Machine, close: Close, drop: set<TabId>)
    requires Inv(m) && close.Stopping? && DropsWholeTrees(m.workspace.tabs, drop)
    ensures DropsWholeTrees(TabsAfter(m.workspace.tabs, close), drop)
  {
    var tabs := m.workspace.tabs;
    match close.leafOf
    case None =>
      DropInherits(tabs, Loose(m.pending), ToSet(close.ids));
      InheritsKeepsWhole(tabs, DropIds(tabs, ToSet(close.ids)), drop);
    case Some(root) =>
      if IsProperLeaf(tabs, close.id, root) {
        ProperLeafRemoval(tabs, Loose(m.pending), close);
        CloseTabKeepsWhole(tabs, Loose(m.pending), close.id, drop);
      } else if root in Ids(tabs) {
        OtherLeafRemoval(tabs, Loose(m.pending), close);
        DropInherits(tabs, Loose(m.pending), {close.id});
        InheritsKeepsWhole(tabs, DropIds(tabs, {close.id}), drop);
      }
  }

  lemma GrownIsWholeIff(tabs: seq<Tab>, i: nat, j: nat, tree: PaneNode, drop: set<TabId>)
    requires i < j < |tabs| && DropsWholeTrees(tabs, drop) && tabs[j].paneRoot.None?
    requires forall l :: l in LeafTabIds(tree) <==> l in Shown(tabs[i]) || l == tabs[j].id
    requires tabs[i].paneRoot.Some? ==> tabs[i].id in Leaves(tabs[i])
    ensures DropsWholeTrees(Grown(tabs, i, j, tree), drop) <==> (tabs[j].id in drop <==> tabs[i].id in drop)
  {
    var next := Grown(tabs, i, j, tree);
    assert Leaves(next[i]) == LeafTabIds(tree);
    assert tabs[i].id in Shown(tabs[i]);
    assert tabs[i].id in Leaves(next[i]) && tabs[j].id in Leaves(next[i]);
    forall l | l in LeafTabIds(tree) && l != tabs[j].id ensures l in drop <==> tabs[i].id in drop {
      assert l in Shown(tabs[i]);
      assert tabs[i].paneRoot.Some? ==> l in Leaves(tabs[i]);
    }
    if tabs[j].id in drop <==> tabs[i].id in drop {
      forall r, l, m | 0 <= r < |next| && l in Leaves(next[r]) && m in Leaves(next[r]) && l in drop ensures m in drop {
        if r != i {
          assert Leaves(next[r]) == Leaves(tabs[r]);
        }
      }
    }
  }


  // ----- who gets a tree

  lemma OwnsAfterDrop(tabs: seq<Tab>, drop: set<TabId>, id: TabId)
    requires UniqueIds(tabs)
    ensures OwnsTree(DropIds(tabs, drop), id) <==> OwnsTree(tabs, id) && id !in drop
  {
    DropIdsIds(tabs, drop);
    if id in Ids(tabs) && id !in drop {
      DropTypes(tabs, drop, id);
    }
  }

  lemma OwnsAfterEdit(tabs: seq<Tab>, i: nat, tree: Option<PaneNode>, drop: set<TabId>, id: TabId)
    requires UniqueIds(tabs) && i < |tabs| && tabs[i].paneRoot.Some? && !OwnsTree(tabs, id)
    ensures !OwnsTree(DropIds(tabs[i := tabs[i].(paneRoot := tree)], drop), id)
  {
    var shrunk := tabs[i := tabs[i].(paneRoot := tree)];
    SameIds(tabs, shrunk);
    SameIndices(tabs, shrunk, id);
    OwnsAfterDrop(shrunk, drop, id);
    IndexIsUnique(tabs, i);
  }

  /** Closing this pane of this root gives the tab a tree: it is the first pane left
      of two or more when the root's own pane goes. */
  predicate Promotes(tabs: seq<Tab>, root: TabId, pane: TabId, id: TabId) {
    var i := RequestedRoot(tabs, root, pane);
    && i < |tabs| && pane == tabs[i].id && pane in Leaves(tabs[i])
    && var rest := Without(Leaves(tabs[i]), pane);
    |rest| >= 2 && rest[0] == id
  }

  lemma PromotedAt(tabs: seq<Tab>, i: nat, p: nat, tree: Option<PaneNode>, k: nat)
    requires i < p < |tabs| && k < |tabs|
    ensures Promoted(tabs, i, p, tree)[k].id == tabs[if k == i then p else if k == p then i else k].id
    ensures Promoted(tabs, i, p, tree)[k].paneRoot == if k == i then tree else if k == p then None else tabs[k].paneRoot
  {
  }

  lemma SwapOwnsIff(tabs: seq<Tab>, i: nat, p: nat, tree: Option<PaneNode>, id: TabId)
    requires UniqueIds(tabs) && i < p < |tabs| && UniqueIds(Promoted(tabs, i, p, tree)) && !OwnsTree(tabs, id)
    ensures OwnsTree(Promoted(tabs, i, p, tree), id) <==> id == tabs[p].id && tree.Some?
  {
    var swapped := Promoted(tabs, i, p, tree);
    var k := IndexOfId(swapped, id);
    PromotedAt(tabs, i, p, tree, i);
    IndexIsUnique(swapped, i);
    if k < |swapped| {
      PromotedAt(tabs, i, p, tree, k);
      IndexIsUnique(tabs, k);
      IndexIsUnique(tabs, p);
    }
  }

  lemma SwappedOwnsIff(tabs: seq<Tab>, i: nat, p: nat, tree: Option<PaneNode>, id: TabId)
    requires UniqueIds(tabs) && i < p < |tabs| && UniqueIds(Promoted(tabs, i, p, tree)) && !OwnsTree(tabs, id)
    ensures OwnsTree(DropIds(Promoted(tabs, i, p, tree), {tabs[i].id}), id) <==> id == tabs[p].id && tree.Some?
  {
    OwnsAfterDrop(Promoted(tabs, i, p, tree), {tabs[i].id}, id);
    SwapOwnsIff(tabs, i, p, tree, id);
    assert tabs[i].id != tabs[p].id;
  }

  lemma PromoteOwnsIff(tabs: seq<Tab>, loose: set<TabId>, i: nat, tree: PaneNode, id: TabId)
    requires Forest(tabs, loose) && i < |tabs| && tabs[i].paneRoot.Some? && !OwnsTree(tabs, id)
    requires LeafTabIds(tree) != [] && LeavesWithout(tabs, i, tabs[i].id, KeptTree(tree))
    requires forall l :: l in LeafTabIds(tree) <==> l in Leaves(tabs[i]) && l != tabs[i].id
    ensures OwnsTree(PromoteSurvivor(tabs, i, tree, LeafTabIds(tree)).tabs, id)
            <==> id == LeafTabIds(tree)[0] && KeptTree(tree).Some?
  {
    assert TreeOk(tabs, i);
    assert LeafTabIds(tree)[0] in LeafTabIds(tree);
    var p := IndexOfId(tabs, LeafTabIds(tree)[0]);
    assert LeafOf(tabs, i, p);
    PromoteIsSwapAndDrop(tabs, i, p, tree);
    PromoteKeepsForest(tabs, loose, i, p, KeptTree(tree));
    SwappedOwnsIff(tabs, i, p, KeptTree(tree), id);
  }

  lemma RemoveSplitPaneOwnsIff(tabs: seq<Tab>, loose: set<TabId>, root: TabId, pane: TabId, id: TabId)
    requires Forest(tabs, loose) && !OwnsTree(tabs, id)
    ensures OwnsTree(RemoveSplitPane(tabs, root, pane).tabs, id) <==> Promotes(tabs, root, pane, id)
  {
    var i := RequestedRoot(tabs, root, pane);
    if i < |tabs| && tabs[i].paneRoot.Some? && pane in Leaves(tabs[i]) {
      assert TreeOk(tabs, i);
      TreeWithoutLeaf(tabs, loose, i, pane);
      var tree := TreeWithout(tabs[i].paneRoot.value, pane);
      if pane == tabs[i].id {
        PromoteOwnsIff(tabs, loose, i, tree, id);
      } else {
        OwnsAfterEdit(tabs, i, KeptTree(tree), {pane}, id);
      }
    }
  }

  lemma ClosePaneOwnsIff(w: Workspace, root: TabId, pane: TabId, id: TabId)
    requires Forest(w.tabs, {}) && !OwnsTree(w.tabs, id)
    ensures OwnsTree(ClosePane(w, root, pane).tabs, id) <==> Promotes(w.tabs, root, pane, id)
  {
    var tabs, i := w.tabs, RequestedRoot(w.tabs, root, pane);
    if i < |tabs| && pane in Leaves(tabs[i]) {
      assert TreeOk(tabs, i);
      RootIsRequested(tabs, {}, i, pane);
      RemoveSplitPaneOwnsIff(tabs, {}, tabs[i].id, pane, id);
    }
  }

  lemma CloseTabGivesNoTree(tabs: seq<Tab>, loose: set<TabId>, closed: TabId, id: TabId)
    requires Forest(tabs, loose) && !OwnsTree(tabs, id)
    ensures !OwnsTree(CloseTab(tabs, closed), id)
  {
    if ClosesAsLeaf(tabs, closed) {
      var c := ContainingRoot(tabs, closed);
      RootIndex(tabs, loose, c);
      OwnsAfterEdit(tabs, c, ClosedTree(tabs[c].paneRoot, closed), {closed}, id);
    } else {
      OwnsAfterDrop(tabs, ToSet(IdsToClose(tabs, closed)), id);
    }
  }

  lemma RemovalGivesNoTree(tabs: seq<Tab>, loose: set<TabId>, close: Close, id: TabId)
    requires Forest(tabs, loose) && close.Stopping? && !OwnsTree(tabs, id)
    ensures !OwnsTree(TabsAfter(tabs, close), id)
  {
    match close.leafOf
    case None => OwnsAfterDrop(tabs, ToSet(close.ids), id);
    case Some(root) =>
      if IsProperLeaf(tabs, close.id, root) {
        ProperLeafRemoval(tabs, loose, close);
        CloseTabGivesNoTree(tabs, loose, close.id, id);
      } else if root in Ids(tabs) {
        OtherLeafRemoval(tabs, loose, close);
        OwnsAfterDrop(tabs, {close.id}, id);
      }
  }

  lemma PushGivesNoTree(tabs: seq<Tab>, tab: Tab, id: TabId)
    requires tab.id !in Ids(tabs) && tab.paneRoot.None? && !OwnsTree(tabs, id)
    ensures !OwnsTree(tabs + [tab], id)
  {
    IndexAfterPush(tabs, tab, id);
    var k := IndexOfId(tabs + [tab], id);
    if k < |tabs| {
      assert tabs[k].id == id;
    }
  }

  lemma SplitStepGivesNoTree(m: Machine, c: Command, id: TabId)
    requires Inv(m) && Enabled(m, c) && IsSplitStep(c) && !c.AttachSplit? && !OwnsTree(m.workspace.tabs, id)
    ensures !OwnsTree(Next(m, c).workspace.tabs, id)
  {
    match c
    case BeginSplit(source, added, _, profileType) =>
      var split := SplitTab(m.workspace, source, added, profileType);
      if split.Some? {
        PushGivesNoTree(m.workspace.tabs, split.value, id);
      }
    case StartSplit(_, _) =>
    case FinishFocus =>
    case RollBack => OwnsAfterDrop(m.workspace.tabs, {m.pending.added}, id);
  }

  lemma EditGivesNoTree(m: Machine, c: Command, id: TabId)
    requires ForestInv(m) && IsEdit(c) && !OwnsTree(m.workspace.tabs, id)
    ensures !OwnsTree(Edit(m.workspace, c).tabs, id)
  {
    EditIsSameForest(m.workspace, c);
    SameIndices(m.workspace.tabs, Edit(m.workspace, c).tabs, id);
  }

  /** No command but the attach step of a split gives a tab a tree, except that the
      close of a pane promotes one. */
  lemma CommandOwnsIff(m: Machine, c: Command, id: TabId)
    requires Inv(m) && Enabled(m, c) && !c.AttachSplit? && !OwnsTree(m.workspace.tabs, id)
    ensures OwnsTree(Next(m, c).workspace.tabs, id)
            <==> c.ClosePaneOf? && Promotes(m.workspace.tabs, c.rootTabId, c.pane, id)
  {
    if IsSplitStep(c) {
      SplitStepGivesNoTree(m, c, id);
    } else if IsStartStep(c) {
      if c.OpenSession? {
        PushGivesNoTree(m.workspace.tabs, NewTab(c.tab, c.sessionType, c.isBackground, c.source, None), id);
      }
    } else if IsEdit(c) {
      EditGivesNoTree(m, c, id);
    } else if c.ClosePaneOf? {
      ClosePaneOwnsIff(m.workspace, c.rootTabId, c.pane, id);
    } else if c.CloseTabOf? {
      CloseTabGivesNoTree(m.workspace.tabs, Loose(m.pending), c.closed, id);
    }
  }

  // ----- exactly when a close goes stale

  /** What the attach step does to a close: before its second read, the tab had no tree
      and is the one that takes the pane; on the whole-tab path, of the new pane and
      the tab that takes it the close has read one and not the other; on the path for
      leaves, the tab takes the pane or is taken into another root's tree. */
  ghost predicate AttachDooms(m: Machine, close: Close) {
    var tabs := m.workspace.tabs;
    && m.pending.Starting? && m.pending.source in Ids(tabs) && m.pending.added in Ids(tabs)
    && Host(tabs, m.pending.source) < |tabs|
    && var host, added := tabs[Host(tabs, m.pending.source)].id, m.pending.added;
    match close
    case Reading(id, leaves) => if leaves == [] then host == id else (added in leaves) != (host in leaves)
    case Stopping(_, ids, None, _) => (added in ids) != (host in ids)
    case Stopping(id, _, Some(root), _) => root in Ids(tabs) && (host == id || (added == id && host != root))
  }

  /** The step makes the close stale: an attach, or the promotion of its tab between
      its two reads. */
  ghost predicate Dooms(s: Desk, step: Step, close: Close)
    requires CanTake(s, step)
  {
    var tabs := s.machine.workspace.tabs;
    match step
    case Do(AttachSplit) => AttachDooms(s.machine, close)
    case Do(ClosePaneOf(root, pane)) => close.Reading? && close.leaves == [] && Promotes(tabs, root, pane, close.id)
    case RemovePane =>
      close.Reading? && close.leaves == []
      && Promotes(tabs, s.paneClose.value.resolved, s.paneClose.value.pane, close.id)
    case _ => false
  }

  lemma GrownOwnsIff(tabs: seq<Tab>, i: nat, j: nat, tree: PaneNode, id: TabId)
    requires UniqueIds(tabs) && i < j < |tabs| && !OwnsTree(tabs, id)
    ensures OwnsTree(Grown(tabs, i, j, tree), id) <==> id == tabs[i].id
  {
    SameIndices(tabs, Grown(tabs, i, j, tree), id);
    IndexIsUnique(tabs, i);
  }

  /** The facts about an attach that takes place. */
  lemma AttachGrows(m: Machine) returns (i: nat, j: nat, tree: PaneNode)
    requires Inv(m) && m.pending.Starting?
    requires m.pending.source in Ids(m.workspace.tabs) && m.pending.added in Ids(m.workspace.tabs)
    ensures var tabs := m.workspace.tabs;
            && i == Host(tabs, m.pending.source) && i < j < |tabs| && tabs[j].id == m.pending.added
            && Attach(m).workspace.tabs == Grown(tabs, i, j, tree) && Attach(m).pending.Focusing?
            && tabs[j].paneRoot.None? && tabs[i].paneRootTabId.None? && tabs[i].id !in Loose(m.pending)
            && (forall l :: l in LeafTabIds(tree) <==> l in Shown(tabs[i]) || l == tabs[j].id)
            && (tabs[i].paneRoot.Some? ==> tabs[i].id in Leaves(tabs[i]))
            && (tabs[i].paneRoot.None? ==> ContainingRoot(tabs, tabs[i].id) == |tabs|)
  {
    var tabs, p := m.workspace.tabs, m.pending;
    i, j := Host(tabs, p.source), IndexOfId(tabs, p.added);
    tree := GrownTree(tabs[i], p.source, p.added, p.direction);
    FinishSplitIsGrown(tabs, Loose(p), p.source, p.added, p.direction);
    HostIsTopLevel(tabs, Loose(p), p.source);
    GrownTreeLeaves(tabs, Loose(p), p.source, p.added, p.direction);
    assert tabs[i].paneRoot.Some? ==> TreeOk(tabs, i);
  }

  lemma AttachKeepsProperLeaf(m: Machine, id: TabId, root: TabId)
    requires Inv(m) && m.pending.Starting? && IsProperLeaf(m.workspace.tabs, id, root)
    ensures IsProperLeaf(Attach(m).workspace.tabs, id, root)
  {
    AttachKeepsForest(m);
    ProperLeafPoints(m.workspace.tabs, Loose(m.pending), id, root);
    AttachKeepsPointer(m, id, root);
    ProperLeafStays(m, Attach(m), id, root);
  }

  /** A tab in no tree becomes a proper leaf of a root only as the new pane of that
      root. */
  lemma GrownProperLeafIff(tabs: seq<Tab>, loose: set<TabId>, i: nat, j: nat, tree: PaneNode, id: TabId, root: TabId)
    requires Forest(tabs, loose) && i < j < |tabs| && ContainingRoot(tabs, id) == |tabs| && tabs[j].paneRoot.None?
    requires forall l :: l in LeafTabIds(tree) <==> l in Shown(tabs[i]) || l == tabs[j].id
    ensures IsProperLeaf(Grown(tabs, i, j, tree), id, root) <==> id == tabs[j].id && root == tabs[i].id
  {
    var next, r := Grown(tabs, i, j, tree), IndexOfId(tabs, root);
    SameIndices(tabs, next, root);
    RootIndex(tabs, loose, i);
    RootIndex(tabs, loose, j);
    if r == i {
      assert Leaves(next[i]) == LeafTabIds(tree);
      assert tabs[i].paneRoot.Some? ==> id !in Leaves(tabs[i]);
    } else if r < |tabs| {
      assert Leaves(next[r]) == Leaves(tabs[r]);
      assert id !in Leaves(tabs[r]);
    }
  }

  lemma GrownWouldBreakIff(tabs: seq<Tab>, loose: set<TabId>, i: nat, j: nat, tree: PaneNode, id: TabId, root: TabId)
    requires Forest(tabs, loose) && i < j < |tabs| && ContainingRoot(tabs, id) == |tabs| && tabs[j].paneRoot.None?
    requires forall l :: l in LeafTabIds(tree) <==> l in Shown(tabs[i]) || l == tabs[j].id
    requires tabs[i].paneRoot.Some? ==> tabs[i].id in Leaves(tabs[i])
    requires root in Ids(tabs)
    ensures !IsProperLeaf(Grown(tabs, i, j, tree), id, root) && !DropsWholeTrees(Grown(tabs, i, j, tree), {id})
            <==> tabs[i].id == id || (tabs[j].id == id && tabs[i].id != root)
  {
    OneTabIsWholeIff(tabs, loose, id);
    GrownProperLeafIff(tabs, loose, i, j, tree, id, root);
    GrownIsWholeIff(tabs, i, j, tree, {id});
  }

  lemma AttachLeafDoomsIff(m: Machine, close: Close)
    requires Inv(m) && m.pending.Starting? && close.Stopping? && close.leafOf.Some?
    requires m.pending.source in Ids(m.workspace.tabs) && m.pending.added in Ids(m.workspace.tabs)
    requires !WouldBreak(m.workspace.tabs, close)
    ensures WouldBreak(Attach(m).workspace.tabs, close) <==> AttachDooms(m, close)
  {
    var tabs, id, root := m.workspace.tabs, close.id, close.leafOf.value;
    var i, j, tree := AttachGrows(m);
    AttachKeepsForest(m);
    if IsProperLeaf(tabs, id, root) {
      AttachKeepsProperLeaf(m, id, root);
      ProperLeafPoints(tabs, Loose(m.pending), id, root);
      RootIndex(tabs, Loose(m.pending), i);
    } else if root in Ids(tabs) {
      OneTabIsWholeIff(tabs, Loose(m.pending), id);
      GrownWouldBreakIff(tabs, Loose(m.pending), i, j, tree, id, root);
    }
  }

  lemma AttachDoomsIff(m: Machine, close: Close)
    requires Inv(m) && m.pending.Starting? && !Doomed(m.workspace.tabs, close)
    ensures Doomed(Attach(m).workspace.tabs, close) <==> AttachDooms(m, close)
  {
    var tabs := m.workspace.tabs;
    RolledBackIff(m);
    if m.pending.source in Ids(tabs) && m.pending.added in Ids(tabs) {
      if close.Stopping? && close.leafOf.Some? {
        AttachLeafDoomsIff(m, close);
      } else {
        var i, j, tree := AttachGrows(m);
        match close
        case Reading(id, leaves) =>
          GrownOwnsIffEmpty(m, i, j, tree, close);
        case Stopping(_, ids, _, _) => GrownIsWholeIff(tabs, i, j, tree, ToSet(ids));
      }
    }
  }

  lemma GrownOwnsIffEmpty(m: Machine, i: nat, j: nat, tree: PaneNode, close: Close)
    requires ForestInv(m) && i < j < |m.workspace.tabs| && close.Reading? && !Doomed(m.workspace.tabs, close)
    requires m.workspace.tabs[j].paneRoot.None?
    requires var tabs := m.workspace.tabs;
             && (forall l :: l in LeafTabIds(tree) <==> l in Shown(tabs[i]) || l == tabs[j].id)
             && (tabs[i].paneRoot.Some? ==> tabs[i].id in Leaves(tabs[i]))
    ensures var tabs := m.workspace.tabs;
            Doomed(Grown(tabs, i, j, tree), close)
            <==> if close.leaves == [] then tabs[i].id == close.id
                 else (tabs[j].id in close.leaves) != (tabs[i].id in close.leaves)
  {
    if close.leaves == [] {
      GrownOwnsIff(m.workspace.tabs, i, j, tree, close.id);
    } else {
      GrownIsWholeIff(m.workspace.tabs, i, j, tree, ToSet(close.leaves));
    }
  }

  /** A removal that was safe stays safe when trees stay whole, the proper leaf stays
      one, and its root is not listed anew. */
  lemma StaysSafe(m: Machine, next: Machine, close: Close)
    requires ForestInv(m) && ForestInv(next) && close.Stopping? && !WouldBreak(m.workspace.tabs, close)
    requires var drop := if close.leafOf.None? then ToSet(close.ids) else {close.id};
             DropsWholeTrees(m.workspace.tabs, drop) ==> DropsWholeTrees(next.workspace.tabs, drop)
    requires close.leafOf.Some? && close.leafOf.value in Ids(next.workspace.tabs) ==>
               && close.leafOf.value in Ids(m.workspace.tabs)
               && (close.id in Loose(next.pending) ==> close.id in Loose(m.pending))
               && (close.id !in Loose(m.pending) ==>
                     KeepsPointer(m.workspace.tabs, next.workspace.tabs, close.id, close.leafOf.value))
    ensures !WouldBreak(next.workspace.tabs, close)
  {
    if close.leafOf.Some? && close.leafOf.value in Ids(next.workspace.tabs) && IsProperLeaf(m.workspace.tabs, close.id, close.leafOf.value) {
      ProperLeafPoints(m.workspace.tabs, Loose(m.pending), close.id, close.leafOf.value);
      if close.id in Ids(next.workspace.tabs) {
        ProperLeafStays(m, next, close.id, close.leafOf.value);
      } else {
        GoneIsWhole(next.workspace.tabs, Loose(next.pending), close.id);
      }
    }
  }

  lemma CommandKeepsSafe(s: Desk, c: Command, key: nat)
    requires DeskInv(s) && CanTake(s, Do(c)) && !c.AttachSplit? && key in s.closes && s.closes[key].Stopping?
    requires !WouldBreak(s.machine.workspace.tabs, s.closes[key])
    ensures !WouldBreak(Next(s.machine, c).workspace.tabs, s.closes[key])
  {
    var m, close := s.machine, s.closes[key];
    var drop := if close.leafOf.None? then ToSet(close.ids) else {close.id};
    StepKeepsForest(m, c);
    if DropsWholeTrees(m.workspace.tabs, drop) {
      CommandKeepsWhole(m, c, drop);
    }
    if close.leafOf.Some? {
      assert NewId(c) != Some(close.id) && NewId(c) != close.leafOf;
      StepLists(m, c, close.id);
      StepLists(m, c, close.leafOf.value);
      if close.id !in Loose(m.pending) {
        StepKeepsPointer(m, c, close.id, close.leafOf.value);
      }
    }
    StaysSafe(m, Next(m, c), close);
  }

  /** A command makes a close stale exactly in these cases. */
  lemma CommandDoomsIff(s: Desk, c: Command, key: nat)
    requires DeskInv(s) && CanTake(s, Do(c)) && key in s.closes && !Doomed(s.machine.workspace.tabs, s.closes[key])
    ensures Doomed(Take(s, Do(c)).machine.workspace.tabs, s.closes[key]) <==> Dooms(s, Do(c), s.closes[key])
  {
    var m, close := s.machine, s.closes[key];
    if c.AttachSplit? {
      NextAttach(m);
      AttachDoomsIff(m, close);
    } else if close.Stopping? {
      CommandKeepsSafe(s, c, key);
    } else if close.leaves == [] {
      CommandOwnsIff(m, c, close.id);
    } else {
      CommandKeepsWhole(m, c, ToSet(close.leaves));
    }
  }

  lemma RemovalKeepsPointer(tabs: seq<Tab>, removing: Close, id: TabId, root: TabId)
    requires UniqueIds(tabs) && removing.Stopping?
    ensures KeepsPointer(tabs, TabsAfter(tabs, removing), id, root)
  {
    match removing.leafOf
    case None => DropKeepsPointer(tabs, ToSet(removing.ids), id, root);
    case Some(at) =>
      var r := IndexOfId(tabs, at);
      if r < |tabs| {
        EditKeepsPointer(tabs, r, ClosedTree(tabs[r].paneRoot, removing.id), {removing.id}, id, root);
      }
  }

  lemma RemovalIds(m: Machine, removing: Close)
    requires Inv(m) && removing.Stopping?
    ensures Ids(TabsAfter(m.workspace.tabs, removing)) <= Ids(m.workspace.tabs)
  {
    if removing.leafOf.Some? {
      LeafRemovalKeepsForestIff(m, removing);
    } else {
      DropKeepsForestInvIff(m, RemoveFor(m.workspace, removing), ToSet(removing.ids));
    }
  }

  lemma RemovedTabs(m: Machine, removing: Close) returns (next: Machine)
    requires Inv(m) && removing.Stopping? && !WouldBreak(m.workspace.tabs, removing)
    ensures next.workspace.tabs == TabsAfter(m.workspace.tabs, removing) && next.pending == m.pending
    ensures ForestInv(next) && Ids(next.workspace.tabs) <= Ids(m.workspace.tabs)
  {
    next := m.(workspace := RemoveFor(m.workspace, removing));
    RemovalKeepsInvIff(m, removing);
    RemovalIds(m, removing);
  }

  lemma RemovalKeepsSafe(m: Machine, removing: Close, close: Close)
    requires Inv(m) && removing.Stopping? && !WouldBreak(m.workspace.tabs, removing)
    requires close.Stopping? && !WouldBreak(m.workspace.tabs, close)
    ensures !WouldBreak(TabsAfter(m.workspace.tabs, removing), close)
  {
    var next := RemovedTabs(m, removing);
    var drop := if close.leafOf.None? then ToSet(close.ids) else {close.id};
    if DropsWholeTrees(m.workspace.tabs, drop) {
      RemovalKeepsWhole(m, removing, drop);
    }
    if close.leafOf.Some? {
      RemovalKeepsPointer(m.workspace.tabs, removing, close.id, close.leafOf.value);
    }
    StaysSafe(m, next, close);
  }

  /** Nor does a removal that is not stale itself make another close stale. */
  lemma RemovalDoomsNone(m: Machine, removing: Close, close: Close)
    requires Inv(m) && removing.Stopping? && !WouldBreak(m.workspace.tabs, removing)
    requires !Doomed(m.workspace.tabs, close)
    ensures !Doomed(TabsAfter(m.workspace.tabs, removing), close)
  {
    if close.Stopping? {
      RemovalKeepsSafe(m, removing, close);
    } else if close.leaves == [] {
      RemovalGivesNoTree(m.workspace.tabs, Loose(m.pending), removing, close.id);
    } else {
      RemovalKeepsWhole(m, removing, ToSet(close.leaves));
    }
  }

  lemma RemovePaneDoomsIff(m: Machine, p: PaneClose, close: Close)
    requires Inv(m) && m.pending.Free? && p.Stopped? && !Doomed(m.workspace.tabs, close)
    ensures Doomed(RemovePaneIn(m.workspace, p).0.tabs, close)
            <==> close.Reading? && close.leaves == [] && Promotes(m.workspace.tabs, p.resolved, p.pane, close.id)
  {
    var tabs, next := m.workspace.tabs, m.(workspace := RemovePaneIn(m.workspace, p).0);
    RemovePaneKeepsInv(m, p);
    RemoveSplitPaneKeepsForest(tabs, {}, p.resolved, p.pane);
    match close
    case Reading(id, leaves) =>
      if leaves == [] {
        RemoveSplitPaneOwnsIff(tabs, {}, p.resolved, p.pane, id);
      } else {
        RemoveSplitPaneKeepsWhole(tabs, {}, p.resolved, p.pane, ToSet(leaves));
      }
    case Stopping(id, ids, leafOf, _) =>
      var drop := if leafOf.None? then ToSet(ids) else {id};
      if DropsWholeTrees(tabs, drop) {
        RemoveSplitPaneKeepsWhole(tabs, {}, p.resolved, p.pane, drop);
      }
      if leafOf.Some? {
        RemoveSplitPaneKeepsPointer(tabs, {}, p.resolved, p.pane, id, leafOf.value);
      }
      StaysSafe(m, next, close);
  }

  lemma PaneStepDoomsIff(s: Desk, step: Step, key: nat)
    requires DeskInv(s) && CanTake(s, step) && !IsTabStep(step) && !step.Do?
    requires key in s.closes && !Doomed(s.machine.workspace.tabs, s.closes[key])
    ensures Doomed(TakePaneStep(s, step).machine.workspace.tabs, s.closes[key]) <==> Dooms(s, step, s.closes[key])
  {
    if step.RemovePane? {
      RemovePaneDoomsIff(s.machine, s.paneClose.value, s.closes[key]);
    }
  }

  lemma TabStepDoomsNone(s: Desk, step: Step, key: nat)
    requires DeskInv(s) && CanTake(s, step) && IsTabStep(step) && !IsStale(s, step)
    requires key in s.closes && key in TakeTabStep(s, step).closes && !Doomed(s.machine.workspace.tabs, s.closes[key])
    ensures !Doomed(TakeTabStep(s, step).machine.workspace.tabs, TakeTabStep(s, step).closes[key])
  {
    match step
    case BeginClose(_, _) =>
    case ReadAgain(_) => SecondReadIsDoomedIff(s.machine.workspace.tabs, Loose(s.machine.pending), s.closes[step.reading]);
    case StopNext(_) =>
    case GiveUp(_) =>
    case EndClose(closing) => RemovalDoomsNone(s.machine, s.closes[closing], s.closes[key]);
  }

  /** Exactly when a close goes stale, for every step of every command: it starts out
      fresh, and a step makes it stale if and only if it attaches a pane to what the
      close has read in part, or gives its tab a tree between its two reads. */
  lemma GoesStaleIff(s: Desk, step: Step, key: nat)
    requires DeskInv(s) && CanTake(s, step) && !IsStale(s, step) && key in Take(s, step).closes
    ensures var tabs, next := s.machine.workspace.tabs, Take(s, step);
            && (key !in s.closes ==> !Doomed(next.machine.workspace.tabs, next.closes[key]))
            && (key in s.closes && !Doomed(tabs, s.closes[key]) ==>
                  (Doomed(next.machine.workspace.tabs, next.closes[key]) <==> Dooms(s, step, s.closes[key])))
  {
    if key !in s.closes {
      FirstReadIsFresh(s.machine.workspace.tabs, Loose(s.machine.pending), step.id);
    } else if !Doomed(s.machine.workspace.tabs, s.closes[key]) {
      if step.Do? {
        CommandDoomsIff(s, step.command, key);
      } else if IsTabStep(step) {
        TabStepDoomsNone(s, step, key);
      } else {
        PaneStepDoomsIff(s, step, key);
      }
    }
  }
}
