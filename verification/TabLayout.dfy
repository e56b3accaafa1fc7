/** Splitting and closing panes on the tab list.

    `AttachSplitPane`, `RemoveSplitPane` and `CloseTab` state what the commands
    leave behind for every list, forest or not; the lemmas say what that means
    on a forest. */
module TabLayout {
  import opened Wrappers
  import opened Sequences
  import opened Panes
  import opened TabForest

  datatype LayoutError =
    | SamePane
    | NewPaneVanished
    | SourceNotInLayout
    | SourceVanished
    | RootNotFound
    | NoSplitLayout
    | OnlyPane
    | PaneNotFound
    | NoSurvivingPane
    | PromotedPaneNotFound
    | SessionNotFound
    | NotAnExternalSession

  // ----- attaching the pane of a split

  /** The first tab with this id that owns a tree, or the length of the list. */
  function TreeOwner(tabs: seq<Tab>, id: TabId): (i: nat)
    ensures i <= |tabs|
    ensures i < |tabs| ==> tabs[i].id == id && tabs[i].paneRoot.Some?
    ensures forall k :: 0 <= k < i ==> tabs[k].id != id || tabs[k].paneRoot.None?
  {
    if tabs == [] then 0
    else if tabs[0].id == id && tabs[0].paneRoot.Some? then 0
    else 1 + TreeOwner(tabs[1..], id)
  }

  datatype Attachment = Attachment(tabs: seq<Tab>, rootTabId: TabId)

  function GraftAt(tabs: seq<Tab>, i: nat, source: TabId, pane: PaneNode): Result<Attachment, LayoutError>
    requires i < |tabs| && tabs[i].paneRoot.Some?
  {
    match ReplaceLeaf(tabs[i].paneRoot.value, source, pane)
    case None => Failure(SourceNotInLayout)
    case Some(tree) => Success(Attachment(tabs[i := tabs[i].(paneRoot := Some(tree))], tabs[i].id))
  }

  function AttachSplitPane(tabs: seq<Tab>, source: TabId, added: TabId, direction: Direction)
    : Result<Attachment, LayoutError>
  {
    var pane := SplitOf(direction, source, added);
    var own := TreeOwner(tabs, source);
    var containing := ContainingRoot(tabs, source);
    var k := IndexOfId(tabs, source);
    if source == added then Failure(SamePane)
    else if IndexOfId(tabs, added) == |tabs| then Failure(NewPaneVanished)
    else if own < |tabs| then GraftAt(tabs, own, source, pane)
    else if containing < |tabs| then GraftAt(tabs, containing, source, pane)
    else if k == |tabs| then Failure(SourceVanished)
    else Success(Attachment(tabs[k := tabs[k].(paneRoot := Some(pane))], source))
  }

  /** The attach step of a split: graft the pane and point it at the root that
      took it. */
  function FinishSplit(tabs: seq<Tab>, source: TabId, added: TabId, direction: Direction)
    : Result<Attachment, LayoutError>
  {
    match AttachSplitPane(tabs, source, added, direction)
    case Failure(e) => Failure(e)
    case Success(done) =>
      var j := IndexOfId(done.tabs, added);
      if j == |done.tabs| then Failure(NewPaneVanished)
      else Success(done.(tabs := done.tabs[j := done.tabs[j].(paneRootTabId := Some(done.rootTabId))]))
  }

  /** A new pane waiting in the list for its split to finish. */
  ghost predicate Waiting(tabs: seq<Tab>, loose: set<TabId>, source: TabId, added: TabId) {
    && Forest(tabs, loose)
    && added in loose && source !in loose
    && (added in Ids(tabs) && source in Ids(tabs) ==> IndexOfId(tabs, source) < IndexOfId(tabs, added))
  }

  /** The tab a split of `source` grows: the owner of its tree, or itself. */
  function Host(tabs: seq<Tab>, source: TabId): (i: nat)
    ensures i <= |tabs|
    ensures source in Ids(tabs) ==> i < |tabs|
  {
    if ContainingRoot(tabs, source) < |tabs| then ContainingRoot(tabs, source) else IndexOfId(tabs, source)
  }

  /** A source that is still in the list always gets its pane: the tree of its
      host shows the new leaf right after the source, nothing else moves, and the
      list is a forest again with the new tab in it. A source that is gone is
      always refused. */
  lemma FinishSplitKeepsForest(tabs: seq<Tab>, loose: set<TabId>, source: TabId, added: TabId, direction: Direction)
    requires Waiting(tabs, loose, source, added)
    ensures var done := FinishSplit(tabs, source, added, direction);
            && (done.Success? <==> added in Ids(tabs) && source in Ids(tabs))
            && (done.Success? ==>
                  var i, j := Host(tabs, source), IndexOfId(tabs, added);
                  && i < j < |tabs| && Forest(done.value.tabs, loose - {added})
                  && done.value.rootTabId == tabs[i].id
                  && (exists tree ::
                        && done.value.tabs == Grown(tabs, i, j, tree)
                        && LeafTabIds(tree) == Substitute(Shown(tabs[i]), source, [source, added])))
  {
    if added in Ids(tabs) && source in Ids(tabs) {
      var i, j := Host(tabs, source), IndexOfId(tabs, added);
      var k := IndexOfId(tabs, source);
      HostIsTopLevel(tabs, loose, source);
      var tree := GrownTree(tabs[i], source, added, direction);
      GrownTreeLeaves(tabs, loose, source, added, direction);
      GrowKeepsForest(tabs, loose, i, j, tree);
      FinishSplitIsGrown(tabs, loose, source, added, direction);
    } else if added in Ids(tabs) {
      SourceGone(tabs, loose, source);
    }
  }

  lemma SourceGone(tabs: seq<Tab>, loose: set<TabId>, source: TabId)
    requires Forest(tabs, loose) && source !in Ids(tabs)
    ensures ContainingRoot(tabs, source) == |tabs| && TreeOwner(tabs, source) == |tabs|
  {
  }

  lemma HostIsTopLevel(tabs: seq<Tab>, loose: set<TabId>, source: TabId)
    requires Forest(tabs, loose) && source in Ids(tabs) && source !in loose
    ensures var i := Host(tabs, source);
            && i <= IndexOfId(tabs, source)
            && tabs[i].paneRootTabId.None? && tabs[i].id !in loose
            && source in Shown(tabs[i])
            && (tabs[i].paneRoot.None? ==> ContainingRoot(tabs, tabs[i].id) == |tabs|)
            && (tabs[i].paneRoot.None? ==> tabs[i].id == source)
            && (TreeOwner(tabs, source) < |tabs| ==> TreeOwner(tabs, source) == i)
  {
    var k := IndexOfId(tabs, source);
    var i := Host(tabs, source);
    var own := TreeOwner(tabs, source);
    assert own < |tabs| ==> own == k && TreeOk(tabs, own);
    if ContainingRoot(tabs, source) < |tabs| {
      assert TreeOk(tabs, i);
      assert k != i ==> LeafOf(tabs, i, k);
    } else {
      StandaloneTabIsFree(tabs, loose, k);
    }
  }

  function GrownTree(host: Tab, source: TabId, added: TabId, direction: Direction): PaneNode {
    var pane := SplitOf(direction, source, added);
    if host.paneRoot.None? then pane
    else
      match ReplaceLeaf(host.paneRoot.value, source, pane)
      case None => host.paneRoot.value
      case Some(tree) => tree
  }

  lemma GrownTreeLeaves(tabs: seq<Tab>, loose: set<TabId>, source: TabId, added: TabId, direction: Direction)
    requires Forest(tabs, loose) && source in Ids(tabs) && source !in loose && added in loose
    ensures var i := Host(tabs, source); var tree := GrownTree(tabs[i], source, added, direction);
            && LeafTabIds(tree) == Substitute(Shown(tabs[i]), source, [source, added])
            && WellShaped(tree) && Distinct(LeafTabIds(tree)) && |LeafTabIds(tree)| >= 2
            && (forall l :: l in LeafTabIds(tree) <==> l in Shown(tabs[i]) || l == added)
  {
    var i := Host(tabs, source);
    var pane := SplitOf(direction, source, added);
    SplitOfIsWellShaped(direction, source, added);
    HostIsTopLevel(tabs, loose, source);
    assert added !in Shown(tabs[i]);
    if tabs[i].paneRoot.Some? {
      assert TreeOk(tabs, i);
      ReplaceLeafLeaves(tabs[i].paneRoot.value, source, pane);
    } else {
      assert Shown(tabs[i]) == [source];
      assert Substitute([source], source, [source, added]) == [source, added];
    }
    InsertAfter(Shown(tabs[i]), source, added);
  }

  lemma InsertAfter<T>(xs: seq<T>, x: T, y: T)
    requires Distinct(xs) && x in xs && y !in xs
    ensures var zs := Substitute(xs, x, [x, y]);
            |zs| == |xs| + 1 && Distinct(zs) && forall z :: z in zs <==> z in xs || z == y
  {
    var i := IndexOf(xs, x);
    var zs := Substitute(xs, x, [x, y]);
    assert zs == xs[..i + 1] + ([y] + xs[i + 1..]);
    assert xs == xs[..i + 1] + xs[i + 1..];
    InsertMember(xs[..i + 1], xs[i + 1..], y);
  }

  lemma InsertMember<T>(xs: seq<T>, ys: seq<T>, y: T)
    requires Distinct(xs + ys) && y !in xs + ys
    ensures Distinct(xs + ([y] + ys))
    ensures forall z :: z in xs + ([y] + ys) <==> z in xs + ys || z == y
  {
    DistinctParts(xs, ys);
    DistinctSum([y], ys);
    MemberOfCons(y, ys);
    DistinctSum(xs, [y] + ys);
  }

  lemma MemberOfCons<T>(y: T, ys: seq<T>)
    ensures forall z :: z in [y] + ys <==> z == y || z in ys
  {
  }

  lemma DistinctSum<T>(xs: seq<T>, ys: seq<T>)
    requires Distinct(xs) && Distinct(ys) && forall x :: x in xs ==> x !in ys
    ensures Distinct(xs + ys)
  {
    forall i, j | 0 <= i < j < |xs + ys| ensures (xs + ys)[i] != (xs + ys)[j] {
      if i < |xs| {
        assert xs[i] !in ys;
      }
    }
  }

  lemma AttachIsGrafted(tabs: seq<Tab>, loose: set<TabId>, source: TabId, added: TabId, direction: Direction)
    requires Waiting(tabs, loose, source, added) && added in Ids(tabs) && source in Ids(tabs)
    ensures var i := Host(tabs, source);
            && i < IndexOfId(tabs, added)
            && AttachSplitPane(tabs, source, added, direction)
               == Success(Attachment(
                    tabs[i := tabs[i].(paneRoot := Some(GrownTree(tabs[i], source, added, direction)))], tabs[i].id))
  {
    var i := Host(tabs, source);
    HostIsTopLevel(tabs, loose, source);
    if tabs[i].paneRoot.Some? {
      ReplaceLeafLeaves(tabs[i].paneRoot.value, source, SplitOf(direction, source, added));
    }
  }

  lemma FinishSplitIsGrown(tabs: seq<Tab>, loose: set<TabId>, source: TabId, added: TabId, direction: Direction)
    requires Waiting(tabs, loose, source, added) && added in Ids(tabs) && source in Ids(tabs)
    ensures var i, j := Host(tabs, source), IndexOfId(tabs, added);
            && i < j < |tabs|
            && FinishSplit(tabs, source, added, direction)
               == Success(Attachment(Grown(tabs, i, j, GrownTree(tabs[i], source, added, direction)), tabs[i].id))
  {
    AttachIsGrafted(tabs, loose, source, added, direction);
    var i := Host(tabs, source);
    SameIndices(tabs, tabs[i := tabs[i].(paneRoot := Some(GrownTree(tabs[i], source, added, direction)))], added);
  }

  // ----- closing one pane of a split

  datatype PaneCloseOutcome = PaneCloseOutcome(rootTabId: TabId, remaining: seq<TabId>, keepsSplit: bool)

  /** The list after the call, whether it succeeded or not, and its result. */
  datatype LayoutStep = LayoutStep(tabs: seq<Tab>, outcome: Result<PaneCloseOutcome, LayoutError>)

  /** The first tab that has the requested root id or lists the pane. */
  function RequestedRoot(tabs: seq<Tab>, rootTabId: TabId, pane: TabId): (i: nat)
    ensures i <= |tabs|
    ensures i < |tabs| ==> tabs[i].id == rootTabId || pane in Leaves(tabs[i])
    ensures forall k :: 0 <= k < i ==> tabs[k].id != rootTabId && pane !in Leaves(tabs[k])
  {
    if tabs == [] then 0
    else if tabs[0].id == rootTabId || pane in Leaves(tabs[0]) then 0
    else 1 + RequestedRoot(tabs[1..], rootTabId, pane)
  }

  function InsertAt<T>(xs: seq<T>, i: nat, x: T): seq<T>
    requires i <= |xs|
  {
    xs[..i] + [x] + xs[i..]
  }

  /** `then_some`: the tree is kept only while it still splits. */
  function KeptTree(tree: PaneNode): Option<PaneNode> {
    if |LeafTabIds(tree)| > 1 then Some(tree) else None
  }

  /** The tree without the leaf; unchanged when the leaf is not there. */
  function TreeWithout(tree: PaneNode, pane: TabId): PaneNode {
    match RemoveLeaf(tree, pane)
    case None => tree
    case Some(next) => next
  }

  function RemoveSplitPane(tabs: seq<Tab>, rootTabId: TabId, pane: TabId): LayoutStep {
    var i := RequestedRoot(tabs, rootTabId, pane);
    if i == |tabs| then LayoutStep(tabs, Failure(RootNotFound))
    else if tabs[i].paneRoot.None? then LayoutStep(tabs, Failure(NoSplitLayout))
    else if |Leaves(tabs[i])| < 2 then LayoutStep(tabs, Failure(OnlyPane))
    else if pane !in Leaves(tabs[i]) then LayoutStep(tabs, Failure(PaneNotFound))
    else
      var tree := TreeWithout(tabs[i].paneRoot.value, pane);
      var remaining := LeafTabIds(tree);
      if pane != tabs[i].id then
        LayoutStep(
          DropIds(tabs[i := tabs[i].(paneRoot := KeptTree(tree))], {pane}),
          Success(PaneCloseOutcome(tabs[i].id, remaining, |remaining| > 1)))
      else if remaining == [] then LayoutStep(tabs, Failure(NoSurvivingPane))
      else PromoteSurvivor(tabs, i, tree, remaining)
  }

  function PromoteSurvivor(tabs: seq<Tab>, i: nat, tree: PaneNode, remaining: seq<TabId>): LayoutStep
    requires i < |tabs| && remaining != []
  {
    var others := RemoveAt(tabs, i);
    var p := IndexOfId(others, remaining[0]);
    if p == |others| then LayoutStep(others, Failure(PromotedPaneNotFound))
    else
      var promoted := others[p].(paneRootTabId := None, paneRoot := KeptTree(tree));
      var pointed := Repoint(RemoveAt(others, p), tabs[i].id, remaining[0]);
      var at := if i <= |pointed| then i else |pointed|;
      LayoutStep(
        InsertAt(pointed, at, promoted),
        Success(PaneCloseOutcome(remaining[0], remaining, |remaining| > 1)))
  }

  /** What removing one of its leaves leaves of a root's tree. */
  lemma TreeWithoutLeaf(tabs: seq<Tab>, loose: set<TabId>, i: nat, pane: TabId)
    requires Forest(tabs, loose) && i < |tabs| && pane in Leaves(tabs[i])
    ensures var tree := TreeWithout(tabs[i].paneRoot.value, pane);
            && LeafTabIds(tree) == Without(Leaves(tabs[i]), pane)
            && LeafTabIds(tree) != []
            && (tree.Leaf? <==> |LeafTabIds(tree)| == 1)
            && (forall l :: l in LeafTabIds(tree) <==> l in Leaves(tabs[i]) && l != pane)
            && LeavesWithout(tabs, i, pane, KeptTree(tree))
  {
    assert TreeOk(tabs, i);
    var node := tabs[i].paneRoot.value;
    var tree := TreeWithout(node, pane);
    LeafCount(node);
    RemoveLeafLeaves(node, pane);
    WithoutMembers(Leaves(tabs[i]), pane);
    LeafCount(tree);
    if |LeafTabIds(tree)| == 1 {
      var last := LeafTabIds(tree)[0];
      assert last in LeafTabIds(tree);
      forall l | l in Leaves(tabs[i]) ensures l == pane || l == last {
        if l != pane {
          assert l in LeafTabIds(tree);
        }
      }
    }
  }

  lemma ShrinkAndDrop(tabs: seq<Tab>, loose: set<TabId>, i: nat, pane: TabId, tree: Option<PaneNode>)
    requires Forest(tabs, loose)
    requires i < |tabs| && tabs[i].paneRoot.Some? && pane in Leaves(tabs[i]) && pane != tabs[i].id
    requires LeavesWithout(tabs, i, pane, tree)
    ensures var next := DropIds(tabs[i := tabs[i].(paneRoot := tree)], {pane});
            Forest(next, loose) && Ids(next) == Ids(tabs) - {pane}
  {
    var shrunk := tabs[i := tabs[i].(paneRoot := tree)];
    ShrinkKeepsForest(tabs, loose, i, pane, tree);
    DropKeepsForest(shrunk, loose + {pane}, {pane});
    SameIds(tabs, shrunk);
    assert loose + {pane} - {pane} == loose;
  }

  /** Where a leaf other than the root's own stands. */
  lemma ChildIndex(tabs: seq<Tab>, loose: set<TabId>, i: nat, pane: TabId) returns (p: nat)
    requires Forest(tabs, loose) && i < |tabs| && pane in Leaves(tabs[i]) && pane != tabs[i].id
    ensures i < p < |tabs| && tabs[p].id == pane && tabs[p].paneRootTabId == Some(tabs[i].id)
  {
    assert TreeOk(tabs, i);
    p := IndexOfId(tabs, pane);
    assert LeafOf(tabs, i, p);
  }

  lemma ShrinkAndDropTopLevel(tabs: seq<Tab>, loose: set<TabId>, i: nat, pane: TabId, tree: Option<PaneNode>)
    requires Forest(tabs, loose)
    requires i < |tabs| && tabs[i].paneRoot.Some? && pane in Leaves(tabs[i]) && pane != tabs[i].id
    ensures TopLevel(DropIds(tabs[i := tabs[i].(paneRoot := tree)], {pane})) == TopLevel(tabs)
  {
    var p := ChildIndex(tabs, loose, i, pane);
    var shrunk := tabs[i := tabs[i].(paneRoot := tree)];
    SameIndices(tabs, shrunk, pane);
    DropOneBelowTopLevel(shrunk, p);
    SameTopLevel(tabs, shrunk);
  }

  lemma {:induction false} SameTopLevel(tabs: seq<Tab>, next: seq<Tab>)
    requires |tabs| == |next|
    requires forall k :: 0 <= k < |tabs| ==> next[k].id == tabs[k].id && next[k].paneRootTabId == tabs[k].paneRootTabId
    ensures TopLevel(next) == TopLevel(tabs)
  {
    if tabs != [] {
      SameTopLevel(tabs[..|tabs| - 1], next[..|tabs| - 1]);
    }
  }

  /** Closing a leaf other than the root's own: the tree loses that leaf, the
      list loses that tab, and the bar does not change. */
  lemma CloseChildPane(tabs: seq<Tab>, loose: set<TabId>, rootTabId: TabId, pane: TabId)
    requires Forest(tabs, loose)
    requires RemoveSplitPane(tabs, rootTabId, pane).outcome.Success?
    requires pane != tabs[RequestedRoot(tabs, rootTabId, pane)].id
    ensures var i := RequestedRoot(tabs, rootTabId, pane);
            var step := RemoveSplitPane(tabs, rootTabId, pane);
            && Forest(step.tabs, loose)
            && Ids(step.tabs) == Ids(tabs) - {pane}
            && TopLevel(step.tabs) == TopLevel(tabs)
            && step.outcome.value.rootTabId == tabs[i].id
            && step.outcome.value.remaining == Without(Leaves(tabs[i]), pane)
  {
    var i := RequestedRoot(tabs, rootTabId, pane);
    var tree := TreeWithout(tabs[i].paneRoot.value, pane);
    TreeWithoutLeaf(tabs, loose, i, pane);
    ShrinkAndDrop(tabs, loose, i, pane, KeptTree(tree));
    ShrinkAndDropTopLevel(tabs, loose, i, pane, KeptTree(tree));
  }

  /** Closing the root's own leaf: the first surviving leaf takes over the tree,
      stands exactly where the root stood, every other leaf points at it, and the
      bar changes by that one renaming. */
  lemma CloseRootPane(tabs: seq<Tab>, loose: set<TabId>, i: nat)
    requires Forest(tabs, loose) && i < |tabs| && tabs[i].paneRoot.Some?
    ensures RequestedRoot(tabs, tabs[i].id, tabs[i].id) == i
    ensures var step := RemoveSplitPane(tabs, tabs[i].id, tabs[i].id);
            var remaining := Without(Leaves(tabs[i]), tabs[i].id);
            && remaining != []
            && step.outcome == Success(PaneCloseOutcome(remaining[0], remaining, |remaining| > 1))
            && Forest(step.tabs, loose)
            && Ids(step.tabs) == Ids(tabs) - {tabs[i].id}
            && |step.tabs| == |tabs| - 1 && i < |step.tabs| && step.tabs[i].id == remaining[0]
            && (forall k :: 0 <= k < |step.tabs| && k != i && step.tabs[k].id in remaining ==>
                  step.tabs[k].paneRootTabId == Some(remaining[0]))
            && TopLevel(step.tabs) == Rename(TopLevel(tabs), tabs[i].id, remaining[0])
  {
    var root := tabs[i].id;
    assert TreeOk(tabs, i);
    RootIsRequested(tabs, loose, i, root);
    TreeWithoutLeaf(tabs, loose, i, root);
    var tree := TreeWithout(tabs[i].paneRoot.value, root);
    assert LeafTabIds(tree)[0] in LeafTabIds(tree);
    PromoteAndDrop(tabs, loose, i, tree);
  }

  lemma PromoteAndDrop(tabs: seq<Tab>, loose: set<TabId>, i: nat, tree: PaneNode)
    requires Forest(tabs, loose) && i < |tabs| && tabs[i].paneRoot.Some?
    requires LeafTabIds(tree) != [] && LeavesWithout(tabs, i, tabs[i].id, KeptTree(tree))
    requires forall l :: l in LeafTabIds(tree) <==> l in Leaves(tabs[i]) && l != tabs[i].id
    ensures var remaining := LeafTabIds(tree);
            var step := PromoteSurvivor(tabs, i, tree, remaining);
            && step.outcome == Success(PaneCloseOutcome(remaining[0], remaining, |remaining| > 1))
            && Forest(step.tabs, loose)
            && Ids(step.tabs) == Ids(tabs) - {tabs[i].id}
            && |step.tabs| == |tabs| - 1 && i < |step.tabs| && step.tabs[i].id == remaining[0]
            && (forall k :: 0 <= k < |step.tabs| && k != i && step.tabs[k].id in remaining ==>
                  step.tabs[k].paneRootTabId == Some(remaining[0]))
            && TopLevel(step.tabs) == Rename(TopLevel(tabs), tabs[i].id, remaining[0])
  {
    var root := tabs[i].id;
    assert TreeOk(tabs, i);
    var remaining := LeafTabIds(tree);
    assert remaining[0] in remaining;
    var p := IndexOfId(tabs, remaining[0]);
    assert LeafOf(tabs, i, p);
    var swapped := Promoted(tabs, i, p, KeptTree(tree));
    PromoteIsSwapAndDrop(tabs, i, p, tree);
    PromotedForest(tabs, loose, i, p, KeptTree(tree));
    PromotedTopLevel(tabs, i, p, KeptTree(tree));
    PromotedPointers(tabs, loose, i, p, KeptTree(tree));
  }

  lemma PromotedPointers(tabs: seq<Tab>, loose: set<TabId>, i: nat, p: nat, tree: Option<PaneNode>)
    requires CanPromote(tabs, loose, i, p, tree) && i < p
    ensures var next := RemoveAt(Promoted(tabs, i, p, tree), p);
            && next[i].id == tabs[p].id
            && forall k :: 0 <= k < |next| && k != i && next[k].id in Leaves(tabs[i]) ==>
                 next[k].paneRootTabId == Some(tabs[p].id)
  {
    var swapped := Promoted(tabs, i, p, tree);
    var next := RemoveAt(swapped, p);
    forall k | 0 <= k < |next| && k != i && next[k].id in Leaves(tabs[i])
      ensures next[k].paneRootTabId == Some(tabs[p].id)
    {
      var m := if k < p then k else k + 1;
      assert next[k] == swapped[m];
      assert TreeOk(tabs, i);
      assert LeafOf(tabs, i, m);
    }
  }

  lemma PromotedForest(tabs: seq<Tab>, loose: set<TabId>, i: nat, p: nat, tree: Option<PaneNode>)
    requires CanPromote(tabs, loose, i, p, tree)
    ensures var next := DropIds(Promoted(tabs, i, p, tree), {tabs[i].id});
            Forest(next, loose) && Ids(next) == Ids(tabs) - {tabs[i].id}
  {
    var root := tabs[i].id;
    PromoteKeepsForest(tabs, loose, i, p, tree);
    DropKeepsForest(Promoted(tabs, i, p, tree), loose + {root}, {root});
    PromotedIds(tabs, i, p, tree);
    assert TreeOk(tabs, i);
    assert loose + {root} - {root} == loose;
  }

  lemma RootIsRequested(tabs: seq<Tab>, loose: set<TabId>, i: nat, pane: TabId)
    requires Forest(tabs, loose) && i < |tabs| && tabs[i].paneRoot.Some? && pane in Leaves(tabs[i])
    ensures RequestedRoot(tabs, tabs[i].id, pane) == i
  {
    var r := RequestedRoot(tabs, tabs[i].id, pane);
    if pane in Leaves(tabs[r]) {
      TreesAreDisjoint(tabs, loose, i, r, pane);
    }
  }

  /** Removing the root, removing the survivor and inserting it at the root's
      index is the same as exchanging the two and dropping the root. */
  lemma PromoteIsSwapAndDrop(tabs: seq<Tab>, i: nat, p: nat, tree: PaneNode)
    requires UniqueIds(tabs) && i < p < |tabs|
    requires LeafTabIds(tree) != [] && tabs[p].id == LeafTabIds(tree)[0]
    ensures var step := PromoteSurvivor(tabs, i, tree, LeafTabIds(tree));
            && step.tabs == DropIds(Promoted(tabs, i, p, KeptTree(tree)), {tabs[i].id})
            && step.tabs == RemoveAt(Promoted(tabs, i, p, KeptTree(tree)), p)
            && step.outcome == Success(PaneCloseOutcome(tabs[p].id, LeafTabIds(tree), |LeafTabIds(tree)| > 1))
  {
    SurvivorMoves(tabs, i, p, tree, LeafTabIds(tree));
    MoveIsSwapAndRemove(tabs, i, p, KeptTree(tree));
    PromotedIds(tabs, i, p, KeptTree(tree));
    DropOne(Promoted(tabs, i, p, KeptTree(tree)), p);
  }

  /** The list with its survivor at `p` moved to the place of root `i`. */
  function Moved(tabs: seq<Tab>, i: nat, p: nat, tree: Option<PaneNode>): seq<Tab>
    requires i < p < |tabs|
  {
    InsertAt(Repoint(RemoveAt(RemoveAt(tabs, i), p - 1), tabs[i].id, tabs[p].id), i,
             tabs[p].(paneRootTabId := None, paneRoot := tree))
  }

  lemma SurvivorMoves(tabs: seq<Tab>, i: nat, p: nat, tree: PaneNode, remaining: seq<TabId>)
    requires UniqueIds(tabs) && i < p < |tabs|
    requires remaining != [] && tabs[p].id == remaining[0]
    ensures PromoteSurvivor(tabs, i, tree, remaining)
            == LayoutStep(
                 Moved(tabs, i, p, KeptTree(tree)),
                 Success(PaneCloseOutcome(remaining[0], remaining, |remaining| > 1)))
  {
    SurvivorIndex(tabs, i, p);
  }

  lemma SurvivorIndex(tabs: seq<Tab>, i: nat, p: nat)
    requires UniqueIds(tabs) && i < p < |tabs|
    ensures IndexOfId(RemoveAt(tabs, i), tabs[p].id) == p - 1
    ensures RemoveAt(tabs, i)[p - 1] == tabs[p]
  {
  }

  lemma MoveIsSwapAndRemove(tabs: seq<Tab>, i: nat, p: nat, tree: Option<PaneNode>)
    requires i < p < |tabs|
    ensures Moved(tabs, i, p, tree) == RemoveAt(Promoted(tabs, i, p, tree), p)
  {
    var kept := RemoveAt(RemoveAt(tabs, i), p - 1);
    var pointed := Repoint(kept, tabs[i].id, tabs[p].id);
    var left := Moved(tabs, i, p, tree);
    var right := RemoveAt(Promoted(tabs, i, p, tree), p);
    forall k | 0 <= k < |left| ensures left[k] == right[k] {
      if k > i {
        assert left[k] == pointed[k - 1];
        assert kept[k - 1] == tabs[if k < p then k else k + 1];
      }
    }
  }

  lemma {:induction false} DropOne(tabs: seq<Tab>, p: nat)
    requires UniqueIds(tabs) && p < |tabs|
    ensures DropIds(tabs, {tabs[p].id}) == RemoveAt(tabs, p)
  {
    var n := |tabs| - 1;
    var before := tabs[..n];
    if p == n {
      DropNone(before, {tabs[p].id});
    } else {
      DropOne(before, p);
      assert RemoveAt(tabs, p) == RemoveAt(before, p) + [tabs[n]];
    }
  }

  lemma {:induction false} DropNone(tabs: seq<Tab>, drop: set<TabId>)
    requires forall k :: 0 <= k < |tabs| ==> tabs[k].id !in drop
    ensures DropIds(tabs, drop) == tabs
  {
    if tabs != [] {
      DropNone(tabs[..|tabs| - 1], drop);
    }
  }

  lemma PromotedTopLevel(tabs: seq<Tab>, i: nat, p: nat, tree: Option<PaneNode>)
    requires UniqueIds(tabs) && i < p < |tabs|
    requires tabs[i].paneRootTabId.None? && tabs[p].paneRootTabId.Some?
    ensures TopLevel(DropIds(Promoted(tabs, i, p, tree), {tabs[i].id}))
            == Rename(TopLevel(tabs), tabs[i].id, tabs[p].id)
  {
    PromotedIds(tabs, i, p, tree);
    DropOneBelowTopLevel(Promoted(tabs, i, p, tree), p);
    SwappedTopLevel(tabs, i, p, tree);
  }

  lemma DropOneBelowTopLevel(tabs: seq<Tab>, p: nat)
    requires UniqueIds(tabs) && p < |tabs| && tabs[p].paneRootTabId.Some?
    ensures TopLevel(DropIds(tabs, {tabs[p].id})) == TopLevel(tabs)
  {
    assert forall k :: 0 <= k < |tabs| && k != p ==> tabs[k].id != tabs[p].id;
    DropBelowTopLevel(tabs, {tabs[p].id});
  }

  lemma SwappedTopLevel(tabs: seq<Tab>, i: nat, p: nat, tree: Option<PaneNode>)
    requires UniqueIds(tabs) && i < p < |tabs|
    requires tabs[i].paneRootTabId.None? && tabs[p].paneRootTabId.Some?
    ensures TopLevel(Promoted(tabs, i, p, tree)) == Rename(TopLevel(tabs), tabs[i].id, tabs[p].id)
  {
    var swapped := Promoted(tabs, i, p, tree);
    forall k | 0 <= k < |tabs|
      ensures tabs[k].paneRootTabId.None? == swapped[k].paneRootTabId.None?
      ensures tabs[k].paneRootTabId.None? ==>
                swapped[k].id == if tabs[k].id == tabs[i].id then tabs[p].id else tabs[k].id
    {
      if k != i && k != p {
        assert tabs[k].id != tabs[i].id;
      }
    }
    RenamedTopLevel(tabs, swapped, tabs[i].id, tabs[p].id);
  }

  /** Whatever root and pane are asked for, closing a pane keeps the forest. */
  lemma RemoveSplitPaneKeepsForest(tabs: seq<Tab>, loose: set<TabId>, rootTabId: TabId, pane: TabId)
    requires Forest(tabs, loose)
    ensures var step := RemoveSplitPane(tabs, rootTabId, pane);
            && Forest(step.tabs, loose)
            && (step.outcome.Failure? ==> step.tabs == tabs)
            && (step.outcome.Success? ==> Ids(step.tabs) == Ids(tabs) - {pane} && pane in Ids(tabs) && pane !in loose)
  {
    var i := RequestedRoot(tabs, rootTabId, pane);
    if i < |tabs| && tabs[i].paneRoot.Some? && pane in Leaves(tabs[i]) {
      assert TreeOk(tabs, i);
      if pane == tabs[i].id {
        CloseRootPane(tabs, loose, i);
      } else {
        TreeWithoutLeaf(tabs, loose, i, pane);
        CloseChildPane(tabs, loose, rootTabId, pane);
      }
    }
  }

  // ----- closing a tab

  /** The ids an ordinary close takes: every leaf of the tab's tree, or the tab. */
  function IdsToClose(tabs: seq<Tab>, id: TabId): (ids: seq<TabId>) {
    var k := IndexOfId(tabs, id);
    if k < |tabs| && Leaves(tabs[k]) != [] then Leaves(tabs[k]) else [id]
  }

  /** Whether the close takes the path for a leaf of another tab's tree. */
  predicate ClosesAsLeaf(tabs: seq<Tab>, id: TabId) {
    var k := IndexOfId(tabs, id);
    (k == |tabs| || Leaves(tabs[k]) == []) && ContainingRoot(tabs, id) < |tabs|
  }

  function ToSet(ids: seq<TabId>): set<TabId> {
    set x | x in ids
  }

  /** The tree of the root after the leaf path of a close. */
  function ClosedTree(tree: Option<PaneNode>, id: TabId): Option<PaneNode> {
    match tree
    case None => None
    case Some(node) =>
      var next := TreeWithout(node, id);
      if next.Leaf? then None else Some(next)
  }

  function CloseTab(tabs: seq<Tab>, id: TabId): seq<Tab> {
    if ClosesAsLeaf(tabs, id) then
      var r := IndexOfId(tabs, tabs[ContainingRoot(tabs, id)].id);
      DropIds(tabs[r := tabs[r].(paneRoot := ClosedTree(tabs[r].paneRoot, id))], {id})
    else
      DropIds(tabs, ToSet(IdsToClose(tabs, id)))
  }

  lemma RootIndex(tabs: seq<Tab>, loose: set<TabId>, i: nat)
    requires Forest(tabs, loose) && i < |tabs|
    ensures IndexOfId(tabs, tabs[i].id) == i
  {
  }

  /** On a forest the leaf path is the one taken by the leaves other than a
      root's own, and no other tab. */
  lemma LeafPathIsForChildren(tabs: seq<Tab>, loose: set<TabId>, id: TabId)
    requires Forest(tabs, loose)
    ensures ClosesAsLeaf(tabs, id) <==>
              var c := ContainingRoot(tabs, id); c < |tabs| && tabs[c].id != id
  {
    var c := ContainingRoot(tabs, id);
    if c < |tabs| {
      assert TreeOk(tabs, c);
      RootIndex(tabs, loose, c);
      var k := IndexOfId(tabs, id);
      assert k != c ==> LeafOf(tabs, c, k);
    }
  }

  /** The two ways to close a leaf that is not its root's own agree on the tabs
      they leave. */
  lemma CloseTabAgreesWithClosePane(tabs: seq<Tab>, loose: set<TabId>, i: nat, leaf: TabId)
    requires Forest(tabs, loose) && i < |tabs| && leaf in Leaves(tabs[i]) && leaf != tabs[i].id
    ensures ClosesAsLeaf(tabs, leaf) && ContainingRoot(tabs, leaf) == i
    ensures RequestedRoot(tabs, tabs[i].id, leaf) == i
    ensures RemoveSplitPane(tabs, tabs[i].id, leaf).outcome.Success?
    ensures CloseTab(tabs, leaf) == RemoveSplitPane(tabs, tabs[i].id, leaf).tabs
  {
    var c := ContainingRoot(tabs, leaf);
    TreesAreDisjoint(tabs, loose, i, c, leaf);
    LeafPathIsForChildren(tabs, loose, leaf);
    RootIndex(tabs, loose, i);
    RootIsRequested(tabs, loose, i, leaf);
    TreeWithoutLeaf(tabs, loose, i, leaf);
    assert TreeOk(tabs, i);
  }

  /** Closing any tab keeps the forest; it takes exactly the closed leaf, the
      whole tree of a closed root, or the closed tab. */
  lemma CloseTabKeepsForest(tabs: seq<Tab>, loose: set<TabId>, id: TabId)
    requires Forest(tabs, loose)
    ensures Forest(CloseTab(tabs, id), loose)
    ensures Ids(CloseTab(tabs, id))
            == Ids(tabs) - if ClosesAsLeaf(tabs, id) then {id} else ToSet(IdsToClose(tabs, id))
  {
    if ClosesAsLeaf(tabs, id) {
      var i := ContainingRoot(tabs, id);
      LeafPathIsForChildren(tabs, loose, id);
      CloseTabAgreesWithClosePane(tabs, loose, i, id);
      CloseChildPane(tabs, loose, tabs[i].id, id);
    } else {
      var drop := ToSet(IdsToClose(tabs, id));
      LeafPathIsForChildren(tabs, loose, id);
      forall i, l, m | 0 <= i < |tabs| && l in Leaves(tabs[i]) && m in Leaves(tabs[i]) && l in drop
        ensures m in drop
      {
        WholeTreeCloses(tabs, loose, id, i, l);
      }
      DropKeepsForest(tabs, loose, drop);
      LooseStays(CloseTab(tabs, id), loose, drop);
    }
  }

  lemma WholeTreeCloses(tabs: seq<Tab>, loose: set<TabId>, id: TabId, i: nat, l: TabId)
    requires Forest(tabs, loose) && !ClosesAsLeaf(tabs, id)
    requires i < |tabs| && l in Leaves(tabs[i]) && l in IdsToClose(tabs, id)
    ensures IdsToClose(tabs, id) == Leaves(tabs[i])
  {
    var k := IndexOfId(tabs, id);
    var c := ContainingRoot(tabs, id);
    LeafPathIsForChildren(tabs, loose, id);
    if id in Leaves(tabs[i]) {
      RootIndex(tabs, loose, c);
    }
    if k < |tabs| && Leaves(tabs[k]) != [] {
      TreesAreDisjoint(tabs, loose, k, i, l);
    }
  }

  /** Dropped ids may be listed as loose again: they are not in the list. */
  lemma LooseStays(tabs: seq<Tab>, loose: set<TabId>, drop: set<TabId>)
    requires Forest(tabs, loose - drop) && Ids(tabs) !! drop
    ensures Forest(tabs, loose)
  {
  }

  // ----- splitting and closing again

  /** Splitting a tab with a new pane and closing that pane gives back the very
      same list: same tabs, same order, same trees, same shares. */
  lemma ClosingUndoesSplitting(tabs: seq<Tab>, source: TabId, added: Tab, direction: Direction)
    requires Forest(tabs, {}) && source in Ids(tabs) && added.id !in Ids(tabs)
    requires added.paneRoot.None? && added.paneRootTabId.Some?
    ensures var split := FinishSplit(tabs + [added], source, added.id, direction);
            && split.Success?
            && RemoveSplitPane(split.value.tabs, split.value.rootTabId, added.id).tabs == tabs
            && RemoveSplitPane(split.value.tabs, split.value.rootTabId, added.id).outcome.Success?
  {
    var pushed := tabs + [added];
    var loose := {added.id};
    WaitingPushed(tabs, source, added);
    FinishSplitIsGrown(pushed, loose, source, added.id, direction);
    FinishSplitKeepsForest(pushed, loose, source, added.id, direction);
    var i, j := Host(pushed, source), |tabs|;
    HostIsTopLevel(pushed, loose, source);
    var tree := GrownTree(pushed[i], source, added.id, direction);
    GrownTreeLeaves(pushed, loose, source, added.id, direction);
    assert loose - {added.id} == {};
    CloseGrown(tabs, added, i, source, direction);
  }

  lemma WaitingPushed(tabs: seq<Tab>, source: TabId, added: Tab)
    requires Forest(tabs, {}) && source in Ids(tabs) && added.id !in Ids(tabs)
    requires added.paneRoot.None? && added.paneRootTabId.Some?
    ensures Waiting(tabs + [added], {added.id}, source, added.id)
    ensures source in Ids(tabs + [added]) && added.id in Ids(tabs + [added])
    ensures IndexOfId(tabs + [added], added.id) == |tabs|
  {
    AddLoose(tabs, {}, added.id);
    assert {} + {added.id} == {added.id};
    PushKeepsForest(tabs, {added.id}, added);
    PushedIndices(tabs, added, source);
  }

  lemma CloseGrown(tabs: seq<Tab>, added: Tab, i: nat, source: TabId, direction: Direction)
    requires i < |tabs| && added.id !in Ids(tabs)
    requires Forest(tabs + [added], {added.id})
    requires source in Shown(tabs[i]) && (tabs[i].paneRoot.None? ==> tabs[i].id == source)
    requires var tree := GrownTree(tabs[i], source, added.id, direction);
             && added.id in LeafTabIds(tree) && |LeafTabIds(tree)| >= 2
             && Forest(Grown(tabs + [added], i, |tabs|, tree), {})
    ensures var tree := GrownTree(tabs[i], source, added.id, direction);
            var step := RemoveSplitPane(Grown(tabs + [added], i, |tabs|, tree), tabs[i].id, added.id);
            step.tabs == tabs && step.outcome.Success?
  {
    var pushed := tabs + [added];
    var tree := GrownTree(tabs[i], source, added.id, direction);
    var grown := Grown(pushed, i, |tabs|, tree);
    assert pushed[i] == tabs[i];
    assert grown[i] == tabs[i].(paneRoot := Some(tree));
    RootIsRequested(grown, {}, i, added.id);
    ShrunkBack(pushed, {added.id}, i, source, added.id, direction);
    DropAdded(tabs, added, i, tree);
  }

  lemma DropAdded(tabs: seq<Tab>, added: Tab, i: nat, tree: PaneNode)
    requires i < |tabs| && added.id !in Ids(tabs) && UniqueIds(tabs + [added])
    ensures var grown := Grown(tabs + [added], i, |tabs|, tree);
            DropIds(grown[i := grown[i].(paneRoot := tabs[i].paneRoot)], {added.id}) == tabs
  {
    var grown := Grown(tabs + [added], i, |tabs|, tree);
    var shrunk := grown[i := grown[i].(paneRoot := tabs[i].paneRoot)];
    assert shrunk[..|tabs|] == tabs;
    assert shrunk[|tabs|].id == added.id;
    DropNone(tabs, {added.id});
  }

  lemma PushedIndices(tabs: seq<Tab>, added: Tab, source: TabId)
    requires UniqueIds(tabs) && source in Ids(tabs) && added.id !in Ids(tabs)
    ensures IndexOfId(tabs + [added], added.id) == |tabs|
    ensures IndexOfId(tabs + [added], source) == IndexOfId(tabs, source) < |tabs|
    ensures source in Ids(tabs + [added]) && added.id in Ids(tabs + [added]) && UniqueIds(tabs + [added])
  {
    var pushed := tabs + [added];
    var k := IndexOfId(tabs, source);
    assert pushed[k].id == source && pushed[|tabs|] == added;
    assert forall m :: 0 <= m < |tabs| ==> pushed[m] == tabs[m];
  }

  lemma ShrunkBack(tabs: seq<Tab>, loose: set<TabId>, i: nat, source: TabId, added: TabId, direction: Direction)
    requires Forest(tabs, loose) && i < |tabs| && added in loose && source in Shown(tabs[i])
    requires tabs[i].paneRoot.None? ==> tabs[i].id == source && source != added
    ensures KeptTree(TreeWithout(GrownTree(tabs[i], source, added, direction), added)) == tabs[i].paneRoot
  {
    var grown := GrownTree(tabs[i], source, added, direction);
    if tabs[i].paneRoot.Some? {
      assert TreeOk(tabs, i);
      CloseUndoesSplit(tabs[i].paneRoot.value, source, added, direction);
    } else {
      CloseUndoesSplit(Leaf(source), source, added, direction);
      assert LeafTabIds(Leaf(source)) == [source];
    }
  }
}
