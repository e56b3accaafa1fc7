/** Where the focus goes: activating, hiding and showing tabs, and what splitting
    and closing panes do to the active tab and the active pane. */
module WorkspaceFocus {
  import opened Wrappers
  import opened Sequences
  import opened Panes
  import opened TabForest
  import opened TabLayout
  import opened WorkspaceRuns
  import opened WorkspaceTheorems

  predicate IsTopLevel(tabs: seq<Tab>, k: nat)
    requires k < |tabs|
  {
    tabs[k].paneRootTabId.None?
  }

  /** A listed session is shown under a top-level tab: itself, or the owner of the
      one tree that lists it. */
  lemma ShownUnderATopLevelTab(tabs: seq<Tab>, loose: set<TabId>, id: TabId)
    requires Forest(tabs, loose) && id in Ids(tabs) && id !in loose
    ensures var i := TopLevelIndex(tabs, id);
            i < |tabs| && IsTopLevel(tabs, i) && id in Shown(tabs[i])
  {
  }

  /** Activating a listed session activates that top-level tab. */
  lemma ActivatesATopLevelTab(w: Workspace, loose: set<TabId>, id: TabId)
    requires Forest(w.tabs, loose) && id in Ids(w.tabs) && id !in loose
    ensures var i := TopLevelIndex(w.tabs, id);
            i < |w.tabs| && IsTopLevel(w.tabs, i) && Activate(w, id) == w.(activeTab := Some(w.tabs[i].id))
  {
    ShownUnderATopLevelTab(w.tabs, loose, id);
  }

  // ----- background sessions

  predicate IsVisible(tabs: seq<Tab>, k: nat, hidden: TabId)
    requires k < |tabs|
  {
    !tabs[k].isBackground && IsTopLevel(tabs, k) && tabs[k].id != hidden
  }

  /** The tab found is the last visible top-level one; there is none exactly when
      nothing is found. */
  lemma {:induction false} NextVisibleIsTheLast(tabs: seq<Tab>, hidden: TabId) returns (k: nat)
    ensures NextVisibleTopLevel(tabs, hidden).None? ==>
              k == |tabs| && forall m :: 0 <= m < |tabs| ==> !IsVisible(tabs, m, hidden)
    ensures NextVisibleTopLevel(tabs, hidden).Some? ==>
              && k < |tabs| && NextVisibleTopLevel(tabs, hidden) == Some(tabs[k].id) && IsVisible(tabs, k, hidden)
              && forall m :: k < m < |tabs| ==> !IsVisible(tabs, m, hidden)
  {
    if tabs == [] {
      k := 0;
    } else {
      var n := |tabs| - 1;
      if IsVisible(tabs, n, hidden) {
        k := n;
      } else {
        var before := NextVisibleIsTheLast(tabs[..n], hidden);
        assert forall m :: 0 <= m < n ==> IsVisible(tabs[..n], m, hidden) == IsVisible(tabs, m, hidden);
        k := if before == n then n + 1 else before;
      }
    }
  }

  /** Hiding a session hides its top-level tab and no other, only when it was opened
      by another program, and takes the focus off it: onto the last visible tab, or
      nowhere. */
  lemma HidingMovesTheFocus(w: Workspace, loose: set<TabId>, id: TabId)
    requires Forest(w.tabs, loose) && id in Ids(w.tabs) && id !in loose
    ensures var i := TopLevelIndex(w.tabs, id); var next := DetachToBackground(w, id);
            && i < |w.tabs| && IsTopLevel(w.tabs, i) && id in Shown(w.tabs[i])
            && (w.tabs[i].source.None? ==> next == w)
            && (w.tabs[i].source.Some? ==>
                  && next.tabs == w.tabs[i := w.tabs[i].(isBackground := true)]
                  && next.activeTab != Some(w.tabs[i].id)
                  && (w.activeTab != Some(w.tabs[i].id) ==> next.activeTab == w.activeTab)
                  && (w.activeTab == Some(w.tabs[i].id) && next.activeTab.Some? ==>
                        exists k :: 0 <= k < |next.tabs| && next.activeTab == Some(next.tabs[k].id)
                                    && IsVisible(next.tabs, k, w.tabs[i].id)))
  {
    ShownUnderATopLevelTab(w.tabs, loose, id);
    var i := TopLevelIndex(w.tabs, id);
    var k := NextVisibleIsTheLast(w.tabs[i := w.tabs[i].(isBackground := true)], w.tabs[i].id);
  }

  /** Showing a hidden session again gives back the tab list it was hidden in, with
      the focus on its tab. */
  lemma ShowingUndoesHiding(w: Workspace, loose: set<TabId>, id: TabId)
    requires Forest(w.tabs, loose) && id in Ids(w.tabs) && id !in loose
    ensures var i := TopLevelIndex(w.tabs, id);
            && i < |w.tabs|
            && (!w.tabs[i].isBackground ==>
                  AttachBackground(DetachToBackground(w, id), id) == w.(activeTab := Some(w.tabs[i].id)))
  {
    ShownUnderATopLevelTab(w.tabs, loose, id);
    SameTopLevelIndex(w.tabs, DetachToBackground(w, id).tabs, id);
    if !w.tabs[TopLevelIndex(w.tabs, id)].isBackground {
      HiddenAndShown(w, TopLevelIndex(w.tabs, id), id);
    }
  }

  lemma HiddenAndShown(w: Workspace, i: nat, id: TabId)
    requires i == TopLevelIndex(w.tabs, id) == TopLevelIndex(DetachToBackground(w, id).tabs, id) && i < |w.tabs|
    requires !w.tabs[i].isBackground
    ensures AttachBackground(DetachToBackground(w, id), id) == w.(activeTab := Some(w.tabs[i].id))
  {
    var hidden := DetachToBackground(w, id);
    assert hidden.tabs[i := hidden.tabs[i].(isBackground := false)] == w.tabs;
  }

  lemma SameTopLevelIndex(tabs: seq<Tab>, next: seq<Tab>, id: TabId)
    requires UniqueIds(tabs) && |tabs| == |next|
    requires forall k :: 0 <= k < |tabs| ==> next[k].id == tabs[k].id && next[k].paneRootTabId == tabs[k].paneRootTabId
    ensures TopLevelIndex(next, id) == TopLevelIndex(tabs, id)
  {
    SameIndices(tabs, next, id);
    var k := IndexOfId(tabs, id);
    if k < |tabs| && tabs[k].paneRootTabId.Some? {
      SameIndices(tabs, next, tabs[k].paneRootTabId.value);
    }
  }

  // ----- splitting and closing

  /** A split that attached focuses its new pane: the active tab is the top-level
      tab whose tree now lists the pane, and the pane is active in it. */
  lemma SplitFocusesItsPane(m: Machine)
    requires Inv(m) && m.pending.Starting? && Attach(m).pending.Focusing?
    ensures var w := Next(Attach(m), FinishFocus).workspace;
            exists i :: 0 <= i < |w.tabs| && w.activeTab == Some(w.tabs[i].id) && IsTopLevel(w.tabs, i)
                        && m.pending.added in Leaves(w.tabs[i]) && m.pending.source in Leaves(w.tabs[i])
                        && w.tabs[i].id in w.activePanes && w.activePanes[w.tabs[i].id] == m.pending.added
  {
    var tabs, p := m.workspace.tabs, m.pending;
    FinishSplitKeepsForest(tabs, Loose(p), p.source, p.added, p.direction);
    var i := Host(tabs, p.source);
    FinishSplitIsGrown(tabs, Loose(p), p.source, p.added, p.direction);
    GrownTreeLeaves(tabs, Loose(p), p.source, p.added, p.direction);
    HostIsTopLevel(tabs, Loose(p), p.source);
    NextFinishFocus(Attach(m));
    PaneIsFocused(m, i, IndexOfId(tabs, p.added), GrownTree(tabs[i], p.source, p.added, p.direction));
  }

  lemma PaneIsFocused(m: Machine, i: nat, j: nat, tree: PaneNode)
    requires m.pending.Starting? && i < j < |m.workspace.tabs|
    requires var p := m.pending;
             FinishSplit(m.workspace.tabs, p.source, p.added, p.direction)
             == Success(Attachment(Grown(m.workspace.tabs, i, j, tree), m.workspace.tabs[i].id))
    requires IsTopLevel(m.workspace.tabs, i)
    requires m.pending.added in LeafTabIds(tree) && m.pending.source in LeafTabIds(tree)
    ensures Attach(m).pending.Focusing?
    ensures var p := Attach(m).pending; var w := FocusSplit(Attach(m).workspace, p.rootTabId, p.source, p.added);
            exists i :: 0 <= i < |w.tabs| && w.activeTab == Some(w.tabs[i].id) && IsTopLevel(w.tabs, i)
                        && m.pending.added in Leaves(w.tabs[i]) && m.pending.source in Leaves(w.tabs[i])
                        && w.tabs[i].id in w.activePanes && w.activePanes[w.tabs[i].id] == m.pending.added
  {
    var p := Attach(m).pending;
    var w := FocusSplit(Attach(m).workspace, p.rootTabId, p.source, p.added);
    assert w.tabs[i].id == m.workspace.tabs[i].id;
    assert Leaves(w.tabs[i]) == LeafTabIds(tree);
  }

  lemma NextFinishFocus(m: Machine)
    requires m.pending.Focusing?
    ensures Next(m, FinishFocus)
            == m.(workspace := FocusSplit(m.workspace, m.pending.rootTabId, m.pending.source, m.pending.added),
                  pending := Free)
  {
  }

  /** Closing the root's own pane moves the focus with the tab: the survivor that
      takes the root's place is active if the root was, and the pane that was active
      stays so if it is still there. */
  lemma ClosingTheRootMovesTheFocus(w: Workspace, i: nat)
    requires Forest(w.tabs, {}) && i < |w.tabs| && w.tabs[i].paneRoot.Some?
    ensures var root := w.tabs[i].id; var remaining := Without(Leaves(w.tabs[i]), root); var next := ClosePane(w, root, root);
            && remaining != [] && i < |next.tabs| && next.tabs[i].id == remaining[0] && IsTopLevel(next.tabs, i)
            && next.activeTab == (if w.activeTab == Some(root) then Some(remaining[0]) else w.activeTab)
            && root !in next.activePanes
            && (|remaining| > 1 ==>
                  && remaining[0] in next.activePanes && next.activePanes[remaining[0]] in remaining
                  && (root in w.activePanes && w.activePanes[root] in remaining ==>
                        next.activePanes[remaining[0]] == w.activePanes[root]))
  {
    var root := w.tabs[i].id;
    assert TreeOk(w.tabs, i);
    CloseRootPane(w.tabs, {}, i);
    RootIsRequested(w.tabs, {}, i, root);
    SurvivorIsTopLevel(w.tabs, i);
    WithoutMembers(Leaves(w.tabs[i]), root);
  }

  lemma SurvivorIsTopLevel(tabs: seq<Tab>, i: nat)
    requires Forest(tabs, {}) && i < |tabs| && tabs[i].paneRoot.Some?
    ensures var step := RemoveSplitPane(tabs, tabs[i].id, tabs[i].id);
            i < |step.tabs| && IsTopLevel(step.tabs, i)
  {
    var root := tabs[i].id;
    assert TreeOk(tabs, i);
    RootIsRequested(tabs, {}, i, root);
    TreeWithoutLeaf(tabs, {}, i, root);
    var tree := TreeWithout(tabs[i].paneRoot.value, root);
    assert LeafTabIds(tree)[0] in LeafTabIds(tree);
    var p := IndexOfId(tabs, LeafTabIds(tree)[0]);
    assert LeafOf(tabs, i, p);
    PromoteIsSwapAndDrop(tabs, i, p, tree);
  }

  // ----- the focus while a split is under way

  /** The new pane's tab points at the root it is meant for, and no tab points at
      the new pane. */
  ghost predicate WaitsBelow(tabs: seq<Tab>, added: TabId) {
    forall k :: 0 <= k < |tabs| ==>
      && tabs[k].paneRootTabId != Some(added)
      && (tabs[k].id == added ==> tabs[k].paneRootTabId.Some?)
  }

  /** The split under way has not attached its pane. */
  predicate IsLoose(m: Machine) {
    m.pending.Starting? || m.pending.RollingBack?
  }

  ghost predicate PaneWaits(m: Machine) {
    IsLoose(m) ==> WaitsBelow(m.workspace.tabs, m.pending.added)
  }

  lemma SplitTabWaits(w: Workspace, source: TabId, added: TabId, profileType: Option<string>)
    requires Forest(w.tabs, {}) && added !in Ids(w.tabs) && SplitTab(w, source, added, profileType).Some?
    ensures WaitsBelow(w.tabs + [SplitTab(w, source, added, profileType).value], added)
  {
    forall j | 0 <= j < |w.tabs| ensures w.tabs[j].paneRootTabId != Some(added) && w.tabs[j].id != added {
      if w.tabs[j].paneRootTabId.Some? {
        assert Attached(w.tabs, j);
      }
    }
  }

  lemma DropWaits(tabs: seq<Tab>, drop: set<TabId>, added: TabId)
    requires WaitsBelow(tabs, added)
    ensures WaitsBelow(DropIds(tabs, drop), added)
  {
    var at := KeptAt(tabs, drop);
  }

  lemma CloseTabWaits(tabs: seq<Tab>, loose: set<TabId>, id: TabId, added: TabId)
    requires Forest(tabs, loose) && WaitsBelow(tabs, added)
    ensures WaitsBelow(CloseTab(tabs, id), added)
  {
    if ClosesAsLeaf(tabs, id) {
      var r := IndexOfId(tabs, tabs[ContainingRoot(tabs, id)].id);
      DropWaits(tabs[r := tabs[r].(paneRoot := ClosedTree(tabs[r].paneRoot, id))], {id}, added);
    } else {
      DropWaits(tabs, ToSet(IdsToClose(tabs, id)), added);
    }
  }

  lemma BeginSplitWaits(m: Machine, c: Command)
    requires Inv(m) && Enabled(m, c) && c.BeginSplit?
    ensures PaneWaits(Next(m, c))
  {
    if SplitTab(m.workspace, c.splitSource, c.added, c.profileType).Some? {
      SplitTabWaits(m.workspace, c.splitSource, c.added, c.profileType);
    }
  }

  lemma SplitKeepsPaneWaits(m: Machine, c: Command)
    requires Inv(m) && Enabled(m, c) && PaneWaits(m) && IsSplitStep(c)
    ensures PaneWaits(Next(m, c))
  {
    if c.BeginSplit? {
      BeginSplitWaits(m, c);
    } else if c.AttachSplit? {
      RolledBackIff(m);
    }
  }

  lemma StepKeepsPaneWaits(m: Machine, c: Command)
    requires Inv(m) && Enabled(m, c) && PaneWaits(m)
    ensures PaneWaits(Next(m, c))
  {
    if IsSplitStep(c) {
      SplitKeepsPaneWaits(m, c);
    } else if c.CloseTabOf? {
      if IsLoose(m) {
        CloseTabWaits(m.workspace.tabs, Loose(m.pending), c.closed, m.pending.added);
      }
    } else if IsEdit(c) {
      EditIsSameForest(m.workspace, c);
    }
  }

  lemma {:induction false} EveryRunKeepsPaneWaits(m: Machine, run: seq<Command>)
    requires Inv(m) && PaneWaits(m) && Runnable(m, run)
    ensures PaneWaits(After(m, run))
    decreases run
  {
    if run != [] {
      StepKeepsForest(m, run[0]);
      StepKeepsRegistry(m, run[0]);
      StepKeepsPaneWaits(m, run[0]);
      EveryRunKeepsPaneWaits(Next(m, run[0]), run[1..]);
    }
  }

  /** The step moves the focus onto the pane of the split: the active tab is closed
      and the pane is the last tab left, or the pane is activated after it was
      closed itself. */
  ghost predicate MovesOntoPane(m: Machine, c: Command)
    requires IsLoose(m)
  {
    var tabs := m.workspace.tabs;
    match c
    case CloseTabOf(id) =>
      && !ClosesAsLeaf(tabs, id) && m.workspace.activeTab == Some(id)
      && CloseTab(tabs, id) != [] && CloseTab(tabs, id)[|CloseTab(tabs, id)| - 1].id == m.pending.added
    case ActivateTab(id) => id == m.pending.added && id !in Ids(tabs)
    case _ => false
  }

  /** The step moves the focus off the pane: the pane is closed, or a tab in the list
      is activated or shown. */
  ghost predicate MovesOffPane(m: Machine, c: Command)
    requires IsLoose(m)
  {
    var tabs := m.workspace.tabs;
    match c
    case CloseTabOf(id) => id == m.pending.added
    case ActivateTab(id) => id != m.pending.added || id in Ids(tabs)
    case AttachBackgroundSession(id) => TopLevelIndex(tabs, id) < |tabs|
    case _ => false
  }

  lemma TopLevelIsNotThePane(tabs: seq<Tab>, id: TabId, added: TabId)
    requires WaitsBelow(tabs, added)
    ensures var i := TopLevelIndex(tabs, id); i < |tabs| ==> tabs[i].id != added
  {
  }

  lemma VisibleIsNotThePane(tabs: seq<Tab>, hidden: TabId, added: TabId)
    requires WaitsBelow(tabs, added)
    ensures NextVisibleTopLevel(tabs, hidden) != Some(added)
  {
    var k := NextVisibleIsTheLast(tabs, hidden);
  }

  lemma ClosingThePane(tabs: seq<Tab>, added: TabId)
    requires Forest(tabs, {added})
    ensures !ClosesAsLeaf(tabs, added) && added !in Ids(CloseTab(tabs, added))
  {
    CloseTabKeepsForest(tabs, {added}, added);
  }

  lemma CloseMovesFocusIff(m: Machine, id: TabId)
    requires Inv(m) && IsLoose(m)
    ensures var next := CloseTabIn(m.workspace, id).activeTab;
            && (m.workspace.activeTab != Some(m.pending.added) ==>
                  (next == Some(m.pending.added) <==> MovesOntoPane(m, CloseTabOf(id))))
            && (m.workspace.activeTab == Some(m.pending.added) ==>
                  (next == Some(m.pending.added) <==> id != m.pending.added))
  {
    ClosingThePane(m.workspace.tabs, m.pending.added);
    var left := CloseTab(m.workspace.tabs, id);
    if left != [] {
      assert left[|left| - 1].id in Ids(left);
    }
  }

  lemma DetachKeepsFocus(w: Workspace, id: TabId, added: TabId)
    requires WaitsBelow(w.tabs, added)
    ensures DetachToBackground(w, id).activeTab == Some(added) <==> w.activeTab == Some(added)
  {
    TopLevelIsNotThePane(w.tabs, id, added);
    var i := TopLevelIndex(w.tabs, id);
    if i < |w.tabs| {
      VisibleIsNotThePane(w.tabs[i := w.tabs[i].(isBackground := true)], w.tabs[i].id, added);
    }
  }

  lemma EditMovesFocusIff(m: Machine, c: Command)
    requires PaneWaits(m) && IsLoose(m) && IsEdit(c)
    ensures var next := Edit(m.workspace, c).activeTab; var added := m.pending.added;
            && (m.workspace.activeTab != Some(added) ==> (next == Some(added) <==> MovesOntoPane(m, c)))
            && (m.workspace.activeTab == Some(added) ==> (next == Some(added) <==> !MovesOffPane(m, c)))
  {
    match c
    case ActivateTab(_) =>
    case SetActivePane(_, _) =>
    case SetPaneWeights(_, _, _) =>
    case AttachBackgroundSession(id) => TopLevelIsNotThePane(m.workspace.tabs, id, m.pending.added);
    case DetachSession(id) => DetachKeepsFocus(m.workspace, id, m.pending.added);
  }

  /** Every step a command can take while a split has not attached its pane puts the
      focus on that pane, or leaves it there, in these cases and no others. The roll
      back is one of those steps and never moves the focus. */
  lemma FocusOnTheNewPaneIff(m: Machine, c: Command)
    requires Inv(m) && PaneWaits(m) && IsLoose(m) && Enabled(m, c)
    ensures Next(m, c).workspace.activeTab == Some(m.pending.added)
            <==> if m.workspace.activeTab == Some(m.pending.added) then !MovesOffPane(m, c) else MovesOntoPane(m, c)
  {
    if IsEdit(c) {
      EditMovesFocusIff(m, c);
    } else if c.CloseTabOf? {
      CloseMovesFocusIff(m, c.closed);
    }
  }

  /** The split with this new pane has not attached it in any state of the run. */
  predicate LooseThrough(m: Machine, run: seq<Command>, added: TabId)
    decreases run
  {
    IsLoose(m) && m.pending.added == added && (run != [] ==> LooseThrough(Next(m, run[0]), run[1..], added))
  }

  /** Whether the last step of the run that moved the focus onto or off the pane
      moved it onto the pane; `on` when there was none. */
  ghost predicate EndsOnPane(m: Machine, run: seq<Command>, added: TabId, on: bool)
    requires LooseThrough(m, run, added)
    decreases run
  {
    if run == [] then on
    else EndsOnPane(Next(m, run[0]), run[1..], added, if on then !MovesOffPane(m, run[0]) else MovesOntoPane(m, run[0]))
  }

  /** The focus is left on a pane that was rolled back exactly when the last step that
      moved it onto or off the pane moved it there. */
  lemma {:induction false} FocusOutlivesAPaneIff(m: Machine, run: seq<Command>, added: TabId)
    requires Inv(m) && PaneWaits(m) && Runnable(m, run) && LooseThrough(m, run, added)
    requires After(m, run).pending.RollingBack?
    ensures Enabled(After(m, run), RollBack)
    ensures var after := Next(After(m, run), RollBack);
            && added !in Ids(after.workspace.tabs)
            && (after.workspace.activeTab == Some(added)
                <==> EndsOnPane(m, run, added, m.workspace.activeTab == Some(added)))
    decreases run
  {
    if run == [] {
      RollBackLeavesNoTrace(m);
    } else {
      StepKeepsForest(m, run[0]);
      StepKeepsRegistry(m, run[0]);
      StepKeepsPaneWaits(m, run[0]);
      FocusOnTheNewPaneIff(m, run[0]);
      FocusOutlivesAPaneIff(Next(m, run[0]), run[1..], added);
    }
  }
}
