/** The workspace as the commands change it: one object whose fields are
    rewritten in place, step by step, with each command proved to leave exactly
    what its function in `TabLayout` and `WorkspaceRuns` says. */
module WorkspaceState {
  import opened Wrappers
  import opened Sequences
  import opened Panes
  import opened TabForest
  import Layout = TabLayout
  import opened TabLayout
  import Runs = WorkspaceRuns
  import opened WorkspaceRuns

  lemma SplitLast<T>(xs: seq<T>, k: nat)
    requires k < |xs|
    ensures xs[..k + 1][..k] == xs[..k] && xs[..k + 1][k] == xs[k] && |xs[..k + 1]| == k + 1
  {
  }

  /** Attaching changes no id, so the new tab it found is still there. */
  lemma AttachKeepsTheNewTab(tabs: seq<Tab>, source: TabId, added: TabId, direction: Direction)
    ensures var done := Layout.AttachSplitPane(tabs, source, added, direction);
            done.Success? ==> IndexOfId(done.value.tabs, added) < |done.value.tabs|
  {
    var done := Layout.AttachSplitPane(tabs, source, added, direction);
    if done.Success? {
      SameIds(tabs, done.value.tabs);
    }
  }

  class State {
    var tabs: seq<Tab>
    var activeTab: Option<TabId>
    var activePanes: map<TabId, TabId>
    var registry: Registry

    function Value(): Workspace
      reads this
    {
      Workspace(tabs, activeTab, activePanes, registry)
    }

    constructor ()
      ensures Value() == EMPTY.workspace
    {
      tabs, activeTab, activePanes, registry := [], None, map[], EMPTY_REGISTRY;
    }

    // ----- the edits of the tab vector

    method Retain(drop: set<TabId>)
      modifies `tabs
      ensures tabs == DropIds(old(tabs), drop)
    {
      var kept, k := [], 0;
      while k < |tabs|
        invariant k <= |tabs| && tabs == old(tabs)
        invariant kept == DropIds(tabs[..k], drop)
      {
        SplitLast(tabs, k);
        if tabs[k].id !in drop {
          kept := kept + [tabs[k]];
        }
        k := k + 1;
      }
      assert tabs[..k] == tabs;
      tabs := kept;
    }

    method RepointLeaves(from: TabId, to: TabId)
      modifies `tabs
      ensures tabs == Repoint(old(tabs), from, to)
    {
      ghost var before := tabs;
      var k := 0;
      while k < |tabs|
        invariant k <= |tabs| == |before|
        invariant forall m :: 0 <= m < k ==> tabs[m] == Repoint(before, from, to)[m]
        invariant forall m :: k <= m < |tabs| ==> tabs[m] == before[m]
      {
        if tabs[k].paneRootTabId == Some(from) {
          tabs := tabs[k := tabs[k].(paneRootTabId := Some(to))];
        }
        k := k + 1;
      }
    }

    method GraftPane(i: nat, source: TabId, pane: PaneNode) returns (r: Result<TabId, LayoutError>)
      requires i < |tabs| && tabs[i].paneRoot.Some?
      modifies `tabs
      ensures match GraftAt(old(tabs), i, source, pane)
              case Failure(e) => r == Failure(e) && tabs == old(tabs)
              case Success(done) => r == Success(done.rootTabId) && tabs == done.tabs
    {
      var tree := ReplaceLeaf(tabs[i].paneRoot.value, source, pane);
      if tree.None? {
        return Failure(SourceNotInLayout);
      }
      tabs := tabs[i := tabs[i].(paneRoot := tree)];
      return Success(tabs[i].id);
    }

    method AttachSplitPane(source: TabId, added: TabId, direction: Direction) returns (r: Result<TabId, LayoutError>)
      modifies `tabs
      ensures match Layout.AttachSplitPane(old(tabs), source, added, direction)
              case Failure(e) => r == Failure(e) && tabs == old(tabs)
              case Success(done) => r == Success(done.rootTabId) && tabs == done.tabs
    {
      if source == added {
        return Failure(SamePane);
      }
      if IndexOfId(tabs, added) == |tabs| {
        return Failure(NewPaneVanished);
      }
      var pane := SplitOf(direction, source, added);
      var own := TreeOwner(tabs, source);
      if own < |tabs| {
        r := GraftPane(own, source, pane);
        return;
      }
      var containing := ContainingRoot(tabs, source);
      if containing < |tabs| {
        r := GraftPane(containing, source, pane);
        return;
      }
      var k := IndexOfId(tabs, source);
      if k == |tabs| {
        return Failure(SourceVanished);
      }
      tabs := tabs[k := tabs[k].(paneRoot := Some(pane))];
      return Success(source);
    }

    /** Removes a pane; when it is the root's own, its first surviving leaf is
        taken out, given the tree, and put back where the root stood. */
    method RemoveSplitPane(root: TabId, pane: TabId) returns (outcome: Result<PaneCloseOutcome, LayoutError>)
      modifies `tabs
      ensures LayoutStep(tabs, outcome) == Layout.RemoveSplitPane(old(tabs), root, pane)
    {
      var i := RequestedRoot(tabs, root, pane);
      if i == |tabs| {
        return Failure(RootNotFound);
      }
      if tabs[i].paneRoot.None? {
        return Failure(NoSplitLayout);
      }
      var before := LeafTabIds(tabs[i].paneRoot.value);
      if |before| < 2 {
        return Failure(OnlyPane);
      }
      if pane !in before {
        return Failure(PaneNotFound);
      }
      var actual, tree := tabs[i].id, TreeWithout(tabs[i].paneRoot.value, pane);
      var remaining := LeafTabIds(tree);
      if pane != actual {
        tabs := tabs[i := tabs[i].(paneRoot := KeptTree(tree))];
        Retain({pane});
        return Success(PaneCloseOutcome(actual, remaining, |remaining| > 1));
      }
      if remaining == [] {
        return Failure(NoSurvivingPane);
      }
      outcome := Promote(i, tree, remaining);
    }

    method Promote(i: nat, tree: PaneNode, remaining: seq<TabId>) returns (outcome: Result<PaneCloseOutcome, LayoutError>)
      requires i < |tabs| && remaining != []
      modifies `tabs
      ensures LayoutStep(tabs, outcome) == PromoteSurvivor(old(tabs), i, tree, remaining)
    {
      var root := tabs[i].id;
      tabs := RemoveAt(tabs, i);
      var p := IndexOfId(tabs, remaining[0]);
      if p == |tabs| {
        return Failure(PromotedPaneNotFound);
      }
      var promoted := tabs[p].(paneRootTabId := None, paneRoot := KeptTree(tree));
      tabs := RemoveAt(tabs, p);
      RepointLeaves(root, remaining[0]);
      tabs := InsertAt(tabs, if i <= |tabs| then i else |tabs|, promoted);
      return Success(PaneCloseOutcome(remaining[0], remaining, |remaining| > 1));
    }

    // ----- the registries

    /** `stop_session_worker`, the log writer and the reconnect counter. */
    method StopSession(id: TabId)
      modifies `registry
      ensures registry == old(registry).(held := Release(old(registry).held, CLOSED_RESOURCES, {id}))
    {
      var held := Release(registry.held, WORKER_RESOURCES, {id});
      registry := registry.(held := Release(held, {LogWriter, SerialAttempts}, {id}));
    }

    method StopSessions(ids: seq<TabId>)
      modifies `registry
      ensures registry == old(registry).(held := Release(old(registry).held, CLOSED_RESOURCES, ToSet(ids)))
    {
      ghost var held := registry.held;
      var k := 0;
      assert Release(held, CLOSED_RESOURCES, ToSet(ids[..0])) == held;
      while k < |ids|
        invariant k <= |ids|
        invariant registry == old(registry).(held := Release(held, CLOSED_RESOURCES, ToSet(ids[..k])))
      {
        StopSession(ids[k]);
        assert ids[..k + 1] == ids[..k] + [ids[k]];
        assert ToSet(ids[..k + 1]) == ToSet(ids[..k]) + {ids[k]};
        k := k + 1;
      }
      assert ids[..k] == ids;
    }

    /** Sessions, launch settings and revisions, one id at a time. */
    method ForgetSessions(ids: seq<TabId>)
      modifies `registry
      ensures registry == Registry(old(registry).sessions - ToSet(ids), old(registry).revisions - ToSet(ids),
                                   old(registry).launches - ToSet(ids), old(registry).held)
    {
      ghost var before := registry;
      var k := 0;
      while k < |ids|
        invariant k <= |ids|
        invariant registry == Registry(before.sessions - ToSet(ids[..k]), before.revisions - ToSet(ids[..k]),
                                       before.launches - ToSet(ids[..k]), before.held)
      {
        var id := ids[k];
        registry := registry.(sessions := registry.sessions - {id}, launches := registry.launches - {id},
                              revisions := registry.revisions - {id});
        assert ids[..k + 1] == ids[..k] + [id];
        assert ToSet(ids[..k + 1]) == ToSet(ids[..k]) + {id};
        k := k + 1;
      }
      assert ids[..k] == ids;
    }

    method TouchRevisions(ids: seq<TabId>)
      modifies `registry
      ensures registry == old(registry).(revisions := old(registry).revisions + ToSet(ids))
    {
      ghost var before := registry;
      var k := 0;
      while k < |ids|
        invariant k <= |ids|
        invariant registry == before.(revisions := before.revisions + ToSet(ids[..k]))
      {
        registry := registry.(revisions := registry.revisions + {ids[k]});
        assert ids[..k + 1] == ids[..k] + [ids[k]];
        assert ToSet(ids[..k + 1]) == ToSet(ids[..k]) + {ids[k]};
        k := k + 1;
      }
      assert ids[..k] == ids;
    }

    // ----- the commands

    /** The first step of opening or splitting: the tab and its session are listed. */
    method ListNewTab(tab: Tab)
      modifies this
      ensures Value() == ListTab(old(Value()), tab)
    {
      tabs := tabs + [tab];
      registry := registry.(sessions := registry.sessions + {tab.id});
    }

    /** One access of a start to the registries. */
    method EnterNext(id: TabId, entry: Entry)
      modifies `registry
      ensures registry == Insert(old(registry), id, entry)
    {
      match entry {
        case Hold(resource) => registry := registry.(held := registry.held + {(resource, id)});
        case Drop(resources) => registry := registry.(held := Release(registry.held, resources, {id}));
        case RememberLaunch => registry := registry.(launches := registry.launches + {id});
        case TouchRevision => registry := registry.(revisions := registry.revisions + {id});
      }
    }

    /** A start that nothing interrupts. */
    method StartSession(id: TabId, launch: Launch)
      modifies `registry
      ensures registry == StartWorker(old(registry), id, launch)
    {
      match launch {
        case LocalShell(started) => StartShell(id, started);
        case Remote(interactive, logged) =>
          EnterNext(id, Hold(Worker));
          if interactive {
            EnterNext(id, Hold(TerminalInput));
          }
          EnterNext(id, Hold(WorkerControl));
          EnterNext(id, Drop({LogWriter}));
          if logged {
            EnterNext(id, Hold(LogWriter));
          }
      }
    }

    method StartShell(id: TabId, started: bool)
      modifies `registry
      ensures registry == StartWorker(old(registry), id, LocalShell(started))
    {
      EnterNext(id, Hold(Worker));
      EnterNext(id, Hold(TerminalInput));
      EnterNext(id, Hold(WorkerControl));
      EnterNext(id, Hold(RuntimeId));
      EnterNext(id, Hold(RuntimeGate));
      EnterNext(id, RememberLaunch);
      if !started {
        EnterNext(id, Drop(SHELL_RESOURCES));
      }
    }

    method Activate(id: TabId)
      modifies this
      ensures Value() == Runs.Activate(old(Value()), id)
    {
      var k := IndexOfId(tabs, id);
      var shown := id;
      if k < |tabs| && tabs[k].paneRootTabId.Some? {
        shown := tabs[k].paneRootTabId.value;
      }
      activeTab := Some(shown);
    }

    method ClosePane(root: TabId, pane: TabId)
      modifies this
      ensures Value() == Runs.ClosePane(old(Value()), root, pane)
    {
      var i := RequestedRoot(tabs, root, pane);
      if i == |tabs| || |Leaves(tabs[i])| < 2 || pane !in Leaves(tabs[i]) {
        return;
      }
      var resolved := tabs[i].id;
      var previous := Lookup(activePanes, resolved);
      StopSession(pane);
      var outcome := RemoveSplitPane(resolved, pane);
      if outcome.Failure? {
        return;
      }
      var closed := outcome.value;
      registry := registry.(sessions := registry.sessions - {pane}, revisions := registry.revisions - {pane});
      if activeTab == Some(root) {
        activeTab := Some(closed.rootTabId);
      }
      activePanes := activePanes - {root};
      if closed.keepsSplit && closed.remaining != [] {
        activePanes := activePanes[closed.rootTabId := NextActivePane(previous, pane, closed.remaining)];
      }
      TouchRevisions(closed.remaining);
    }

    method CloseTab(id: TabId)
      modifies this
      ensures Value() == CloseTabIn(old(Value()), id)
    {
      if ClosesAsLeaf(tabs, id) {
        CloseLeaf(id);
      } else {
        CloseWhole(id);
      }
    }

    method CloseWhole(id: TabId)
      modifies this
      ensures Value() == CloseWholeIn(old(Value()), DropIds(old(tabs), ToSet(IdsToClose(old(tabs), id))), id)
    {
      var ids := IdsToClose(tabs, id);
      StopSessions(ids);
      Retain(ToSet(ids));
      if activeTab == Some(id) {
        activeTab := if tabs == [] then None else Some(tabs[|tabs| - 1].id);
      }
      ForgetSessions(ids);
      activePanes := activePanes - {id};
    }

    method CloseLeaf(id: TabId)
      requires ClosesAsLeaf(tabs, id)
      modifies this
      ensures Value() == CloseLeafIn(old(Value()), Layout.CloseTab(old(tabs), id), id)
    {
      var root := tabs[ContainingRoot(tabs, id)].id;
      StopSession(id);
      var r := IndexOfId(tabs, root);
      DropLeaf(r, id);
      ForgetSessions([id]);
      assert ToSet([id]) == {id};
      FocusRemainingPane(r, root, id);
    }

    method DropLeaf(r: nat, id: TabId)
      requires ClosesAsLeaf(tabs, id) && r == IndexOfId(tabs, tabs[ContainingRoot(tabs, id)].id)
      modifies `tabs
      ensures tabs == Layout.CloseTab(old(tabs), id)
    {
      tabs := tabs[r := tabs[r].(paneRoot := ClosedTree(tabs[r].paneRoot, id))];
      Retain({id});
    }

    method FocusRemainingPane(r: nat, root: TabId, id: TabId)
      modifies `activePanes
      ensures activePanes == CloseLeafPanes(old(activePanes), tabs, r, root, id)
    {
      if r < |tabs| {
        if tabs[r].paneRoot.None? {
          activePanes := activePanes - {root};
        } else {
          var leaves := Leaves(tabs[r]);
          if (root !in activePanes || activePanes[root] == id || activePanes[root] !in leaves) && leaves != [] {
            activePanes := activePanes[root := leaves[0]];
          }
        }
      }
    }

    /** `cleanup_unattached_session`. */
    method RollBack(added: TabId)
      modifies this
      ensures Value() == RollBackSplit(old(Value()), added)
    {
      StopSession(added);
      Retain({added});
      registry := registry.(sessions := registry.sessions - {added}, launches := registry.launches - {added});
      registry := registry.(held := Release(registry.held, {RemoteForwards}, {added}));
      activePanes := map r | r in activePanes && r != added && activePanes[r] != added :: activePanes[r];
      registry := registry.(revisions := registry.revisions - {added});
      ReleaseTwice(old(registry).held, CLOSED_RESOURCES, {RemoteForwards}, {added});
    }

    /** The last steps of a split: attach the pane and focus it, or roll back. */
    method FinishSplit(source: TabId, added: TabId, direction: Direction) returns (attached: bool)
      modifies this
      ensures match Layout.FinishSplit(old(tabs), source, added, direction)
              case Success(done) =>
                attached && Value() == FocusSplit(old(Value()).(tabs := done.tabs), done.rootTabId, source, added)
              case Failure(_) => !attached && Value() == RollBackSplit(old(Value()), added)
    {
      AttachKeepsTheNewTab(tabs, source, added, direction);
      var r := AttachSplitPane(source, added, direction);
      if r.Failure? {
        RollBack(added);
        return false;
      }
      PointAndFocus(source, added, r.value);
      return true;
    }

    method PointAndFocus(source: TabId, added: TabId, root: TabId)
      requires IndexOfId(tabs, added) < |tabs|
      modifies this
      ensures var j := IndexOfId(old(tabs), added);
              Value() == FocusSplit(
                           old(Value()).(tabs := old(tabs)[j := old(tabs)[j].(paneRootTabId := Some(root))]),
                           root, source, added)
    {
      var j := IndexOfId(tabs, added);
      tabs := tabs[j := tabs[j].(paneRootTabId := Some(root))];
      activeTab := Some(root);
      activePanes := activePanes[root := added];
      TouchRevisions([source, added]);
      assert ToSet([source, added]) == {source, added};
    }

    method AttachBackground(id: TabId)
      modifies this
      ensures Value() == Runs.AttachBackground(old(Value()), id)
    {
      var i := TopLevelIndex(tabs, id);
      if i < |tabs| {
        tabs := tabs[i := tabs[i].(isBackground := false)];
        activeTab := Some(tabs[i].id);
      }
    }

    method DetachToBackground(id: TabId)
      modifies this
      ensures Value() == Runs.DetachToBackground(old(Value()), id)
    {
      var i := TopLevelIndex(tabs, id);
      if i == |tabs| || tabs[i].source.None? {
        return;
      }
      tabs := tabs[i := tabs[i].(isBackground := true)];
      if activeTab == Some(tabs[i].id) {
        activeTab := LastVisible(tabs[i].id);
      }
    }

    /** Searches the list from its end. */
    method LastVisible(hidden: TabId) returns (found: Option<TabId>)
      ensures found == NextVisibleTopLevel(tabs, hidden)
    {
      var k := |tabs|;
      assert tabs[..k] == tabs;
      while k > 0
        invariant k <= |tabs|
        invariant NextVisibleTopLevel(tabs, hidden) == NextVisibleTopLevel(tabs[..k], hidden)
      {
        SplitLast(tabs, k - 1);
        if !tabs[k - 1].isBackground && tabs[k - 1].paneRootTabId.None? && tabs[k - 1].id != hidden {
          return Some(tabs[k - 1].id);
        }
        k := k - 1;
      }
      return None;
    }
  }

  lemma ReleaseTwice(held: set<(Resource, TabId)>, a: set<Resource>, b: set<Resource>, ids: set<TabId>)
    ensures Release(Release(held, a, ids), b, ids) == Release(held, a + b, ids)
  {
  }
}
