/** What the runs of the workspace guarantee beside the forest itself: a split
    that fails leaves nothing behind, one tree holds one type of session, and the
    two ways to close a pane agree. */
module WorkspaceTheorems {
  import opened Wrappers
  import opened Sequences
  import opened Panes
  import opened TabForest
  import opened TabLayout
  import opened WorkspaceRuns
  import opened WorkspaceStarts

  // ----- a split whose source is gone

  /** When the source was closed while the new session started, the attach step
      changes no tab and the split can only be rolled back. */
  lemma ClosedSourceIsRolledBack(m: Machine)
    requires Inv(m) && m.pending.Starting? && m.pending.source !in Ids(m.workspace.tabs)
    ensures Attach(m) == m.(pending := RollingBack(m.pending.added))
  {
    FinishSplitKeepsForest(m.workspace.tabs, Loose(m.pending), m.pending.source, m.pending.added, m.pending.direction);
  }

  /** A split is rolled back exactly when its source or its new tab is gone. */
  lemma RolledBackIff(m: Machine)
    requires Inv(m) && m.pending.Starting?
    ensures Attach(m).pending.RollingBack?
            <==> m.pending.source !in Ids(m.workspace.tabs) || m.pending.added !in Ids(m.workspace.tabs)
  {
    FinishSplitKeepsForest(m.workspace.tabs, Loose(m.pending), m.pending.source, m.pending.added, m.pending.direction);
  }

  /** Rolling back takes the new pane out of the list, out of every map and out
      of the active panes, whatever ran since it was listed, and takes nothing
      else. Only the active tab is not looked at. */
  lemma RollBackLeavesNoTrace(m: Machine)
    requires Inv(m) && m.pending.RollingBack?
    ensures var added := m.pending.added; var before, after := m.workspace, Next(m, RollBack).workspace;
            && Next(m, RollBack).pending == Free
            && Ids(after.tabs) == Ids(before.tabs) - {added}
            && (forall i :: 0 <= i < |after.tabs| ==> after.tabs[i] in before.tabs && added !in Leaves(after.tabs[i]))
            && !after.registry.Mentions(added)
            && (forall id :: id != added ==> after.registry.Mentions(id) == before.registry.Mentions(id))
            && (forall r :: r in after.activePanes ==> r != added && after.activePanes[r] != added)
            && (forall r :: r in before.activePanes && r != added && before.activePanes[r] != added ==>
                  r in after.activePanes && after.activePanes[r] == before.activePanes[r])
            && after.activeTab == before.activeTab
  {
    NextRollBack(m);
    RollBackKeepsForest(m.workspace.tabs, m.pending.added);
    RolledBackTabs(m.workspace.tabs, m.pending.added);
    RolledBackRegistry(m.workspace.registry, m.pending.added);
  }

  lemma RolledBackTabs(tabs: seq<Tab>, added: TabId)
    requires Forest(tabs, {added})
    ensures var next := DropIds(tabs, {added});
            forall i :: 0 <= i < |next| ==> next[i] in tabs && added !in Leaves(next[i])
  {
    var at := KeptAt(tabs, {added});
    var next := DropIds(tabs, {added});
    forall i | 0 <= i < |next| ensures next[i] in tabs && added !in Leaves(next[i]) {
      assert next[i] == tabs[at[i]];
    }
  }

  lemma RolledBackRegistry(r: Registry, added: TabId)
    ensures !RollBackRegistry(r, added).Mentions(added)
    ensures forall id :: id != added ==> RollBackRegistry(r, added).Mentions(id) == r.Mentions(id)
  {
    var after := RollBackRegistry(r, added);
    forall p | p in after.held ensures p.1 != added {
      ClosedResourcesAreAll(p.0);
    }
    forall id | id != added ensures after.Mentions(id) == r.Mentions(id) {
      if p :| p in r.held && p.1 == id {
        assert p in after.held;
      }
    }
  }

  lemma RunStep(m: Machine, c: Command, rest: seq<Command>)
    ensures After(m, [c] + rest) == After(Next(m, c), rest)
    ensures Runnable(m, [c] + rest) <==> Enabled(m, c) && Runnable(Next(m, c), rest)
  {
  }

  /** The active tab is the exception. In the run that closes the active source while
      its split starts, the last tab of the list becomes active, and after the roll
      back the focus is on a pane that no longer exists exactly when that was the
      new one. `WorkspaceFocus` has the condition for every run. */
  lemma FocusOutlivesARolledBackPaneIff(m: Machine)
    requires Inv(m) && m.pending.Starting? && m.pending.started
    requires m.pending.source in Ids(m.workspace.tabs) && !ClosesAsLeaf(m.workspace.tabs, m.pending.source)
    requires m.workspace.activeTab == Some(m.pending.source)
    ensures var run := [CloseTabOf(m.pending.source)] + ([AttachSplit] + ([RollBack] + []));
            var left := CloseTab(m.workspace.tabs, m.pending.source);
            && Runnable(m, run)
            && m.pending.added !in Ids(After(m, run).workspace.tabs)
            && (After(m, run).workspace.activeTab == Some(m.pending.added)
                <==> left != [] && left[|left| - 1].id == m.pending.added)
  {
    var closed := m.(workspace := CloseTabIn(m.workspace, m.pending.source));
    CloseTheSource(m, closed);
    CloseAttachRollBack(m, closed);
  }

  lemma CloseAttachRollBack(m: Machine, closed: Machine)
    requires m.pending.Starting? && m.pending.started
    requires closed == m.(workspace := CloseTabIn(m.workspace, m.pending.source))
    requires Attach(closed) == closed.(pending := RollingBack(m.pending.added))
    ensures var run := [CloseTabOf(m.pending.source)] + ([AttachSplit] + ([RollBack] + []));
            Runnable(m, run) && After(m, run) == closed.(workspace := RollBackSplit(closed.workspace, m.pending.added), pending := Free)
  {
    var rollingBack := closed.(pending := RollingBack(m.pending.added));
    var done := closed.(workspace := RollBackSplit(closed.workspace, m.pending.added), pending := Free);
    NextClose(m, m.pending.source);
    NextAttach(closed);
    NextRollBack(rollingBack);
    ThreeSteps(m, CloseTabOf(m.pending.source), closed, AttachSplit, rollingBack, RollBack, done);
  }

  lemma NextClose(m: Machine, id: TabId)
    ensures Next(m, CloseTabOf(id)) == m.(workspace := CloseTabIn(m.workspace, id))
  {
  }

  lemma NextAttach(m: Machine)
    requires m.pending.Starting?
    ensures Next(m, AttachSplit) == Attach(m)
  {
  }

  lemma NextRollBack(m: Machine)
    requires m.pending.RollingBack?
    ensures Next(m, RollBack) == m.(workspace := RollBackSplit(m.workspace, m.pending.added), pending := Free)
  {
  }

  lemma ThreeSteps(m0: Machine, a: Command, m1: Machine, b: Command, m2: Machine, c: Command, m3: Machine)
    requires Enabled(m0, a) && m1 == Next(m0, a)
    requires Enabled(m1, b) && m2 == Next(m1, b)
    requires Enabled(m2, c) && m3 == Next(m2, c)
    ensures Runnable(m0, [a] + ([b] + ([c] + []))) && After(m0, [a] + ([b] + ([c] + []))) == m3
  {
    RunStep(m0, a, [b] + ([c] + []));
    RunStep(m1, b, [c] + []);
    RunStep(m2, c, []);
  }

  lemma CloseTheSource(m: Machine, closed: Machine)
    requires Inv(m) && m.pending.Starting?
    requires m.pending.source in Ids(m.workspace.tabs) && !ClosesAsLeaf(m.workspace.tabs, m.pending.source)
    requires closed == m.(workspace := CloseTabIn(m.workspace, m.pending.source))
    ensures Inv(closed)
    ensures Attach(closed) == closed.(pending := RollingBack(m.pending.added))
    ensures m.pending.added !in Ids(RollBackSplit(closed.workspace, m.pending.added).tabs)
  {
    CloseTabForestInv(m, m.pending.source);
    CloseTabKeepsRegistry(m, m.pending.source);
    SourceCloses(m.workspace.tabs, Loose(m.pending), m.pending.source);
    ClosedSourceIsRolledBack(closed);
    DropIdsIds(closed.workspace.tabs, {m.pending.added});
  }

  lemma SourceCloses(tabs: seq<Tab>, loose: set<TabId>, id: TabId)
    requires Forest(tabs, loose) && id in Ids(tabs) && !ClosesAsLeaf(tabs, id)
    ensures id !in Ids(CloseTab(tabs, id))
  {
    var k := IndexOfId(tabs, id);
    assert tabs[k].paneRoot.Some? ==> TreeOk(tabs, k);
    CloseTabKeepsForest(tabs, loose, id);
  }

  /** Such a split is reached from the empty workspace: open a local shell and
      split it. */
  lemma ASplitOfTheOnlyTab()
    ensures var opening := [OpenSession(0, "s", "local", false, None, true, false)] + Steps(0, |Script(LocalShell(true))|);
            var run := opening + ([ActivateTab("s")] + ([BeginSplit("s", "n", Row, None)] + ([StartSplit(true, false)] + [])));
            var m := After(EMPTY, run);
            && Runnable(EMPTY, run) && Inv(m)
            && m.pending == Starting("s", "n", Row, "local", true)
            && m.workspace.tabs == [NewTab("s", "local", false, None, None), NewTab("n", "local", false, None, Some("s"))]
            && m.workspace.activeTab == Some("s")
            && CloseTab(m.workspace.tabs, "s") == [NewTab("n", "local", false, None, Some("s"))]
            && !ClosesAsLeaf(m.workspace.tabs, "s")
  {
    var c := OpenSession(0, "s", "local", false, None, true, false);
    var opening := [c] + Steps(0, |Script(LocalShell(true))|);
    var begin := BeginSplit("s", "n", Row, None);
    var start := StartSplit(true, false);
    AnUninterruptedOpen(EMPTY, c);
    var m0 := After(EMPTY, opening);
    OpenTheOnlyTab(m0);
    var m1 := Next(m0, ActivateTab("s"));
    SplitTheOnlyTab(m1);
    var m2 := Next(m1, begin);
    ThreeSteps(m0, ActivateTab("s"), m1, begin, m2, start, Next(m2, start));
    RunOn(EMPTY, opening, [ActivateTab("s")] + ([begin] + ([start] + [])));
    TwoTabs(NewTab("s", "local", false, None, None), NewTab("n", "local", false, None, Some("s")));
    TheEmptyWorkspaceIsAForest();
    EveryRunKeepsTheForest(EMPTY, opening + ([ActivateTab("s")] + ([begin] + ([start] + []))));
  }

  lemma OpenTheOnlyTab(m: Machine)
    requires m == EMPTY.(workspace := Open(EMPTY.workspace, NewTab("s", "local", false, None, None), LocalShell(true)))
    ensures var next := Next(m, ActivateTab("s"));
            && next.workspace.tabs == [NewTab("s", "local", false, None, None)]
            && next.workspace.activeTab == Some("s") && next.pending == Free && next.starts == map[]
            && "s" in next.workspace.registry.launches && !next.workspace.registry.Mentions("n")
  {
  }

  lemma SplitTheOnlyTab(m: Machine)
    requires m.workspace.tabs == [NewTab("s", "local", false, None, None)] && m.pending == Free && m.starts == map[]
    requires "s" in m.workspace.registry.launches && !m.workspace.registry.Mentions("n")
    requires m.workspace.activeTab == Some("s")
    ensures var next := Next(m, BeginSplit("s", "n", Row, None));
            && Enabled(m, BeginSplit("s", "n", Row, None))
            && next.workspace.tabs == [NewTab("s", "local", false, None, None), NewTab("n", "local", false, None, Some("s"))]
            && next.workspace.activeTab == m.workspace.activeTab
            && next.pending == Starting("s", "n", Row, "local", false)
  {
  }

  lemma OneTab(s: Tab)
    requires s.paneRoot.None?
    ensures IndexOfId([s], s.id) == 0 && ContainingRoot([s], s.id) == 1 && Ids([s]) == {s.id}
  {
  }

  lemma TwoTabs(s: Tab, n: Tab)
    requires s.paneRoot.None? && n.paneRoot.None? && s.id != n.id
    ensures IndexOfId([s, n], s.id) == 0 && ContainingRoot([s, n], s.id) == 2
    ensures CloseTab([s, n], s.id) == [n]
  {
    assert [s, n][1..] == [n] && [n][1..] == [];
    assert ContainingRoot([n], s.id) == 1;
    assert ToSet([s.id]) == {s.id};
    assert [s, n][..1] == [s] && [s][..0] == [];
    assert DropIds([s], {s.id}) == DropIds([], {s.id});
  }

  // ----- opening and closing

  /** Nothing in the workspace mentions the id. */
  ghost predicate IsUnknown(w: Workspace, id: TabId) {
    id !in Ids(w.tabs) && !w.registry.Mentions(id) && id !in w.activePanes
  }

  lemma NewTabIsNoLeaf(tabs: seq<Tab>, loose: set<TabId>, tab: Tab)
    requires Forest(tabs, loose) && tab.id !in Ids(tabs) && tab.paneRoot.None?
    ensures !ClosesAsLeaf(tabs + [tab], tab.id) && IdsToClose(tabs + [tab], tab.id) == [tab.id]
  {
    var next := tabs + [tab];
    IndexAfterPush(tabs, tab, tab.id);
    forall k | 0 <= k < |tabs| ensures tab.id !in Leaves(tabs[k]) {
      assert tabs[k].paneRoot.Some? ==> TreeOk(tabs, k);
    }
  }

  lemma StartedThenClosed(r: Registry, id: TabId, launch: Launch)
    requires !r.Mentions(id)
    ensures CloseTabRegistry(StartWorker(r.(sessions := r.sessions + {id}), id, launch), {id}) == r
  {
    var next := StartWorker(r.(sessions := r.sessions + {id}), id, launch);
    forall p ensures p in Release(next.held, CLOSED_RESOURCES, {id}) <==> p in r.held {
      ClosedResourcesAreAll(p.0);
    }
  }

  /** Opening a session without interruption and closing its tab gives back the
      whole workspace: tabs, panes and every map. Only the active tab may differ,
      and only when the new one had been activated: then it is the last tab. A
      session that runs holds its worker in between. */
  lemma ClosingUndoesOpening(w: Workspace, loose: set<TabId>, tab: Tab, launch: Launch, activate: bool)
    requires Forest(w.tabs, loose) && IsUnknown(w, tab.id) && tab.paneRoot.None?
    requires w.activeTab != Some(tab.id)
    ensures var started := Open(w, tab, launch);
            var listed := if activate then started.(activeTab := Some(tab.id)) else started;
            && (launch.Remote? || launch.started ==> (Worker, tab.id) in listed.registry.held)
            && CloseTabIn(listed, tab.id)
               == if activate
                  then w.(activeTab := if w.tabs == [] then None else Some(w.tabs[|w.tabs| - 1].id))
                  else w
  {
    NewTabIsNoLeaf(w.tabs, loose, tab);
    StartedThenClosed(w.registry, tab.id, launch);
    assert ToSet([tab.id]) == {tab.id};
    DropPushed(w.tabs, tab);
    assert w.activePanes - {tab.id} == w.activePanes;
  }

  lemma DropPushed(tabs: seq<Tab>, tab: Tab)
    requires tab.id !in Ids(tabs)
    ensures DropIds(tabs + [tab], {tab.id}) == tabs
  {
    assert (tabs + [tab])[..|tabs|] == tabs;
    DropNone(tabs, {tab.id});
  }

  // ----- one type of session per tree

  /** Every tree shows sessions of one type, and that type can be split. */
  ghost predicate Uniform(tabs: seq<Tab>) {
    forall i, k :: 0 <= i < |tabs| && 0 <= k < |tabs| && tabs[k].id in Leaves(tabs[i]) ==>
      tabs[k].sessionType == tabs[i].sessionType && SupportsSplitPanes(tabs[i].sessionType)
  }

  /** Each tab of `next` was in `tabs` with the same type, and each tree of `next`
      shows part of one tree of `tabs`. */
  ghost predicate Inherits(tabs: seq<Tab>, next: seq<Tab>) {
    && (forall k :: 0 <= k < |next| ==> HasType(tabs, next[k].id, next[k].sessionType))
    && (forall i :: 0 <= i < |next| && next[i].paneRoot.Some? ==> InOneTree(tabs, next[i]))
  }

  ghost predicate HasType(tabs: seq<Tab>, id: TabId, sessionType: string) {
    exists j :: 0 <= j < |tabs| && tabs[j].id == id && tabs[j].sessionType == sessionType
  }

  ghost predicate InOneTree(tabs: seq<Tab>, tab: Tab) {
    exists r :: 0 <= r < |tabs| && tab.id in Leaves(tabs[r]) && forall l :: l in Leaves(tab) ==> l in Leaves(tabs[r])
  }

  lemma InheritsKeepsUniform(tabs: seq<Tab>, next: seq<Tab>)
    requires Uniform(tabs) && Inherits(tabs, next)
    ensures Uniform(next)
  {
  }

  lemma DropInherits(tabs: seq<Tab>, loose: set<TabId>, drop: set<TabId>)
    requires Forest(tabs, loose)
    ensures Inherits(tabs, DropIds(tabs, drop))
  {
    var next := DropIds(tabs, drop);
    var at := KeptAt(tabs, drop);
    forall k | 0 <= k < |next|
      ensures HasType(tabs, next[k].id, next[k].sessionType)
    {
      assert tabs[at[k]] == next[k];
    }
    forall i | 0 <= i < |next| && next[i].paneRoot.Some?
      ensures InOneTree(tabs, next[i])
    {
      assert TreeOk(tabs, at[i]);
      assert next[i].id in Leaves(tabs[at[i]]);
    }
  }

  lemma EditInherits(tabs: seq<Tab>, loose: set<TabId>, next: seq<Tab>)
    requires Forest(tabs, loose) && |next| == |tabs|
    requires forall k :: 0 <= k < |tabs| ==>
               && next[k].id == tabs[k].id && next[k].sessionType == tabs[k].sessionType
               && (forall l :: l in Leaves(next[k]) ==> l in Leaves(tabs[k]))
               && (next[k].paneRoot.Some? ==> tabs[k].paneRoot.Some?)
    ensures Inherits(tabs, next)
  {
  }

  lemma PromoteInherits(tabs: seq<Tab>, loose: set<TabId>, i: nat, p: nat, tree: Option<PaneNode>)
    requires CanPromote(tabs, loose, i, p, tree)
    ensures Inherits(tabs, Promoted(tabs, i, p, tree))
  {
  }

  lemma CloseChildUniform(tabs: seq<Tab>, loose: set<TabId>, i: nat, leaf: TabId, tree: Option<PaneNode>)
    requires Forest(tabs, loose) && Uniform(tabs)
    requires i < |tabs| && tabs[i].paneRoot.Some? && leaf in Leaves(tabs[i]) && leaf != tabs[i].id
    requires LeavesWithout(tabs, i, leaf, tree)
    ensures Uniform(DropIds(tabs[i := tabs[i].(paneRoot := tree)], {leaf}))
  {
    var shrunk := tabs[i := tabs[i].(paneRoot := tree)];
    ShrinkKeepsForest(tabs, loose, i, leaf, tree);
    EditInherits(tabs, loose, shrunk);
    InheritsKeepsUniform(tabs, shrunk);
    DropInherits(shrunk, loose + {leaf}, {leaf});
    InheritsKeepsUniform(shrunk, DropIds(shrunk, {leaf}));
  }

  lemma CloseRootUniform(tabs: seq<Tab>, loose: set<TabId>, i: nat, tree: PaneNode)
    requires Forest(tabs, loose) && Uniform(tabs) && i < |tabs| && tabs[i].paneRoot.Some?
    requires LeafTabIds(tree) != [] && LeavesWithout(tabs, i, tabs[i].id, KeptTree(tree))
    requires forall l :: l in LeafTabIds(tree) <==> l in Leaves(tabs[i]) && l != tabs[i].id
    ensures Uniform(PromoteSurvivor(tabs, i, tree, LeafTabIds(tree)).tabs)
  {
    assert TreeOk(tabs, i);
    assert LeafTabIds(tree)[0] in LeafTabIds(tree);
    var p := IndexOfId(tabs, LeafTabIds(tree)[0]);
    assert LeafOf(tabs, i, p);
    var swapped := Promoted(tabs, i, p, KeptTree(tree));
    PromoteIsSwapAndDrop(tabs, i, p, tree);
    PromoteKeepsForest(tabs, loose, i, p, KeptTree(tree));
    PromoteInherits(tabs, loose, i, p, KeptTree(tree));
    InheritsKeepsUniform(tabs, swapped);
    DropInherits(swapped, loose + {tabs[i].id}, {tabs[i].id});
    InheritsKeepsUniform(swapped, DropIds(swapped, {tabs[i].id}));
  }

  lemma RemoveSplitPaneUniform(tabs: seq<Tab>, loose: set<TabId>, root: TabId, pane: TabId)
    requires Forest(tabs, loose) && Uniform(tabs)
    ensures Uniform(RemoveSplitPane(tabs, root, pane).tabs)
  {
    var i := RequestedRoot(tabs, root, pane);
    if i < |tabs| && tabs[i].paneRoot.Some? && pane in Leaves(tabs[i]) {
      var tree := TreeWithout(tabs[i].paneRoot.value, pane);
      TreeWithoutLeaf(tabs, loose, i, pane);
      if pane == tabs[i].id {
        CloseRootUniform(tabs, loose, i, tree);
      } else {
        CloseChildUniform(tabs, loose, i, pane, KeptTree(tree));
      }
    }
  }

  lemma CloseTabUniform(tabs: seq<Tab>, loose: set<TabId>, id: TabId)
    requires Forest(tabs, loose) && Uniform(tabs)
    ensures Uniform(CloseTab(tabs, id))
  {
    if ClosesAsLeaf(tabs, id) {
      var i := ContainingRoot(tabs, id);
      LeafPathIsForChildren(tabs, loose, id);
      CloseTabAgreesWithClosePane(tabs, loose, i, id);
      RemoveSplitPaneUniform(tabs, loose, tabs[i].id, id);
    } else {
      DropInherits(tabs, loose, ToSet(IdsToClose(tabs, id)));
      InheritsKeepsUniform(tabs, CloseTab(tabs, id));
    }
  }

  /** A split keeps its tree uniform exactly when the new session has the type of
      the tab that hosts it. */
  lemma AttachIsUniformIff(tabs: seq<Tab>, loose: set<TabId>, source: TabId, added: TabId, direction: Direction)
    requires Waiting(tabs, loose, source, added) && Uniform(tabs)
    requires source in Ids(tabs) && added in Ids(tabs)
    requires SupportsSplitPanes(tabs[IndexOfId(tabs, source)].sessionType)
    ensures FinishSplit(tabs, source, added, direction).Success?
    ensures Uniform(FinishSplit(tabs, source, added, direction).value.tabs)
            <==> tabs[IndexOfId(tabs, added)].sessionType == tabs[IndexOfId(tabs, source)].sessionType
  {
    var i, j, k := Host(tabs, source), IndexOfId(tabs, added), IndexOfId(tabs, source);
    FinishSplitIsGrown(tabs, loose, source, added, direction);
    HostIsTopLevel(tabs, loose, source);
    GrownTreeLeaves(tabs, loose, source, added, direction);
    var tree := GrownTree(tabs[i], source, added, direction);
    assert tabs[i].paneRoot.Some? ==> tabs[k].id in Leaves(tabs[i]);
    assert tabs[i].paneRoot.None? ==> k == i;
    assert tabs[i].sessionType == tabs[k].sessionType;
    GrownIsUniformIff(tabs, loose, i, j, tree);
  }

  lemma GrownIsUniformIff(tabs: seq<Tab>, loose: set<TabId>, i: nat, j: nat, tree: PaneNode)
    requires Forest(tabs, loose) && Uniform(tabs) && i < |tabs| && j < |tabs| && i != j && tabs[j].id in loose
    requires SupportsSplitPanes(tabs[i].sessionType)
    requires forall l :: l in LeafTabIds(tree) <==> l in Shown(tabs[i]) || l == tabs[j].id
    ensures Uniform(Grown(tabs, i, j, tree)) <==> tabs[j].sessionType == tabs[i].sessionType
  {
    var next := Grown(tabs, i, j, tree);
    assert next[j].id in Leaves(next[i]);
    if tabs[j].sessionType == tabs[i].sessionType {
      forall r, k | 0 <= r < |next| && 0 <= k < |next| && next[k].id in Leaves(next[r])
        ensures next[k].sessionType == next[r].sessionType && SupportsSplitPanes(next[r].sessionType)
      {
        if r == i && k != j {
          assert tabs[k].id in Shown(tabs[i]);
          assert tabs[i].paneRoot.None? ==> k == i;
        }
      }
    }
  }

  ghost predicate UniformInv(m: Machine) {
    && Uniform(m.workspace.tabs)
    && (m.pending.Starting? ==>
          var tabs := m.workspace.tabs;
          m.pending.source in Ids(tabs) ==>
            var sessionType := tabs[IndexOfId(tabs, m.pending.source)].sessionType;
            && SupportsSplitPanes(sessionType)
            && (m.pending.added in Ids(tabs) ==> tabs[IndexOfId(tabs, m.pending.added)].sessionType == sessionType))
  }

  /** The saved profile of a split still is an SSH profile. */
  predicate ProfileKeepsType(c: Command) {
    c.BeginSplit? && c.profileType.Some? ==> c.profileType.value == "ssh"
  }

  lemma PushUniform(tabs: seq<Tab>, loose: set<TabId>, tab: Tab)
    requires Forest(tabs, loose) && Uniform(tabs) && tab.id !in Ids(tabs) && tab.paneRoot.None?
    ensures Uniform(tabs + [tab])
  {
  }

  lemma OpenUniform(m: Machine, c: Command)
    requires Inv(m) && UniformInv(m) && Enabled(m, c) && c.OpenSession?
    ensures UniformInv(Next(m, c))
  {
    var tab := NewTab(c.tab, c.sessionType, c.isBackground, c.source, None);
    PushUniform(m.workspace.tabs, Loose(m.pending), tab);
    if m.pending.Starting? {
      IndexAfterPush(m.workspace.tabs, tab, m.pending.source);
      IndexAfterPush(m.workspace.tabs, tab, m.pending.added);
    }
  }

  lemma BeginSplitUniform(m: Machine, c: Command)
    requires Inv(m) && UniformInv(m) && Enabled(m, c) && c.BeginSplit? && ProfileKeepsType(c)
    ensures UniformInv(Next(m, c))
  {
    var tabs := m.workspace.tabs;
    var split := SplitTab(m.workspace, c.splitSource, c.added, c.profileType);
    if split.Some? {
      PushUniform(tabs, {}, split.value);
      IndexAfterPush(tabs, split.value, c.splitSource);
    }
  }

  lemma AttachUniform(m: Machine)
    requires Inv(m) && UniformInv(m) && m.pending.Starting?
    ensures UniformInv(Attach(m))
  {
    var p := m.pending;
    RolledBackIff(m);
    if Attach(m).pending.Focusing? {
      AttachIsUniformIff(m.workspace.tabs, Loose(p), p.source, p.added, p.direction);
    }
  }

  lemma CloseTabUniformInv(m: Machine, id: TabId)
    requires Inv(m) && UniformInv(m)
    ensures UniformInv(m.(workspace := CloseTabIn(m.workspace, id)))
  {
    var tabs := m.workspace.tabs;
    CloseTabUniform(tabs, Loose(m.pending), id);
    assert CloseTabIn(m.workspace, id).tabs == CloseTab(tabs, id);
    if m.pending.Starting? {
      CloseTabTypes(tabs, Loose(m.pending), id, m.pending.source);
      CloseTabTypes(tabs, Loose(m.pending), id, m.pending.added);
    }
  }

  lemma CloseTabTypes(tabs: seq<Tab>, loose: set<TabId>, id: TabId, x: TabId)
    requires Forest(tabs, loose)
    ensures x in Ids(CloseTab(tabs, id)) ==>
              && x in Ids(tabs)
              && CloseTab(tabs, id)[IndexOfId(CloseTab(tabs, id), x)].sessionType == tabs[IndexOfId(tabs, x)].sessionType
  {
    var next := CloseTab(tabs, id);
    if x in Ids(next) {
      if ClosesAsLeaf(tabs, id) {
        var r := IndexOfId(tabs, tabs[ContainingRoot(tabs, id)].id);
        var shrunk := tabs[r := tabs[r].(paneRoot := ClosedTree(tabs[r].paneRoot, id))];
        SameIndices(tabs, shrunk, x);
        DropTypes(shrunk, {id}, x);
      } else {
        DropTypes(tabs, ToSet(IdsToClose(tabs, id)), x);
      }
    }
  }

  lemma DropTypes(tabs: seq<Tab>, drop: set<TabId>, x: TabId)
    requires UniqueIds(tabs) && x in Ids(DropIds(tabs, drop))
    ensures x in Ids(tabs)
    ensures DropIds(tabs, drop)[IndexOfId(DropIds(tabs, drop), x)] == tabs[IndexOfId(tabs, x)]
  {
    var at := KeptAt(tabs, drop);
    var k := IndexOfId(DropIds(tabs, drop), x);
    assert tabs[at[k]].id == x;
    assert IndexOfId(tabs, x) == at[k];
  }

  lemma ClosePaneUniform(w: Workspace, root: TabId, pane: TabId)
    requires Forest(w.tabs, {}) && Uniform(w.tabs)
    ensures Uniform(ClosePane(w, root, pane).tabs)
  {
    var i := RequestedRoot(w.tabs, root, pane);
    if i < |w.tabs| {
      RemoveSplitPaneUniform(w.tabs, {}, w.tabs[i].id, pane);
    }
  }

  lemma EditUniform(m: Machine, c: Command)
    requires Inv(m) && UniformInv(m) && IsEdit(c)
    ensures UniformInv(m.(workspace := Edit(m.workspace, c)))
  {
    var tabs, next := m.workspace.tabs, Edit(m.workspace, c).tabs;
    EditIsSameForest(m.workspace, c);
    EditInherits(tabs, Loose(m.pending), next);
    InheritsKeepsUniform(tabs, next);
    if m.pending.Starting? {
      SameIndices(tabs, next, m.pending.source);
      SameIndices(tabs, next, m.pending.added);
    }
  }

  lemma SplitKeepsUniform(m: Machine, c: Command)
    requires Inv(m) && UniformInv(m) && Enabled(m, c) && ProfileKeepsType(c) && IsSplitStep(c)
    ensures UniformInv(Next(m, c))
  {
    match c
    case BeginSplit(_, _, _, _) => BeginSplitUniform(m, c);
    case StartSplit(_, _) =>
    case AttachSplit => AttachUniform(m);
    case FinishFocus =>
    case RollBack =>
      DropInherits(m.workspace.tabs, Loose(m.pending), {m.pending.added});
      InheritsKeepsUniform(m.workspace.tabs, DropIds(m.workspace.tabs, {m.pending.added}));
  }

  lemma StepKeepsUniform(m: Machine, c: Command)
    requires Inv(m) && UniformInv(m) && Enabled(m, c) && ProfileKeepsType(c)
    ensures UniformInv(Next(m, c))
  {
    if IsSplitStep(c) {
      SplitKeepsUniform(m, c);
    } else if IsEdit(c) {
      EditUniform(m, c);
    } else if IsStartStep(c) {
      if c.OpenSession? {
        OpenUniform(m, c);
      }
    } else {
      match c
      case Disconnect(_) =>
      case ClosePaneOf(root, pane) => ClosePaneUniform(m.workspace, root, pane);
      case CloseTabOf(id) => CloseTabUniformInv(m, id);
    }
  }

  /** As long as no split finds its saved profile turned into another type, every
      tree of every run shows sessions of one type. */
  lemma {:induction false} EveryRunKeepsOneType(m: Machine, run: seq<Command>)
    requires Inv(m) && UniformInv(m) && Runnable(m, run)
    requires forall c :: c in run ==> ProfileKeepsType(c)
    ensures UniformInv(After(m, run))
    decreases run
  {
    if run != [] {
      StepKeepsForest(m, run[0]);
      StepKeepsRegistry(m, run[0]);
      StepKeepsUniform(m, run[0]);
      EveryRunKeepsOneType(Next(m, run[0]), run[1..]);
    }
  }

  lemma OpenTheOnlySshTab(m: Machine)
    requires m == EMPTY.(workspace := Open(EMPTY.workspace, NewTab("s", "ssh", false, None, None), Remote(true, false)))
    ensures m.pending == Free && m.starts == map[] && m.workspace.activeTab == None
    ensures m.workspace.tabs == [NewTab("s", "ssh", false, None, None)]
    ensures !m.workspace.registry.Mentions("n")
  {
  }

  lemma SplitTheOnlySshTab(m: Machine)
    requires m.workspace.tabs == [NewTab("s", "ssh", false, None, None)] && m.pending == Free && m.starts == map[]
    requires !m.workspace.registry.Mentions("n") && m.workspace.activeTab == None
    ensures var begin := BeginSplit("s", "n", Row, Some("ftp"));
            var next := Next(m, begin);
            && Enabled(m, begin)
            && next.workspace.tabs == [NewTab("s", "ssh", false, None, None), NewTab("n", "ftp", false, None, Some("s"))]
            && next.pending == Starting("s", "n", Row, "ftp", false)
  {
    OneTab(m.workspace.tabs[0]);
  }

  /** The condition is needed: after the profile of an SSH tab was turned into an FTP
      profile, splitting the tab puts sessions of both types into one tree. */
  lemma AnEditedProfileMixesTypes()
    ensures var opening := [OpenSession(0, "s", "ssh", false, None, true, false)] + Steps(0, |Script(Remote(true, false))|);
            var run := opening + ([BeginSplit("s", "n", Row, Some("ftp"))] + ([StartSplit(true, false)] + []));
            var m := After(EMPTY, run);
            && Runnable(EMPTY, run) && Enabled(m, AttachSplit)
            && !Uniform(Next(m, AttachSplit).workspace.tabs)
  {
    var c := OpenSession(0, "s", "ssh", false, None, true, false);
    var opening := [c] + Steps(0, |Script(Remote(true, false))|);
    var begin := BeginSplit("s", "n", Row, Some("ftp"));
    var start := StartSplit(true, false);
    AnUninterruptedOpen(EMPTY, c);
    var m1 := After(EMPTY, opening);
    OpenTheOnlySshTab(m1);
    SplitAndStart(m1);
    RunOn(EMPTY, opening, [begin] + ([start] + []));
    TheEmptyWorkspaceIsAForest();
    EveryRunKeepsTheForest(EMPTY, opening + ([begin] + ([start] + [])));
    MixedAttach(After(m1, [begin] + ([start] + [])));
  }

  lemma SplitAndStart(m: Machine)
    requires m.workspace.tabs == [NewTab("s", "ssh", false, None, None)] && m.pending == Free && m.starts == map[]
    requires !m.workspace.registry.Mentions("n") && m.workspace.activeTab == None
    ensures var run := [BeginSplit("s", "n", Row, Some("ftp"))] + ([StartSplit(true, false)] + []);
            var next := After(m, run);
            && Runnable(m, run)
            && next.workspace.tabs == [NewTab("s", "ssh", false, None, None), NewTab("n", "ftp", false, None, Some("s"))]
            && next.pending == Starting("s", "n", Row, "ftp", true)
  {
    var begin, start := BeginSplit("s", "n", Row, Some("ftp")), StartSplit(true, false);
    SplitTheOnlySshTab(m);
    RunStep(m, begin, [start] + []);
    RunStep(Next(m, begin), start, []);
  }

  lemma MixedAttach(m: Machine)
    requires Inv(m) && m.pending == Starting("s", "n", Row, "ftp", true)
    requires m.workspace.tabs == [NewTab("s", "ssh", false, None, None), NewTab("n", "ftp", false, None, Some("s"))]
    ensures !Uniform(Next(m, AttachSplit).workspace.tabs)
  {
    var tabs := m.workspace.tabs;
    TwoIndices(tabs[0], tabs[1]);
    AttachIsUniformIff(tabs, Loose(m.pending), "s", "n", Row);
    NextAttach(m);
  }

  lemma TwoIndices(s: Tab, n: Tab)
    requires s.id != n.id
    ensures IndexOfId([s, n], s.id) == 0 && IndexOfId([s, n], n.id) == 1
  {
    assert [s, n][1..] == [n];
  }

  // ----- the two ways to close a pane

  /** For a leaf that is not its root's own, closing the pane and closing the tab
      leave the same tabs, the same active tab and the same active panes, and the
      active pane of a root that still splits is one of the leaves it has left.
      They differ in two registries only: closing the pane keeps the launch
      settings of a local shell and counts a change for the remaining leaves. */
  lemma ClosingAPaneEitherWay(w: Workspace, i: nat, leaf: TabId)
    requires Forest(w.tabs, {}) && i < |w.tabs| && leaf in Leaves(w.tabs[i]) && leaf != w.tabs[i].id
    ensures var root := w.tabs[i].id;
            var byPane, byTab := ClosePane(w, root, leaf), CloseTabIn(w, leaf);
            && byPane.tabs == byTab.tabs
            && byPane.activeTab == byTab.activeTab
            && byPane.activePanes == byTab.activePanes
            && byPane.registry.sessions == byTab.registry.sessions
            && byPane.registry.held == byTab.registry.held
            && byPane.registry.launches - {leaf} == byTab.registry.launches
            && i < |byTab.tabs| && byTab.tabs[i].id == root
            && (byTab.tabs[i].paneRoot.Some? ==>
                  root in byTab.activePanes && byTab.activePanes[root] in Without(Leaves(w.tabs[i]), leaf))
            && (byTab.tabs[i].paneRoot.None? ==> root !in byTab.activePanes)
  {
    CloseTabAgreesWithClosePane(w.tabs, {}, i, leaf);
    RootIndex(w.tabs, {}, i);
    RootStays(w.tabs, i, leaf);
    PaneCloses(w.tabs, i, leaf);
    assert TreeOk(w.tabs, i);
    TreeWithoutLeaf(w.tabs, {}, i, leaf);
    var remaining := Without(Leaves(w.tabs[i]), leaf);
    WithoutMembers(Leaves(w.tabs[i]), leaf);
    SamePanes(w, CloseTab(w.tabs, leaf), i, w.tabs[i].id, leaf, remaining);
  }

  lemma SamePanes(w: Workspace, tabs: seq<Tab>, i: nat, root: TabId, leaf: TabId, remaining: seq<TabId>)
    requires i < |tabs| && remaining != [] && leaf !in remaining
    requires tabs[i].paneRoot.Some? <==> |remaining| > 1
    requires tabs[i].paneRoot.Some? ==> Leaves(tabs[i]) == remaining
    ensures CloseLeafPanes(w.activePanes, tabs, i, root, leaf)
            == if |remaining| > 1
               then (w.activePanes - {root})[root := NextActivePane(Lookup(w.activePanes, root), leaf, remaining)]
               else w.activePanes - {root}
  {
  }

  lemma RootStays(tabs: seq<Tab>, i: nat, leaf: TabId)
    requires Forest(tabs, {}) && i < |tabs| && leaf in Leaves(tabs[i]) && leaf != tabs[i].id
    ensures var tree := TreeWithout(tabs[i].paneRoot.value, leaf);
            && i < |CloseTab(tabs, leaf)|
            && CloseTab(tabs, leaf)[i] == tabs[i].(paneRoot := KeptTree(tree))
  {
    CloseTabAgreesWithClosePane(tabs, {}, i, leaf);
    RootIndex(tabs, {}, i);
    TreeWithoutLeaf(tabs, {}, i, leaf);
    assert TreeOk(tabs, i);
    var p := IndexOfId(tabs, leaf);
    assert LeafOf(tabs, i, p);
    var shrunk := tabs[i := tabs[i].(paneRoot := KeptTree(TreeWithout(tabs[i].paneRoot.value, leaf)))];
    SameIndices(tabs, shrunk, leaf);
    DropOne(shrunk, p);
  }
}
