/** A pane promoted between the two reads of closing it, reached from the empty
    workspace: open a shell, split it twice, and close the root's own pane while the
    close of its successor is under way. */
module WorkspacePromotion {
  import opened Wrappers
  import opened Sequences
  import opened Panes
  import opened TabForest
  import opened TabLayout
  import opened WorkspaceRuns
  import opened WorkspaceStarts
  import opened WorkspaceTheorems
  import opened WorkspaceClosing
  import opened WorkspaceStale
  import opened WorkspaceCloseRuns

  /** One split from its check to its focus, with nothing in between. */
  function SplitRun(source: TabId, added: TabId): seq<Command> {
    [BeginSplit(source, added, Row, None)] + ([StartSplit(true, false)] + ([AttachSplit] + ([FinishFocus] + [])))
  }

  /** Nothing is under way. */
  ghost predicate Quiet(m: Machine) {
    Inv(m) && m.pending.Free? && m.starts == map[]
  }

  lemma SplitLists(m: Machine, source: TabId, added: TabId, other: TabId)
    requires Quiet(m) && IsNew(m, added) && SplitTab(m.workspace, source, added, None).Some?
    ensures var tab := SplitTab(m.workspace, source, added, None).value;
            var next := Next(m, BeginSplit(source, added, Row, None));
            && Enabled(m, BeginSplit(source, added, Row, None))
            && next.pending == Starting(source, added, Row, tab.sessionType, false) && next.starts == map[]
            && next.workspace.tabs == m.workspace.tabs + [tab]
            && next.workspace.registry.launches == m.workspace.registry.launches
            && (other != added && !m.workspace.registry.Mentions(other) ==> !next.workspace.registry.Mentions(other))
  {
  }

  lemma SplitStarts(m: Machine, other: TabId)
    requires m.pending.Starting? && !m.pending.started
    ensures var next := Next(m, StartSplit(true, false));
            && Enabled(m, StartSplit(true, false))
            && next.pending == m.pending.(started := true) && next.starts == m.starts
            && next.workspace.tabs == m.workspace.tabs
            && m.workspace.registry.launches <= next.workspace.registry.launches
            && (other != m.pending.added && !m.workspace.registry.Mentions(other) ==> !next.workspace.registry.Mentions(other))
  {
  }

  lemma SplitFocuses(m: Machine, other: TabId)
    requires m.pending.Focusing? && m.starts == map[]
    ensures var next := Next(m, FinishFocus);
            && next.workspace.tabs == m.workspace.tabs && next.pending.Free? && next.starts == map[]
            && next.workspace.registry.launches == m.workspace.registry.launches
            && (!m.workspace.registry.Mentions(other) && other !in Ids(m.workspace.tabs)
                && other != m.pending.source && other != m.pending.added && other != m.pending.rootTabId
                ==> IsNew(next, other))
  {
  }

  /** What the attach step of a split that finds everything does to the tabs. */
  lemma AttachIsGrown(m: Machine, n: nat) returns (done: Attachment, i: nat, tree: PaneNode)
    requires Inv(m) && m.pending.Starting? && n < |m.workspace.tabs| && m.workspace.tabs[n].id == m.pending.added
    requires m.pending.source in Ids(m.workspace.tabs)
    ensures FinishSplit(m.workspace.tabs, m.pending.source, m.pending.added, m.pending.direction) == Success(done)
    ensures var tabs := m.workspace.tabs;
            && i == Host(tabs, m.pending.source) && i < n
            && done.tabs == Grown(tabs, i, n, tree) && done.rootTabId == tabs[i].id
            && LeafTabIds(tree) == Substitute(Shown(tabs[i]), m.pending.source, [m.pending.source, m.pending.added])
  {
    var tabs, p := m.workspace.tabs, m.pending;
    RootIndex(tabs, Loose(p), n);
    assert p.added in Ids(tabs);
    i, tree := Host(tabs, p.source), GrownTree(tabs[Host(tabs, p.source)], p.source, p.added, p.direction);
    done := Attachment(Grown(tabs, i, n, tree), tabs[i].id);
    FinishSplitIsGrown(tabs, Loose(p), p.source, p.added, p.direction);
    GrownTreeLeaves(tabs, Loose(p), p.source, p.added, p.direction);
  }

  lemma AttachSucceeds(m: Machine, done: Attachment)
    requires m.pending.Starting?
    requires FinishSplit(m.workspace.tabs, m.pending.source, m.pending.added, m.pending.direction) == Success(done)
    ensures Next(m, AttachSplit)
            == m.(workspace := m.workspace.(tabs := done.tabs),
                  pending := Focusing(done.rootTabId, m.pending.source, m.pending.added))
  {
  }

  lemma GrownIds(tabs: seq<Tab>, i: nat, j: nat, tree: PaneNode)
    requires i < j < |tabs|
    ensures Ids(Grown(tabs, i, j, tree)) == Ids(tabs) && tabs[i].id in Ids(tabs)
  {
    SameIds(tabs, Grown(tabs, i, j, tree));
  }

  lemma FourSteps(m0: Machine, a: Command, b: Command, c: Command, d: Command)
    requires Enabled(m0, a) && Enabled(Next(m0, a), b) && Enabled(Next(Next(m0, a), b), c)
    requires Enabled(Next(Next(Next(m0, a), b), c), d)
    ensures var run := [a] + ([b] + ([c] + ([d] + [])));
            Runnable(m0, run) && After(m0, run) == Next(Next(Next(Next(m0, a), b), c), d)
  {
    RunStep(m0, a, [b] + ([c] + ([d] + [])));
    RunStep(Next(m0, a), b, [c] + ([d] + []));
    RunStep(Next(Next(m0, a), b), c, [d] + []);
    RunStep(Next(Next(Next(m0, a), b), c), d, []);
  }

  lemma SplitIsStarted(m: Machine, source: TabId, added: TabId, other: TabId)
    requires Quiet(m) && IsNew(m, added) && SplitTab(m.workspace, source, added, None).Some?
    ensures var tab := SplitTab(m.workspace, source, added, None).value;
            var listed := Next(m, BeginSplit(source, added, Row, None));
            var next := Next(listed, StartSplit(true, false));
            && Enabled(m, BeginSplit(source, added, Row, None)) && Enabled(listed, StartSplit(true, false))
            && Inv(next) && next.starts == map[] && next.workspace.tabs == m.workspace.tabs + [tab] && tab.id == added
            && next.pending.Starting? && next.pending.started
            && next.pending.source == source && next.pending.added == added
            && source in Ids(m.workspace.tabs) && Ids(next.workspace.tabs) == Ids(m.workspace.tabs) + {added}
            && m.workspace.registry.launches <= next.workspace.registry.launches
            && (other != added && !m.workspace.registry.Mentions(other) ==> !next.workspace.registry.Mentions(other))
  {
    SplitLists(m, source, added, other);
    var m1 := Next(m, BeginSplit(source, added, Row, None));
    StepKeepsInv(m, BeginSplit(source, added, Row, None));
    SplitStarts(m1, other);
    StepKeepsInv(m1, StartSplit(true, false));
    IndexAfterPush(m.workspace.tabs, SplitTab(m.workspace, source, added, None).value, source);
  }

  lemma SplitIsFinished(m: Machine, done: Attachment, other: TabId)
    requires Inv(m) && m.pending.Starting? && m.pending.started && m.starts == map[]
    requires FinishSplit(m.workspace.tabs, m.pending.source, m.pending.added, m.pending.direction) == Success(done)
    requires Ids(done.tabs) == Ids(m.workspace.tabs)
    ensures var attached := Next(m, AttachSplit); var next := Next(attached, FinishFocus);
            && Enabled(m, AttachSplit) && Enabled(attached, FinishFocus)
            && Quiet(next) && next.workspace.tabs == done.tabs
            && next.workspace.registry.launches == m.workspace.registry.launches
            && (!m.workspace.registry.Mentions(other) && other !in Ids(m.workspace.tabs)
                && other != m.pending.source && other != m.pending.added && other != done.rootTabId
                ==> IsNew(next, other))
  {
    AttachSucceeds(m, done);
    var attached := Next(m, AttachSplit);
    StepKeepsInv(m, AttachSplit);
    SplitFocuses(attached, other);
    StepKeepsInv(attached, FinishFocus);
  }

  /** A split that nothing interrupts: the host's tree has the new leaf after the
      source, and nothing is under way again. */
  lemma SplitInOneGo(m: Machine, source: TabId, added: TabId, other: TabId) returns (i: nat, tree: PaneNode)
    requires Quiet(m) && IsNew(m, added) && SplitTab(m.workspace, source, added, None).Some?
    ensures Runnable(m, SplitRun(source, added)) && Quiet(After(m, SplitRun(source, added)))
    ensures IsNew(m, other) && other != added ==> IsNew(After(m, SplitRun(source, added)), other)
    ensures var tabs := m.workspace.tabs + [SplitTab(m.workspace, source, added, None).value];
            var end := After(m, SplitRun(source, added));
            && i == Host(tabs, source) && i < |m.workspace.tabs|
            && end.workspace.tabs == Grown(tabs, i, |m.workspace.tabs|, tree)
            && LeafTabIds(tree) == Substitute(Shown(tabs[i]), source, [source, added])
            && m.workspace.registry.launches <= end.workspace.registry.launches
  {
    SplitIsStarted(m, source, added, other);
    var started := Next(Next(m, BeginSplit(source, added, Row, None)), StartSplit(true, false));
    var done: Attachment;
    done, i, tree := AttachIsGrown(started, |m.workspace.tabs|);
    GrownIds(started.workspace.tabs, i, |m.workspace.tabs|, tree);
    SplitIsFinished(started, done, other);
    FourSteps(m, BeginSplit(source, added, Row, None), StartSplit(true, false), AttachSplit, FinishFocus);
  }

  lemma StepKeepsInv(m: Machine, c: Command)
    requires Inv(m) && Enabled(m, c)
    ensures Inv(Next(m, c))
  {
    StepKeepsForest(m, c);
    StepKeepsRegistry(m, c);
  }

  // ----- the run

  function OpenAndSplitTwice(): seq<Command> {
    [OpenSession(0, "s", "local", false, None, true, false)] + Steps(0, |Script(LocalShell(true))|)
    + (SplitRun("s", "n") + SplitRun("s", "x"))
  }

  lemma OpenTheShell() returns (m: Machine)
    ensures var opening := [OpenSession(0, "s", "local", false, None, true, false)] + Steps(0, |Script(LocalShell(true))|);
            Runnable(EMPTY, opening) && After(EMPTY, opening) == m
    ensures m.workspace.tabs == [NewTab("s", "local", false, None, None)] && "s" in m.workspace.registry.launches
    ensures Quiet(m) && IsNew(m, "n") && IsNew(m, "x")
  {
    var c := OpenSession(0, "s", "local", false, None, true, false);
    var opening := [c] + Steps(0, |Script(LocalShell(true))|);
    AnUninterruptedOpen(EMPTY, c);
    m := After(EMPTY, opening);
    TheEmptyWorkspaceIsAForest();
    EveryRunKeepsTheForest(EMPTY, opening);
    OpenedShell(m);
  }

  lemma OpenedShell(m: Machine)
    requires m == EMPTY.(workspace := Open(EMPTY.workspace, NewTab("s", "local", false, None, None), LocalShell(true)))
    ensures m.workspace.tabs == [NewTab("s", "local", false, None, None)] && "s" in m.workspace.registry.launches
    ensures m.pending.Free? && m.starts == map[] && IsNew(m, "n") && IsNew(m, "x")
  {
  }

  lemma FirstSplitTab(w: Workspace, s: TabId, n: TabId)
    requires w.tabs == [NewTab(s, "local", false, None, None)] && s in w.registry.launches
    ensures SplitTab(w, s, n, None) == Some(NewTab(n, "local", false, None, Some(s)))
  {
    OneTab(w.tabs[0]);
  }

  /** A root with one other pane, both local shells. */
  predicate TwoShells(tabs: seq<Tab>, s: TabId, n: TabId) {
    && |tabs| == 2 && tabs[0].id == s && tabs[1].id == n && s != n
    && tabs[0].sessionType == "local" && tabs[1].sessionType == "local"
    && tabs[0].paneRootTabId.None? && tabs[0].paneRoot.Some? && tabs[1].paneRoot.None?
    && Leaves(tabs[0]) == [s, n]
  }

  lemma SecondSplitTab(w: Workspace, s: TabId, n: TabId, x: TabId)
    requires TwoShells(w.tabs, s, n) && s in w.registry.launches
    ensures SplitTab(w, s, x, None) == Some(NewTab(x, "local", false, None, Some(s)))
  {
    TwoIndices(w.tabs[0], w.tabs[1]);
    assert !MixedTypes(w.tabs, s, "local");
  }

  /** The first tab of the list takes the pane when it shows the source. */
  lemma HostIsFirst(tabs: seq<Tab>, source: TabId)
    requires tabs != [] && tabs[0].id == source
    requires forall k :: 0 < k < |tabs| ==> tabs[k].paneRoot.None?
    requires tabs[0].paneRoot.Some? ==> source in Leaves(tabs[0])
    ensures Host(tabs, source) == 0
  {
    if tabs[0].paneRoot.None? {
      NoTreeLists(tabs, source);
    }
  }

  lemma {:induction false} NoTreeLists(tabs: seq<Tab>, id: TabId)
    requires forall k :: 0 <= k < |tabs| ==> tabs[k].paneRoot.None?
    ensures ContainingRoot(tabs, id) == |tabs|
  {
    if tabs != [] {
      NoTreeLists(tabs[1..], id);
    }
  }

  lemma FirstSplit(m: Machine, s: TabId, n: TabId, x: TabId)
    requires m.workspace.tabs == [NewTab(s, "local", false, None, None)] && s in m.workspace.registry.launches
    requires Quiet(m) && IsNew(m, n) && IsNew(m, x) && n != x
    ensures var end := After(m, SplitRun(s, n));
            && Runnable(m, SplitRun(s, n)) && Quiet(end) && IsNew(end, x) && s in end.workspace.registry.launches
            && TwoShells(end.workspace.tabs, s, n)
  {
    FirstSplitTab(m.workspace, s, n);
    var i, tree := SplitInOneGo(m, s, n, x);
    var tabs := m.workspace.tabs + [NewTab(n, "local", false, None, Some(s))];
    HostIsFirst(tabs, s);
    AfterTheSource([], s, n, []);
    assert m.workspace.tabs[0].id in Ids(m.workspace.tabs);
  }

  lemma SecondSplit(m: Machine, s: TabId, n: TabId, x: TabId)
    requires Quiet(m) && IsNew(m, x) && s in m.workspace.registry.launches && TwoShells(m.workspace.tabs, s, n)
    ensures var end := After(m, SplitRun(s, x));
            && Runnable(m, SplitRun(s, x)) && Quiet(end)
            && |end.workspace.tabs| == 3 && end.workspace.tabs[0].id == s && Leaves(end.workspace.tabs[0]) == [s, x, n]
  {
    SecondSplitTab(m.workspace, s, n, x);
    var i, tree := SplitInOneGo(m, s, x, x);
    HostIsFirst(m.workspace.tabs + [NewTab(x, "local", false, None, Some(s))], s);
    AfterTheSource([], s, x, [n]);
  }

  lemma AfterTheSource(before: seq<TabId>, source: TabId, added: TabId, after: seq<TabId>)
    requires source !in before
    ensures Substitute(before + ([source] + after), source, [source, added]) == before + [source, added] + after
  {
    var all := before + ([source] + after);
    assert all[|before|] == source;
    assert IndexOf(all, source) == |before|;
  }

  lemma SurvivorOfThree(tabs: seq<Tab>, s: TabId, n: TabId, x: TabId)
    requires |tabs| == 3 && tabs[0].id == s && Leaves(tabs[0]) == [s, x, n]
    ensures Promotes(tabs, s, s, x)
  {
    assert RequestedRoot(tabs, s, s) == 0;
    assert Without([s, x, n], s) == [x, n];
  }

  /** Open a shell, split it twice, and close its own pane between the two reads of
      closing the first remaining one: the removal leaves the third pane below a root
      that is gone, though no split was under way. */
  lemma APromotedPaneOutlivesItsRoot()
    ensures Runnable(EMPTY, OpenAndSplitTwice())
    ensures var s := Desk(After(EMPTY, OpenAndSplitTwice()), map[], None);
            var run := [BeginClose(0, "x")]
                       + ([Do(ClosePaneOf("s", "s"))] + ([ReadAgain(0)] + ([StopNext(0)] + [EndClose(0)])));
            && DeskInv(s) && s.machine.pending.Free? && CanRun(s, run)
            && !ForestInv(AfterAll(s, run).machine)
  {
    var opening := [OpenSession(0, "s", "local", false, None, true, false)] + Steps(0, |Script(LocalShell(true))|);
    var m := OpenTheShell();
    FirstSplit(m, "s", "n", "x");
    var m1 := After(m, SplitRun("s", "n"));
    SecondSplit(m1, "s", "n", "x");
    var m2 := After(m1, SplitRun("s", "x"));
    RunOn(m, SplitRun("s", "n"), SplitRun("s", "x"));
    RunOn(EMPTY, opening, SplitRun("s", "n") + SplitRun("s", "x"));
    SurvivorOfThree(m2.workspace.tabs, "s", "n", "x");
    APromotionBetweenTheReads(Desk(m2, map[], None), 0, "s", "x");
  }
}
