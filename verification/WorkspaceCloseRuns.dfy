/** Runs of closes: what an undisturbed close comes to, what one that is given up
    leaves, how runs lose a tree, and which resources outlive the tabs. */
module WorkspaceCloseRuns {
  import opened Wrappers
  import opened Sequences
  import opened Panes
  import opened TabForest
  import opened TabLayout
  import opened WorkspaceRuns
  import opened WorkspaceStarts
  import opened WorkspaceTheorems
  import opened WorkspaceClosing
  import opened WorkspaceStale

  lemma StepAndRun(s: Desk, step: Step, rest: seq<Step>)
    requires CanTake(s, step) && CanRun(Take(s, step), rest)
    ensures CanRun(s, [step] + rest) && AfterAll(s, [step] + rest) == AfterAll(Take(s, step), rest)
  {
    assert ([step] + rest)[1..] == rest;
  }

  lemma FirstOfRun(s: Desk, run: seq<Step>)
    requires run != [] && CanRun(s, run)
    ensures CanTake(s, run[0]) && CanRun(Take(s, run[0]), run[1..])
    ensures AfterAll(s, run) == AfterAll(Take(s, run[0]), run[1..])
  {
  }

  lemma HeadOfSum(a: seq<Step>, b: seq<Step>)
    requires a != []
    ensures a + b == [a[0]] + (a[1..] + b)
  {
  }

  lemma RunAndRun(s: Desk, a: seq<Step>, b: seq<Step>)
    requires CanRun(s, a) && CanRun(AfterAll(s, a), b)
    ensures CanRun(s, a + b) && AfterAll(s, a + b) == AfterAll(AfterAll(s, a), b)
  {
    RunFrom(s, a, AfterAll(s, a), b);
  }

  lemma {:induction false} RunFrom(s: Desk, a: seq<Step>, t: Desk, b: seq<Step>)
    requires CanRun(s, a) && t == AfterAll(s, a) && CanRun(t, b)
    ensures CanRun(s, a + b) && AfterAll(s, a + b) == AfterAll(t, b)
    decreases a
  {
    if a == [] {
      assert a + b == b;
    } else {
      FirstOfRun(s, a);
      RunFrom(Take(s, a[0]), a[1..], t, b);
      StepAndRun(s, a[0], a[1..] + b);
      HeadOfSum(a, b);
    }
  }

  // ----- stopping the sessions

  function Stops(key: nat, n: nat): (run: seq<Step>)
    ensures |run| == n
  {
    if n == 0 then [] else [StopNext(key)] + Stops(key, n - 1)
  }

  function StopSessionsOf(w: Workspace, ids: seq<TabId>): Workspace {
    w.(registry := w.registry.(held := Release(w.registry.held, CLOSED_RESOURCES, ToSet(ids))))
  }

  lemma StopOneMore(w: Workspace, id: TabId, rest: seq<TabId>)
    ensures StopSessionsOf(StopSessionOf(w, id), rest) == StopSessionsOf(w, [id] + rest)
  {
    assert ToSet([id] + rest) == {id} + ToSet(rest);
  }

  /** The first `n` sessions of a close are stopped; nothing else changes. */
  lemma {:induction false} StopsRelease(s: Desk, key: nat, n: nat)
    requires key in s.closes && s.closes[key].Stopping? && n <= |s.closes[key].todo|
    ensures var close := s.closes[key];
            && CanRun(s, Stops(key, n))
            && AfterAll(s, Stops(key, n))
               == s.(machine := s.machine.(workspace := StopSessionsOf(s.machine.workspace, close.todo[..n])),
                     closes := s.closes[key := close.(todo := close.todo[n..])])
    decreases n
  {
    var close := s.closes[key];
    if n == 0 {
      assert close.todo[..0] == [] && close.todo[0..] == close.todo;
      assert StopSessionsOf(s.machine.workspace, []) == s.machine.workspace;
    } else {
      var next := Take(s, StopNext(key));
      StopsRelease(next, key, n - 1);
      StepAndRun(s, StopNext(key), Stops(key, n - 1));
      assert close.todo[1..][..n - 1] == close.todo[1..n] && close.todo[1..][n - 1..] == close.todo[n..];
      assert [close.todo[0]] + close.todo[1..n] == close.todo[..n];
      StopOneMore(s.machine.workspace, close.todo[0], close.todo[1..n]);
    }
  }

  /** The two reads and the first `n` stops. */
  function Begun(key: nat, id: TabId, n: nat): seq<Step> {
    [BeginClose(key, id)] + ([ReadAgain(key)] + Stops(key, n))
  }

  function Read(tabs: seq<Tab>, id: TabId): Close {
    SecondRead(tabs, FirstRead(tabs, id))
  }

  lemma Overwritten(closes: map<nat, Close>, key: nat, first: Close, second: Close)
    ensures closes[key := first][key := second] == closes[key := second]
  {
  }

  lemma ReadsTwice(s: Desk, key: nat, id: TabId, rest: seq<Step>)
    requires key !in s.closes
    requires var read := s.(closes := s.closes[key := Read(s.machine.workspace.tabs, id)]); CanRun(read, rest)
    ensures var run := [BeginClose(key, id)] + ([ReadAgain(key)] + rest);
            && CanRun(s, run)
            && AfterAll(s, run) == AfterAll(s.(closes := s.closes[key := Read(s.machine.workspace.tabs, id)]), rest)
  {
    var tabs := s.machine.workspace.tabs;
    var s1 := Take(s, BeginClose(key, id));
    Overwritten(s.closes, key, FirstRead(tabs, id), Read(tabs, id));
    assert Take(s1, ReadAgain(key)) == s.(closes := s.closes[key := Read(tabs, id)]);
    StepAndRun(s1, ReadAgain(key), rest);
    StepAndRun(s, BeginClose(key, id), [ReadAgain(key)] + rest);
  }

  lemma BegunLeaves(s: Desk, key: nat, id: TabId, n: nat)
    requires key !in s.closes && n <= |Read(s.machine.workspace.tabs, id).ids|
    ensures var w := s.machine.workspace; var close := Read(w.tabs, id);
            && CanRun(s, Begun(key, id, n))
            && AfterAll(s, Begun(key, id, n))
               == s.(machine := s.machine.(workspace := StopSessionsOf(w, close.ids[..n])),
                     closes := s.closes[key := close.(todo := close.ids[n..])])
  {
    var close := Read(s.machine.workspace.tabs, id);
    var read := s.(closes := s.closes[key := close]);
    StopsRelease(read, key, n);
    ReadsTwice(s, key, id, Stops(key, n));
    Overwritten(s.closes, key, close, close.(todo := close.ids[n..]));
  }

  lemma LastStep(s: Desk, before: seq<Step>, step: Step)
    requires CanRun(s, before) && CanTake(AfterAll(s, before), step)
    ensures CanRun(s, before + [step]) && AfterAll(s, before + [step]) == Take(AfterAll(s, before), step)
  {
    assert [step] == [step] + [];
    StepAndRun(AfterAll(s, before), step, []);
    RunAndRun(s, before, [step]);
  }

  lemma Forgotten(closes: map<nat, Close>, key: nat, close: Close)
    requires key !in closes
    ensures closes[key := close] - {key} == closes
  {
  }

  lemma BothReads(tabs: seq<Tab>, id: TabId)
    ensures Read(tabs, id)
            == if ClosesAsLeaf(tabs, id)
               then Stopping(id, [id], Some(tabs[ContainingRoot(tabs, id)].id), [id])
               else Stopping(id, IdsToClose(tabs, id), None, IdsToClose(tabs, id))
  {
  }

  lemma LeafReadsAgree(w: Workspace, id: TabId)
    requires ClosesAsLeaf(w.tabs, id)
    ensures var close := Stopping(id, [id], Some(w.tabs[ContainingRoot(w.tabs, id)].id), []);
            RemoveFor(StopSessionsOf(w, [id]), close) == CloseLeafIn(w, CloseTab(w.tabs, id), id)
  {
    assert ToSet([id]) == {id};
  }

  lemma WholeReadsAgree(w: Workspace, id: TabId)
    requires !ClosesAsLeaf(w.tabs, id)
    ensures var close := Stopping(id, IdsToClose(w.tabs, id), None, []);
            RemoveFor(StopSessionsOf(w, IdsToClose(w.tabs, id)), close) == CloseWholeIn(w, CloseTab(w.tabs, id), id)
  {
  }

  lemma ReadsAgree(w: Workspace, id: TabId)
    ensures RemoveFor(StopSessionsOf(w, Read(w.tabs, id).ids), Read(w.tabs, id).(todo := [])) == CloseTabIn(w, id)
  {
    BothReads(w.tabs, id);
    if ClosesAsLeaf(w.tabs, id) {
      LeafReadsAgree(w, id);
    } else {
      WholeReadsAgree(w, id);
    }
  }

  lemma EndOf(s: Desk, m: Machine, key: nat, close: Close)
    requires key !in s.closes && close.Stopping? && close.todo == []
    ensures var before := s.(machine := m, closes := s.closes[key := close]);
            CanTake(before, EndClose(key))
            && Take(before, EndClose(key)) == s.(machine := m.(workspace := RemoveFor(m.workspace, close)))
  {
    Forgotten(s.closes, key, close);
  }

  /** All steps of a close, nothing in between. */
  function Whole(tabs: seq<Tab>, key: nat, id: TabId): seq<Step> {
    Begun(key, id, |Read(tabs, id).ids|) + [EndClose(key)]
  }

  lemma StepsEnd(s: Desk, key: nat, id: TabId)
    requires key !in s.closes
    ensures var w := s.machine.workspace; var close := Read(w.tabs, id);
            && CanRun(s, Whole(w.tabs, key, id))
            && AfterAll(s, Whole(w.tabs, key, id))
               == s.(machine := s.machine.(workspace := RemoveFor(StopSessionsOf(w, close.ids), close.(todo := []))))
  {
    var w := s.machine.workspace;
    var close := Read(w.tabs, id);
    var n := |close.ids|;
    BegunLeaves(s, key, id, n);
    assert close.ids[..n] == close.ids && close.ids[n..] == [];
    var before := s.(machine := s.machine.(workspace := StopSessionsOf(w, close.ids)), closes := s.closes[key := close.(todo := [])]);
    assert AfterAll(s, Begun(key, id, n)) == before;
    EndOf(s, before.machine, key, close.(todo := []));
    LastStep(s, Begun(key, id, n), EndClose(key));
  }

  /** With nothing in between, the steps of a close are the close of the run model. */
  lemma AnUndisturbedClose(s: Desk, key: nat, id: TabId)
    requires key !in s.closes
    ensures CanRun(s, Whole(s.machine.workspace.tabs, key, id))
    ensures AfterAll(s, Whole(s.machine.workspace.tabs, key, id)) == s.(machine := Next(s.machine, CloseTabOf(id)))
  {
    StepsEnd(s, key, id);
    ReadsAgree(s.machine.workspace, id);
    NextClose(s.machine, id);
  }

  /** A close that is given up because the transfers of its next session cannot be
      paused leaves every tab listed, and exactly the sessions before it stopped. */
  lemma AnAbandonedClose(s: Desk, key: nat, id: TabId, n: nat)
    requires key !in s.closes
    requires var close := Read(s.machine.workspace.tabs, id); close.leafOf.None? && n < |close.ids|
    ensures var w := s.machine.workspace;
            var run := Begun(key, id, n) + [GiveUp(key)];
            && CanRun(s, run)
            && AfterAll(s, run)
               == s.(machine := s.machine.(workspace := StopSessionsOf(w, Read(w.tabs, id).ids[..n])))
  {
    BegunLeaves(s, key, id, n);
    LastStep(s, Begun(key, id, n), GiveUp(key));
    var close := Read(s.machine.workspace.tabs, id);
    Forgotten(s.closes, key, close.(todo := close.ids[n..]));
  }

  // ----- the close of a pane

  lemma PaneStepsAgree(w: Workspace, root: TabId, pane: TabId)
    requires Forest(w.tabs, {}) && CheckPaneIn(w, root, pane).Some?
    ensures var p := CheckPaneIn(w, root, pane).value;
            var (next, removed) := RemovePaneIn(StopSessionOf(w, pane), Stopped(root, p.resolved, pane, p.previous));
            removed.Some? && removed.value.Removed? && FocusPaneIn(next, removed.value) == ClosePane(w, root, pane)
  {
    PaneCloses(w.tabs, RequestedRoot(w.tabs, root, pane), pane);
  }

  lemma PaneSteps(s: Desk, p: PaneClose, removed: PaneClose, next: Workspace)
    requires s.paneClose == Some(p) && p.Checked?
    requires RemovePaneIn(StopSessionOf(s.machine.workspace, p.pane), Stopped(p.requested, p.resolved, p.pane, p.previous))
             == (next, Some(removed))
    requires removed.Removed?
    ensures var run := [StopPane] + ([RemovePane] + ([FocusPane] + []));
            && CanRun(s, run)
            && AfterAll(s, run) == s.(machine := s.machine.(workspace := FocusPaneIn(next, removed)), paneClose := None)
  {
    var s2 := Take(s, StopPane);
    var s3 := Take(s2, RemovePane);
    StepAndRun(s3, FocusPane, []);
    StepAndRun(s2, RemovePane, [FocusPane] + []);
    StepAndRun(s, StopPane, [RemovePane] + ([FocusPane] + []));
  }

  /** So are the steps of the close of a pane. */
  lemma AnUndisturbedPaneClose(s: Desk, root: TabId, pane: TabId)
    requires DeskInv(s) && LibraryIsFree(s.machine) && s.paneClose.None?
    ensures CanTake(s, CheckPane(root, pane))
    ensures var checked := Take(s, CheckPane(root, pane)); var next := Next(s.machine, ClosePaneOf(root, pane));
            if checked.paneClose.None? then checked == s && next == s.machine
            else
              var run := [CheckPane(root, pane)] + ([StopPane] + ([RemovePane] + ([FocusPane] + [])));
              CanRun(s, run) && AfterAll(s, run) == s.(machine := next)
  {
    var w := s.machine.workspace;
    if CheckPaneIn(w, root, pane).Some? {
      PaneStepsAgree(w, root, pane);
      var p := CheckPaneIn(w, root, pane).value;
      var (next, removed) := RemovePaneIn(StopSessionOf(w, pane), Stopped(root, p.resolved, pane, p.previous));
      var checked := Take(s, CheckPane(root, pane));
      PaneSteps(checked, p, removed.value, next);
      StepAndRun(s, CheckPane(root, pane), [StopPane] + ([RemovePane] + ([FocusPane] + [])));
    }
  }

  // ----- runs that lose a tree

  /** A stale close that nothing disturbs any more breaks a tree. */
  lemma AStaleCloseBreaks(s: Desk, key: nat)
    requires DeskInv(s) && key in s.closes && s.closes[key].Stopping?
    requires WouldBreak(s.machine.workspace.tabs, s.closes[key])
    ensures var run := Stops(key, |s.closes[key].todo|) + [EndClose(key)];
            && CanRun(s, run) && !ForestInv(AfterAll(s, run).machine)
            && AfterAll(s, run).machine.workspace.tabs == TabsAfter(s.machine.workspace.tabs, s.closes[key])
  {
    var n := |s.closes[key].todo|;
    StopsRelease(s, key, n);
    StopsKeepInv(s, s.closes[key].todo[..n]);
    AStaleRemoval(AfterAll(s, Stops(key, n)), key);
    LastStep(s, Stops(key, n), EndClose(key));
  }

  lemma StopsKeepInv(s: Desk, ids: seq<TabId>)
    requires Inv(s.machine)
    ensures Inv(s.machine.(workspace := StopSessionsOf(s.machine.workspace, ids)))
  {
  }

  lemma AStaleRemoval(s: Desk, key: nat)
    requires Inv(s.machine) && key in s.closes && s.closes[key].Stopping? && s.closes[key].todo == []
    requires WouldBreak(s.machine.workspace.tabs, s.closes[key])
    ensures CanTake(s, EndClose(key)) && !ForestInv(Take(s, EndClose(key)).machine)
    ensures Take(s, EndClose(key)).machine.workspace.tabs == TabsAfter(s.machine.workspace.tabs, s.closes[key])
  {
    RemovalKeepsInvIff(s.machine, s.closes[key]);
  }

  lemma ADoomedReadBreaks(s: Desk, key: nat)
    requires DeskInv(s) && key in s.closes && s.closes[key].Reading? && s.closes[key].leaves == []
    requires OwnsTree(s.machine.workspace.tabs, s.closes[key].id)
    ensures var run := [ReadAgain(key)] + ([StopNext(key)] + [EndClose(key)]);
            && CanRun(s, run) && !ForestInv(AfterAll(s, run).machine)
            && AfterAll(s, run).machine.workspace.tabs == DropIds(s.machine.workspace.tabs, {s.closes[key].id})
  {
    var next := Take(s, ReadAgain(key));
    SecondReadIsDoomedIff(s.machine.workspace.tabs, Loose(s.machine.pending), s.closes[key]);
    AStaleCloseBreaks(next, key);
    OtherLeafRemoval(s.machine.workspace.tabs, Loose(s.machine.pending), next.closes[key]);
    assert Stops(key, 1) == [StopNext(key)] + Stops(key, 0) == [StopNext(key)];
    StepAndRun(s, ReadAgain(key), [StopNext(key)] + [EndClose(key)]);
  }

  lemma FirstStep(s: Desk, key: nat, id: TabId)
    requires key !in s.closes
    ensures CanTake(s, BeginClose(key, id))
    ensures Take(s, BeginClose(key, id)) == s.(closes := s.closes[key := FirstRead(s.machine.workspace.tabs, id)])
  {
  }

  lemma CommandStep(s: Desk, c: Command)
    requires DeskInv(s) && Enabled(s.machine, c) && NewId(c).None? && (NeedsLibrary(c) ==> s.paneClose.None?)
    ensures CanTake(s, Do(c)) && Take(s, Do(c)) == s.(machine := Next(s.machine, c)) && DeskInv(Take(s, Do(c)))
  {
    CommandKeepsDesk(s, c);
  }

  /** A command that gives the tab a tree between the two reads of closing it: the tab
      had none at the first read and is the root of one at the second, so the removal
      takes out the root and leaves its other panes below it. */
  lemma ATreeBetweenTheReads(s: Desk, key: nat, id: TabId, c: Command)
    requires DeskInv(s) && key !in s.closes && FirstRead(s.machine.workspace.tabs, id) == Reading(id, [])
    requires Enabled(s.machine, c) && NewId(c).None? && (NeedsLibrary(c) ==> s.paneClose.None?)
    requires OwnsTree(Next(s.machine, c).workspace.tabs, id)
    ensures var run := [BeginClose(key, id)] + ([Do(c)] + ([ReadAgain(key)] + ([StopNext(key)] + [EndClose(key)])));
            && CanRun(s, run) && !ForestInv(AfterAll(s, run).machine)
            && AfterAll(s, run).machine.workspace.tabs == DropIds(Next(s.machine, c).workspace.tabs, {id})
  {
    FirstStep(s, key, id);
    var s1 := Take(s, BeginClose(key, id));
    CommandStep(s1, c);
    ADoomedReadBreaks(Take(s1, Do(c)), key);
    StepAndRun(s1, Do(c), [ReadAgain(key)] + ([StopNext(key)] + [EndClose(key)]));
    StepAndRun(s, BeginClose(key, id), [Do(c)] + ([ReadAgain(key)] + ([StopNext(key)] + [EndClose(key)])));
  }

  /** A split is about to attach its pane to a tab that has no tree yet. */
  ghost predicate GivesATree(m: Machine, host: TabId) {
    var tabs := m.workspace.tabs;
    && m.pending.Starting? && m.pending.started && m.pending.source in Ids(tabs) && m.pending.added in Ids(tabs)
    && Host(tabs, m.pending.source) < |tabs| && tabs[Host(tabs, m.pending.source)].id == host
    && !OwnsTree(tabs, host)
  }

  /** A tab without a tree that takes a pane is in no tree, and not the pane itself. */
  lemma HostIsFree(m: Machine, host: TabId)
    requires Inv(m) && GivesATree(m, host)
    ensures var tabs := m.workspace.tabs;
            && host != m.pending.added && ContainingRoot(tabs, host) == |tabs|
            && FirstRead(tabs, host) == Reading(host, []) && Read(tabs, host) == Stopping(host, [host], None, [host])
  {
    var tabs := m.workspace.tabs;
    var i, j, tree := AttachGrows(m);
    RootIndex(tabs, Loose(m.pending), i);
  }

  /** A split that attaches between the two reads of closing its tab: the tab had no
      tree at the first read and is the root of one at the second, and its pane
      stays below a root that is gone. */
  lemma AnAttachBetweenTheReads(s: Desk, key: nat, host: TabId)
    requires DeskInv(s) && key !in s.closes && GivesATree(s.machine, host)
    ensures var run := [BeginClose(key, host)] + ([Do(AttachSplit)] + ([ReadAgain(key)] + ([StopNext(key)] + [EndClose(key)])));
            && CanRun(s, run) && !ForestInv(AfterAll(s, run).machine)
            && AfterAll(s, run).machine.workspace.tabs == DropIds(Attach(s.machine).workspace.tabs, {host})
  {
    HostIsFree(s.machine, host);
    AttachDoomsIff(s.machine, Reading(host, []));
    NextAttach(s.machine);
    ATreeBetweenTheReads(s, key, host, AttachSplit);
  }

  lemma HostGoesStale(m: Machine, host: TabId)
    requires Inv(m) && GivesATree(m, host)
    ensures WouldBreak(Attach(m).workspace.tabs, Stopping(host, [host], None, []))
  {
    HostIsFree(m, host);
    OneTabIsWholeIff(m.workspace.tabs, Loose(m.pending), host);
    assert ToSet([host]) == {host};
    AttachDoomsIff(m, Stopping(host, [host], None, []));
  }

  lemma StaleHostBreaks(s: Desk, key: nat, host: TabId)
    requires DeskInv(s) && key in s.closes && s.closes[key] == Stopping(host, [host], None, [])
    requires WouldBreak(s.machine.workspace.tabs, s.closes[key])
    ensures CanRun(s, [EndClose(key)]) && !ForestInv(AfterAll(s, [EndClose(key)]).machine)
    ensures AfterAll(s, [EndClose(key)]).machine.workspace.tabs == DropIds(s.machine.workspace.tabs, {host})
  {
    AStaleCloseBreaks(s, key);
    assert Stops(key, 0) + [EndClose(key)] == [EndClose(key)];
    assert ToSet([host]) == {host};
  }

  lemma AttachMakesTheHostStale(s: Desk, key: nat, host: TabId)
    requires DeskInv(s) && GivesATree(s.machine, host)
    requires key in s.closes && s.closes[key] == Stopping(host, [host], None, [])
    ensures var run := [Do(AttachSplit)] + [EndClose(key)];
            && CanRun(s, run) && !ForestInv(AfterAll(s, run).machine)
            && AfterAll(s, run).machine.workspace.tabs == DropIds(Attach(s.machine).workspace.tabs, {host})
  {
    HostGoesStale(s.machine, host);
    NextAttach(s.machine);
    CommandStep(s, AttachSplit);
    StaleHostBreaks(Take(s, Do(AttachSplit)), key, host);
    StepAndRun(s, Do(AttachSplit), [EndClose(key)]);
  }

  lemma AttachIgnoresStops(m: Machine, host: TabId, ids: seq<TabId>)
    requires Inv(m) && GivesATree(m, host)
    ensures var stopped := m.(workspace := StopSessionsOf(m.workspace, ids));
            && Inv(stopped) && GivesATree(stopped, host)
            && Attach(stopped).workspace.tabs == Attach(m).workspace.tabs
  {
  }

  lemma HostIsBegun(s: Desk, key: nat, host: TabId)
    requires DeskInv(s) && key !in s.closes && GivesATree(s.machine, host)
    ensures CanRun(s, Begun(key, host, 1))
    ensures AfterAll(s, Begun(key, host, 1))
            == s.(machine := s.machine.(workspace := StopSessionsOf(s.machine.workspace, [host])),
                  closes := s.closes[key := Stopping(host, [host], None, [])])
  {
    HostIsFree(s.machine, host);
    BegunLeaves(s, key, host, 1);
    assert [host][..1] == [host] && [host][1..] == [];
  }

  /** A split that attaches after the reads and before the removal leaves its pane in
      the same place. */
  lemma AnAttachAfterTheReads(s: Desk, key: nat, host: TabId)
    requires DeskInv(s) && key !in s.closes && GivesATree(s.machine, host)
    ensures var run := Begun(key, host, 1) + ([Do(AttachSplit)] + [EndClose(key)]);
            && CanRun(s, run) && !ForestInv(AfterAll(s, run).machine)
            && AfterAll(s, run).machine.workspace.tabs == DropIds(Attach(s.machine).workspace.tabs, {host})
  {
    HostIsBegun(s, key, host);
    AttachIgnoresStops(s.machine, host, [host]);
    AttachMakesTheHostStale(AfterAll(s, Begun(key, host, 1)), key, host);
    RunAndRun(s, Begun(key, host, 1), [Do(AttachSplit)] + [EndClose(key)]);
  }

  /** Closing the own pane of a root with three panes or more, between the two reads
      of closing the pane that takes its place: that pane is a leaf at the first read
      and the root at the second. No split takes part. */
  lemma APromotionBetweenTheReads(s: Desk, key: nat, root: TabId, next: TabId)
    requires DeskInv(s) && key !in s.closes && s.paneClose.None? && LibraryIsFree(s.machine)
    requires Promotes(s.machine.workspace.tabs, root, root, next)
    ensures var run := [BeginClose(key, next)]
                       + ([Do(ClosePaneOf(root, root))] + ([ReadAgain(key)] + ([StopNext(key)] + [EndClose(key)])));
            && CanRun(s, run) && !ForestInv(AfterAll(s, run).machine)
            && AfterAll(s, run).machine.workspace.tabs == DropIds(ClosePane(s.machine.workspace, root, root).tabs, {next})
  {
    PromotionGivesATree(s.machine, root, next);
    NextClosePane(s.machine, root, root);
    ATreeBetweenTheReads(s, key, next, ClosePaneOf(root, root));
  }

  lemma PromotionGivesATree(m: Machine, root: TabId, next: TabId)
    requires Forest(m.workspace.tabs, {}) && Promotes(m.workspace.tabs, root, root, next)
    ensures FirstRead(m.workspace.tabs, next) == Reading(next, [])
    ensures OwnsTree(Next(m, ClosePaneOf(root, root)).workspace.tabs, next)
  {
    SurvivorHasNoTree(m.workspace.tabs, root, next);
    ClosePaneOwnsIff(m.workspace, root, root, next);
    NextClosePane(m, root, root);
  }

  lemma NextClosePane(m: Machine, root: TabId, pane: TabId)
    ensures Next(m, ClosePaneOf(root, pane)) == m.(workspace := ClosePane(m.workspace, root, pane))
  {
  }

  lemma SurvivorHasNoTree(tabs: seq<Tab>, root: TabId, next: TabId)
    requires Forest(tabs, {}) && Promotes(tabs, root, root, next)
    ensures FirstRead(tabs, next) == Reading(next, []) && !OwnsTree(tabs, next)
  {
    var i := RequestedRoot(tabs, root, root);
    assert TreeOk(tabs, i);
    WithoutMembers(Leaves(tabs[i]), root);
    assert next in Without(Leaves(tabs[i]), root);
    RootIndex(tabs, {}, i);
    ProperLeafPoints(tabs, {}, next, root);
  }

  // ----- the same from the empty workspace

  /** The state in which the split of the only tab is about to attach. */
  function SplittingTheOnlyTab(): seq<Command> {
    [OpenSession(0, "s", "local", false, None, true, false)] + Steps(0, |Script(LocalShell(true))|)
    + ([ActivateTab("s")] + ([BeginSplit("s", "n", Row, None)] + ([StartSplit(true, false)] + [])))
  }

  lemma AttachToTheRoot(m: Machine)
    requires Inv(m) && m.pending == Starting("s", "n", Row, "local", true)
    requires m.workspace.tabs == [NewTab("s", "local", false, None, None), NewTab("n", "local", false, None, Some("s"))]
    ensures GivesATree(m, "s")
    ensures DropIds(Attach(m).workspace.tabs, {"s"}) == [NewTab("n", "local", false, None, Some("s"))]
  {
    var tabs := m.workspace.tabs;
    TwoIndices(tabs[0], tabs[1]);
    var i, j, tree := AttachGrows(m);
    HostIsTopLevel(tabs, Loose(m.pending), "s");
    DropFirst(Grown(tabs, i, j, tree));
  }

  lemma DropFirst(tabs: seq<Tab>)
    requires |tabs| == 2 && tabs[0].id != tabs[1].id
    ensures DropIds(tabs, {tabs[0].id}) == [tabs[1]]
  {
    assert tabs[..1] == [tabs[0]] && tabs[..1][..0] == [];
    assert DropIds([tabs[0]], {tabs[0].id}) == DropIds([], {tabs[0].id});
  }

  /** Close the only tab while a split of it is starting. Whether the split attaches
      between the two reads or after them, its pane stays in the list, and the root
      it points at is gone. */
  lemma ASplitOutlivesItsRoot()
    ensures Runnable(EMPTY, SplittingTheOnlyTab())
    ensures var s := Desk(After(EMPTY, SplittingTheOnlyTab()), map[], None);
            var between := [BeginClose(0, "s")]
                           + ([Do(AttachSplit)] + ([ReadAgain(0)] + ([StopNext(0)] + [EndClose(0)])));
            var afterwards := Begun(0, "s", 1) + ([Do(AttachSplit)] + [EndClose(0)]);
            && DeskInv(s) && CanRun(s, between) && CanRun(s, afterwards)
            && AfterAll(s, between).machine.workspace.tabs == [NewTab("n", "local", false, None, Some("s"))]
            && AfterAll(s, afterwards).machine.workspace.tabs == [NewTab("n", "local", false, None, Some("s"))]
            && !ForestInv(AfterAll(s, between).machine) && !ForestInv(AfterAll(s, afterwards).machine)
  {
    ASplitOfTheOnlyTab();
    var m := After(EMPTY, SplittingTheOnlyTab());
    AttachToTheRoot(m);
    AnAttachBetweenTheReads(Desk(m, map[], None), 0, "s");
    AnAttachAfterTheReads(Desk(m, map[], None), 0, "s");
  }

  // ----- resources entered while a close is under way

  /** The step enters a resource for the id: the next entry of a start does, or a
      split starts its session. */
  predicate Enters(m: Machine, c: Command, id: TabId) {
    (c.StartNext? && c.startKey in m.starts && m.starts[c.startKey].id == id
     && m.starts[c.startKey].script != []
     && m.starts[c.startKey].script[0].Hold? && m.starts[c.startKey].script[0].resource != RemoteForwards)
    || (c.StartSplit? && m.pending.Starting? && m.pending.added == id)
  }

  lemma SplitStepHolds(m: Machine, c: Command, id: TabId)
    requires Inv(m) && Enabled(m, c) && IsSplitStep(c) && !Enters(m, c, id)
    ensures Holds(Next(m, c).workspace.registry, id) ==> Holds(m.workspace.registry, id)
  {
    match c
    case BeginSplit(source, added, _, profileType) =>
    case StartSplit(_, _) => StartSplitHolds(m, c, id);
    case AttachSplit => AttachKeepsForest(m);
    case FinishFocus =>
    case RollBack =>
      ReleasedHolds(m.workspace.registry, RollBackRegistry(m.workspace.registry, m.pending.added),
                    CLOSED_RESOURCES + {RemoteForwards}, {m.pending.added}, id);
  }

  lemma StartStepHolds(m: Machine, c: Command, id: TabId)
    requires Enabled(m, c) && IsStartStep(c) && !Enters(m, c, id)
    ensures Holds(Next(m, c).workspace.registry, id) ==> Holds(m.workspace.registry, id)
  {
    match c
    case OpenSession(_, _, _, _, _, _, _) =>
    case Reconnect(_, reconnected, _, _, _) =>
      if Relaunch(m.workspace.tabs, c).Some? {
        ReleasedHolds(m.workspace.registry, Next(m, c).workspace.registry, WORKER_RESOURCES, {reconnected}, id);
      }
    case StartNext(key) =>
      var start := m.starts[key];
      if start.script != [] {
        EntryHolds(m.workspace.registry, start.id, start.script[0], id);
      }
  }

  /** Nothing but such a step gives a tab a resource. */
  lemma OnlyEntriesHold(m: Machine, c: Command, id: TabId)
    requires Inv(m) && Enabled(m, c) && !Enters(m, c, id)
    ensures Holds(Next(m, c).workspace.registry, id) ==> Holds(m.workspace.registry, id)
  {
    if IsSplitStep(c) {
      SplitStepHolds(m, c, id);
    } else if IsStartStep(c) {
      StartStepHolds(m, c, id);
    } else if IsEdit(c) {
      EditStep(m, c);
    } else {
      match c
      case Disconnect(disconnected) => DisconnectIsClean(m, disconnected, id);
      case ClosePaneOf(root, pane) => ClosePaneIsClean(m, root, pane, id);
      case CloseTabOf(closed) => CloseTabIsClean(m, closed, id);
    }
  }


  ghost predicate EverEnters(s: Desk, run: seq<Step>, id: TabId)
    requires CanRun(s, run)
    decreases run
  {
    run != []
    && ((run[0].Do? && Enters(s.machine, run[0].command, id)) || EverEnters(Take(s, run[0]), run[1..], id))
  }

  lemma StopHolds(w: Workspace, stopped: TabId, id: TabId)
    ensures Holds(StopSessionOf(w, stopped).registry, id) ==> Holds(w.registry, id) && id != stopped
  {
    ReleasedHolds(w.registry, StopSessionOf(w, stopped).registry, CLOSED_RESOURCES, {stopped}, id);
  }

  lemma StepHolds(s: Desk, step: Step, id: TabId)
    requires DeskInv(s) && CanTake(s, step) && (step.Do? ==> !Enters(s.machine, step.command, id))
    ensures Holds(Take(s, step).machine.workspace.registry, id) ==> Holds(s.machine.workspace.registry, id)
  {
    match step
    case Do(c) => OnlyEntriesHold(s.machine, c, id);
    case StopNext(key) => StopHolds(s.machine.workspace, s.closes[key].todo[0], id);
    case StopPane => StopHolds(s.machine.workspace, s.paneClose.value.pane, id);
    case _ =>
  }

  lemma {:induction false} NothingHeldUntilEntered(s: Desk, run: seq<Step>, id: TabId)
    requires DeskInv(s) && CanRun(s, run) && NeverStale(s, run)
    requires !Holds(s.machine.workspace.registry, id) && !EverEnters(s, run, id)
    ensures !Holds(AfterAll(s, run).machine.workspace.registry, id)
    decreases run
  {
    if run != [] {
      StepKeepsDeskIff(s, run[0]);
      StepHolds(s, run[0], id);
      NothingHeldUntilEntered(Take(s, run[0]), run[1..], id);
    }
  }

  /** The step takes tabs out of the list. */
  predicate Removes(step: Step) {
    step.EndClose? || step.RemovePane?
  }

  /** A removal, of a tab or of a pane, leaves a resource behind exactly when what it
      takes out holds one. */
  lemma RemovalOutlivesIff(s: Desk, step: Step, id: TabId)
    requires CanTake(s, step) && Removes(step) && !Outlives(s.machine, id)
    ensures var after := Take(s, step);
            Outlives(after.machine, id)
            <==> id in Listed(s.machine) && id !in Listed(after.machine) && Holds(s.machine.workspace.registry, id)
  {
  }

  /** The session the step stops. */
  function StoppedBy(s: Desk, step: Step): Option<TabId>
    requires CanTake(s, step)
  {
    match step
    case StopNext(key) => Some(s.closes[key].todo[0])
    case StopPane => Some(s.paneClose.value.pane)
    case _ => None
  }

  /** From the step that stops a session to the removal of its tab or pane, with a run
      in between: a resource outlives it exactly when one is held by then, and only
      if a start entered it after the stop. */
  lemma ResourcesOutliveACloseIff(s: Desk, stop: Step, run: seq<Step>, removal: Step, id: TabId)
    requires DeskInv(s) && CanTake(s, stop) && StoppedBy(s, stop) == Some(id)
    requires CanRun(Take(s, stop), run) && NeverStale(Take(s, stop), run) && Removes(removal)
    requires var before := AfterAll(Take(s, stop), run); CanTake(before, removal) && !Outlives(before.machine, id)
    ensures var before := AfterAll(Take(s, stop), run); var after := Take(before, removal);
            && (Outlives(after.machine, id)
                <==> id in Listed(before.machine) && id !in Listed(after.machine) && Holds(before.machine.workspace.registry, id))
            && (Outlives(after.machine, id) ==> EverEnters(Take(s, stop), run, id))
  {
    var stopped := Take(s, stop);
    StepKeepsDeskIff(s, stop);
    StopHolds(s.machine.workspace, id, id);
    RemovalOutlivesIff(AfterAll(stopped, run), removal, id);
    if !EverEnters(stopped, run, id) {
      NothingHeldUntilEntered(stopped, run, id);
    }
  }
}
