/** Closing a tab or a pane, step by step. A close reads the tabs twice, each time
    under a guard of its own: first whether its tab owns a tree, then which tree
    lists it. Then it stops the sessions one by one, and takes the tabs out under
    yet another guard. Splits, starts and further closes run in between. The close
    of a pane checks, stops, removes and moves the focus under separate guards too,
    but holds the library lock. */
module WorkspaceClosing {
  import opened Wrappers
  import opened Sequences
  import opened Panes
  import opened TabForest
  import opened TabLayout
  import opened WorkspaceRuns
  import opened WorkspaceStarts
  import opened WorkspaceTheorems

  // ----- the close of a tab

  /** A close between its two reads, with the leaves the first one found, or after
      them: the tabs it takes out, the root its tab is a leaf of when it takes the
      path for leaves, and the sessions it has yet to stop. */
  datatype Close =
    | Reading(id: TabId, leaves: seq<TabId>)
    | Stopping(id: TabId, ids: seq<TabId>, leafOf: Option<TabId>, todo: seq<TabId>)

  function FirstRead(tabs: seq<Tab>, id: TabId): Close {
    var k := IndexOfId(tabs, id);
    Reading(id, if k < |tabs| then Leaves(tabs[k]) else [])
  }

  /** The containing root is looked for only when the tab had no tree. */
  function SecondRead(tabs: seq<Tab>, close: Close): Close
    requires close.Reading?
  {
    var c := ContainingRoot(tabs, close.id);
    if close.leaves != [] then Stopping(close.id, close.leaves, None, close.leaves)
    else Stopping(close.id, [close.id], if c < |tabs| then Some(tabs[c].id) else None, [close.id])
  }

  function StopSessionOf(w: Workspace, id: TabId): Workspace {
    w.(registry := w.registry.(held := Release(w.registry.held, CLOSED_RESOURCES, {id})))
  }

  function Forget(r: Registry, ids: set<TabId>): Registry {
    Registry(r.sessions - ids, r.revisions - ids, r.launches - ids, r.held)
  }

  /** The list after the removal. A leaf whose root is gone is not taken out. */
  function TabsAfter(tabs: seq<Tab>, close: Close): seq<Tab>
    requires close.Stopping?
  {
    match close.leafOf
    case None => DropIds(tabs, ToSet(close.ids))
    case Some(root) =>
      var r := IndexOfId(tabs, root);
      if r == |tabs| then tabs
      else DropIds(tabs[r := tabs[r].(paneRoot := ClosedTree(tabs[r].paneRoot, close.id))], {close.id})
  }

  function RemoveFor(w: Workspace, close: Close): Workspace
    requires close.Stopping?
  {
    var tabs := TabsAfter(w.tabs, close);
    match close.leafOf
    case None =>
      Workspace(tabs,
        if w.activeTab == Some(close.id) then if tabs == [] then None else Some(tabs[|tabs| - 1].id) else w.activeTab,
        w.activePanes - {close.id}, Forget(w.registry, ToSet(close.ids)))
    case Some(root) =>
      var r := IndexOfId(w.tabs, root);
      if r == |w.tabs| then w
      else
        Workspace(tabs, w.activeTab, CloseLeafPanes(w.activePanes, tabs, r, root, close.id),
                  Forget(w.registry, {close.id}))
  }

  // ----- the close of a pane

  /** What the close of a pane has resolved and, once it has removed the pane, what
      became of the tree. */
  datatype PaneClose =
    | Checked(requested: TabId, resolved: TabId, pane: TabId, previous: Option<TabId>)
    | Stopped(requested: TabId, resolved: TabId, pane: TabId, previous: Option<TabId>)
    | Removed(requested: TabId, pane: TabId, previous: Option<TabId>, outcome: PaneCloseOutcome)

  function CheckPaneIn(w: Workspace, root: TabId, pane: TabId): Option<PaneClose> {
    var i := RequestedRoot(w.tabs, root, pane);
    if i == |w.tabs| || |Leaves(w.tabs[i])| < 2 || pane !in Leaves(w.tabs[i]) then None
    else Some(Checked(root, w.tabs[i].id, pane, Lookup(w.activePanes, w.tabs[i].id)))
  }

  function RemovePaneIn(w: Workspace, p: PaneClose): (Workspace, Option<PaneClose>)
    requires p.Stopped?
  {
    var step := RemoveSplitPane(w.tabs, p.resolved, p.pane);
    match step.outcome
    case Failure(_) => (w.(tabs := step.tabs), None)
    case Success(closed) =>
      (w.(tabs := step.tabs,
          registry := w.registry.(sessions := w.registry.sessions - {p.pane}, revisions := w.registry.revisions - {p.pane})),
       Some(Removed(p.requested, p.pane, p.previous, closed)))
  }

  function FocusPaneIn(w: Workspace, p: PaneClose): Workspace
    requires p.Removed?
  {
    var panes := w.activePanes - {p.requested};
    w.(activeTab := if w.activeTab == Some(p.requested) then Some(p.outcome.rootTabId) else w.activeTab,
       activePanes := if p.outcome.keepsSplit && p.outcome.remaining != []
                      then panes[p.outcome.rootTabId := NextActivePane(p.previous, p.pane, p.outcome.remaining)] else panes,
       registry := w.registry.(revisions := w.registry.revisions + ToSet(p.outcome.remaining)))
  }

  // ----- runs

  /** The workspace, the closes of tabs under way, and that of a pane: the library
      lock lets through one at a time. */
  datatype Desk = Desk(machine: Machine, closes: map<nat, Close>, paneClose: Option<PaneClose>)

  datatype Step =
    | Do(command: Command)
    | BeginClose(key: nat, id: TabId)
    | ReadAgain(reading: nat)
    | StopNext(stopping: nat)
    | GiveUp(givingUp: nat)
    | EndClose(closing: nat)
    | CheckPane(requested: TabId, pane: TabId)
    | StopPane
    | RemovePane
    | FocusPane

  predicate Mentions(close: Close, id: TabId) {
    match close
    case Reading(own, leaves) => own == id || id in leaves
    case Stopping(own, ids, leafOf, _) => own == id || id in ids || leafOf == Some(id)
  }

  /** The id of the tab a command lists. */
  function NewId(c: Command): Option<TabId> {
    match c
    case OpenSession(_, id, _, _, _, _, _) => Some(id)
    case BeginSplit(_, added, _, _) => Some(added)
    case _ => None
  }

  ghost predicate NewIdIsUnmentioned(s: Desk, c: Command) {
    NewId(c).Some? ==> forall k :: k in s.closes ==> !Mentions(s.closes[k], NewId(c).value)
  }

  predicate NeedsLibrary(c: Command) {
    (c.OpenSession? && c.sessionType != "local") || c.BeginSplit? || c.ClosePaneOf?
  }

  /** A close can be given up while it stops the sessions of a whole tab, because the
      transfers of the next one cannot be paused. */
  ghost predicate CanTake(s: Desk, step: Step) {
    match step
    case Do(c) => Enabled(s.machine, c) && NewIdIsUnmentioned(s, c) && (NeedsLibrary(c) ==> s.paneClose.None?)
    case BeginClose(key, _) => key !in s.closes
    case ReadAgain(key) => key in s.closes && s.closes[key].Reading?
    case StopNext(key) => key in s.closes && s.closes[key].Stopping? && s.closes[key].todo != []
    case GiveUp(key) =>
      key in s.closes && s.closes[key].Stopping? && s.closes[key].todo != [] && s.closes[key].leafOf.None?
    case EndClose(key) => key in s.closes && s.closes[key].Stopping? && s.closes[key].todo == []
    case CheckPane(_, _) => LibraryIsFree(s.machine) && s.paneClose.None?
    case StopPane => s.paneClose.Some? && s.paneClose.value.Checked?
    case RemovePane => s.paneClose.Some? && s.paneClose.value.Stopped?
    case FocusPane => s.paneClose.Some? && s.paneClose.value.Removed?
  }

  predicate IsTabStep(step: Step) {
    step.BeginClose? || step.ReadAgain? || step.StopNext? || step.GiveUp? || step.EndClose?
  }

  function TakeTabStep(s: Desk, step: Step): Desk
    requires IsTabStep(step) && CanTake(s, step)
  {
    var m := s.machine;
    match step
    case BeginClose(key, id) => s.(closes := s.closes[key := FirstRead(m.workspace.tabs, id)])
    case ReadAgain(key) => s.(closes := s.closes[key := SecondRead(m.workspace.tabs, s.closes[key])])
    case StopNext(key) =>
      var close := s.closes[key];
      s.(machine := m.(workspace := StopSessionOf(m.workspace, close.todo[0])),
         closes := s.closes[key := close.(todo := close.todo[1..])])
    case GiveUp(key) => s.(closes := s.closes - {key})
    case EndClose(key) =>
      s.(machine := m.(workspace := RemoveFor(m.workspace, s.closes[key])), closes := s.closes - {key})
  }

  function TakePaneStep(s: Desk, step: Step): Desk
    requires !IsTabStep(step) && !step.Do? && CanTake(s, step)
  {
    var w := s.machine.workspace;
    match step
    case CheckPane(root, pane) => s.(paneClose := CheckPaneIn(w, root, pane))
    case StopPane =>
      var p := s.paneClose.value;
      s.(machine := s.machine.(workspace := StopSessionOf(w, p.pane)),
         paneClose := Some(Stopped(p.requested, p.resolved, p.pane, p.previous)))
    case RemovePane =>
      var (next, p) := RemovePaneIn(w, s.paneClose.value);
      s.(machine := s.machine.(workspace := next), paneClose := p)
    case FocusPane =>
      s.(machine := s.machine.(workspace := FocusPaneIn(w, s.paneClose.value)), paneClose := None)
  }

  function Take(s: Desk, step: Step): Desk
    requires CanTake(s, step)
  {
    if step.Do? then s.(machine := Next(s.machine, step.command))
    else if IsTabStep(step) then TakeTabStep(s, step)
    else TakePaneStep(s, step)
  }

  ghost predicate CanRun(s: Desk, run: seq<Step>)
    decreases run
  {
    run == [] || (CanTake(s, run[0]) && CanRun(Take(s, run[0]), run[1..]))
  }

  function AfterAll(s: Desk, run: seq<Step>): Desk
    requires CanRun(s, run)
    decreases run
  {
    if run == [] then s else AfterAll(Take(s, run[0]), run[1..])
  }

  // ----- a removal keeps the forest, or not

  /** What a close has read is whole trees and tabs outside any tree. */
  lemma ReadIsWhole(tabs: seq<Tab>, loose: set<TabId>, id: TabId)
    requires Forest(tabs, loose) && FirstRead(tabs, id).leaves != []
    ensures DropsWholeTrees(tabs, ToSet(FirstRead(tabs, id).leaves))
  {
    var drop, k := ToSet(FirstRead(tabs, id).leaves), IndexOfId(tabs, id);
    forall i, l, m | 0 <= i < |tabs| && l in Leaves(tabs[i]) && m in Leaves(tabs[i]) && l in drop
      ensures m in drop
    {
      TreesAreDisjoint(tabs, loose, i, k, l);
    }
  }

  lemma BrokenTreeIsNoForest(tabs: seq<Tab>, loose: set<TabId>, drop: set<TabId>, i: nat, l: TabId, m: TabId)
    requires Forest(tabs, loose) && i < |tabs|
    requires l in Leaves(tabs[i]) && m in Leaves(tabs[i]) && l in drop && m !in drop
    ensures !Forest(DropIds(tabs, drop), loose)
  {
    var next, root := DropIds(tabs, drop), tabs[i].id;
    assert TreeOk(tabs, i);
    DropIdsIds(tabs, drop);
    if root in drop {
      LeafLosesItsRoot(tabs, loose, drop, i, m);
    } else {
      DropTypes(tabs, drop, root);
      RootIndex(tabs, loose, i);
      assert l in Leaves(next[IndexOfId(next, root)]) && l !in Ids(next);
      assert !TreeOk(next, IndexOfId(next, root));
    }
  }

  /** A leaf that stays without its root points at a tab that is gone. */
  lemma LeafLosesItsRoot(tabs: seq<Tab>, loose: set<TabId>, drop: set<TabId>, i: nat, leaf: TabId)
    requires Forest(tabs, loose) && i < |tabs| && leaf in Leaves(tabs[i])
    requires tabs[i].id in drop && leaf !in drop
    ensures !Forest(DropIds(tabs, drop), loose)
  {
    var next := DropIds(tabs, drop);
    assert TreeOk(tabs, i);
    DropIdsIds(tabs, drop);
    assert LeafOf(tabs, i, IndexOfId(tabs, leaf));
    DropTypes(tabs, drop, leaf);
    var k := IndexOfId(next, leaf);
    forall r | 0 <= r < |next| ensures next[k].paneRootTabId != Some(next[r].id) {
      assert next[r].id in Ids(next);
    }
    assert !Attached(next, k);
  }

  /** Taking tabs out of a forest leaves a forest exactly when each tree goes with
      all its leaves or with none. */
  lemma DropKeepsForestIff(tabs: seq<Tab>, loose: set<TabId>, drop: set<TabId>)
    requires Forest(tabs, loose)
    ensures Forest(DropIds(tabs, drop), loose) <==> DropsWholeTrees(tabs, drop)
  {
    if DropsWholeTrees(tabs, drop) {
      DropKeepsForest(tabs, loose, drop);
      MoreLoose(tabs, loose, drop);
    } else {
      var i, l, m :| 0 <= i < |tabs| && l in Leaves(tabs[i]) && m in Leaves(tabs[i]) && l in drop && m !in drop;
      BrokenTreeIsNoForest(tabs, loose, drop, i, l, m);
    }
  }

  lemma MoreLoose(tabs: seq<Tab>, loose: set<TabId>, drop: set<TabId>)
    requires Forest(tabs, loose) && Forest(DropIds(tabs, drop), loose - drop)
    ensures Forest(DropIds(tabs, drop), loose)
  {
    var next := DropIds(tabs, drop);
    DropIdsIds(tabs, drop);
    forall j | 0 <= j < |next| ensures next[j].id !in drop {
      assert next[j].id in Ids(next);
    }
    forall i, l | 0 <= i < |next| && l in Leaves(next[i]) ensures l !in loose {
      assert TreeOk(next, i);
    }
  }

  // ----- the leaf path

  /** The tab is a leaf of the root's tree, and not the root itself. */
  predicate IsProperLeaf(tabs: seq<Tab>, id: TabId, root: TabId) {
    var r := IndexOfId(tabs, root);
    r < |tabs| && id != root && id in Leaves(tabs[r])
  }

  /** Taking the tabs out now would break a tree. On the path for leaves that is so
      when the root is there but the tab is the root of a tree itself, or a leaf of
      another root. */
  ghost predicate WouldBreak(tabs: seq<Tab>, close: Close)
    requires close.Stopping?
  {
    match close.leafOf
    case None => !DropsWholeTrees(tabs, ToSet(close.ids))
    case Some(root) => root in Ids(tabs) && !IsProperLeaf(tabs, close.id, root) && !DropsWholeTrees(tabs, {close.id})
  }

  lemma ProperLeafRemoval(tabs: seq<Tab>, loose: set<TabId>, close: Close)
    requires Forest(tabs, loose) && close.Stopping? && close.leafOf.Some?
    requires IsProperLeaf(tabs, close.id, close.leafOf.value)
    ensures ClosesAsLeaf(tabs, close.id) && TabsAfter(tabs, close) == CloseTab(tabs, close.id)
  {
    var r := IndexOfId(tabs, close.leafOf.value);
    CloseTabAgreesWithClosePane(tabs, loose, r, close.id);
  }

  lemma AbsentLeafStays(tree: PaneNode, id: TabId)
    requires WellShaped(tree) && Distinct(LeafTabIds(tree)) && |LeafTabIds(tree)| >= 2 && id !in LeafTabIds(tree)
    ensures ClosedTree(Some(tree), id) == Some(tree)
  {
    RemoveLeafLeaves(tree, id);
  }

  lemma {:induction false} DroppedMayDiffer(tabs: seq<Tab>, k: nat, tab: Tab, drop: set<TabId>)
    requires k < |tabs| && tab.id == tabs[k].id && tab.id in drop
    ensures DropIds(tabs[k := tab], drop) == DropIds(tabs, drop)
  {
    var n := |tabs| - 1;
    if k < n {
      DroppedMayDiffer(tabs[..n], k, tab, drop);
      assert tabs[k := tab][..n] == tabs[..n][k := tab];
    } else {
      assert tabs[k := tab][..n] == tabs[..n];
    }
  }

  /** A tab that is no leaf of the root it read is only dropped: either no tree
      changes, or the tree that would is dropped with its tab. */
  lemma OtherLeafRemoval(tabs: seq<Tab>, loose: set<TabId>, close: Close)
    requires Forest(tabs, loose) && close.Stopping? && close.leafOf.Some? && close.leafOf.value in Ids(tabs)
    requires !IsProperLeaf(tabs, close.id, close.leafOf.value)
    ensures TabsAfter(tabs, close) == DropIds(tabs, {close.id})
  {
    var root := close.leafOf.value;
    var r := IndexOfId(tabs, root);
    var shrunk := tabs[r].(paneRoot := ClosedTree(tabs[r].paneRoot, close.id));
    if root == close.id {
      DroppedMayDiffer(tabs, r, shrunk, {close.id});
    } else {
      if tabs[r].paneRoot.Some? {
        assert TreeOk(tabs, r);
        AbsentLeafStays(tabs[r].paneRoot.value, close.id);
      }
      assert tabs[r := shrunk] == tabs;
    }
  }

  lemma DropKeepsWaiting(m: Machine, drop: set<TabId>)
    requires ForestInv(m) && m.pending.Starting?
    requires m.pending.source in Ids(DropIds(m.workspace.tabs, drop)) && m.pending.added in Ids(DropIds(m.workspace.tabs, drop))
    ensures var next := DropIds(m.workspace.tabs, drop);
            IndexOfId(next, m.pending.source) < IndexOfId(next, m.pending.added)
  {
    DropIdsIds(m.workspace.tabs, drop);
    OrderAfterDrop(m.workspace.tabs, drop, m.pending.source, m.pending.added);
  }

  lemma DropKeepsForestInvIff(m: Machine, w: Workspace, drop: set<TabId>)
    requires ForestInv(m) && w.tabs == DropIds(m.workspace.tabs, drop)
    ensures ForestInv(m.(workspace := w)) <==> DropsWholeTrees(m.workspace.tabs, drop)
    ensures Ids(w.tabs) == Ids(m.workspace.tabs) - drop
  {
    DropKeepsForestIff(m.workspace.tabs, Loose(m.pending), drop);
    DropIdsIds(m.workspace.tabs, drop);
    if m.pending.Starting? && m.pending.source in Ids(w.tabs) && m.pending.added in Ids(w.tabs) {
      DropKeepsWaiting(m, drop);
    }
  }

  lemma LeafRemovalKeepsForestIff(m: Machine, close: Close)
    requires ForestInv(m) && close.Stopping? && close.leafOf.Some?
    ensures ForestInv(m.(workspace := RemoveFor(m.workspace, close))) <==> !WouldBreak(m.workspace.tabs, close)
    ensures var tabs := m.workspace.tabs;
            Ids(TabsAfter(tabs, close)) == Ids(tabs) - if close.leafOf.value in Ids(tabs) then {close.id} else {}
  {
    var tabs, w := m.workspace.tabs, RemoveFor(m.workspace, close);
    if close.leafOf.value in Ids(tabs) {
      if IsProperLeaf(tabs, close.id, close.leafOf.value) {
        ProperLeafRemoval(tabs, Loose(m.pending), close);
        CloseTabForestInv(m, close.id);
        CloseTabKeepsForest(tabs, Loose(m.pending), close.id);
      } else {
        OtherLeafRemoval(tabs, Loose(m.pending), close);
        DropKeepsForestInvIff(m, w, {close.id});
      }
    }
  }

  /** The removal of a close keeps the forest exactly when it breaks no tree; the
      sessions match the tabs in any case. */
  lemma RemovalKeepsInvIff(m: Machine, close: Close)
    requires Inv(m) && close.Stopping?
    ensures Inv(m.(workspace := RemoveFor(m.workspace, close))) <==> !WouldBreak(m.workspace.tabs, close)
    ensures RegistryInv(m.(workspace := RemoveFor(m.workspace, close)))
  {
    if close.leafOf.Some? {
      LeafRemovalKeepsForestIff(m, close);
    } else {
      DropKeepsForestInvIff(m, RemoveFor(m.workspace, close), ToSet(close.ids));
    }
  }

  // ----- what every step keeps

  /** The close of a pane holds the library lock, so no split is under way. */
  ghost predicate DeskInv(s: Desk) {
    Inv(s.machine) && (s.paneClose.Some? ==> s.machine.pending.Free?)
  }

  /** The step takes out the tabs of a close that has gone stale. */
  ghost predicate IsStale(s: Desk, step: Step)
    requires CanTake(s, step)
  {
    step.EndClose? && WouldBreak(s.machine.workspace.tabs, s.closes[step.closing])
  }

  lemma StopIsOnlyARelease(m: Machine, id: TabId)
    requires Inv(m)
    ensures Inv(m.(workspace := StopSessionOf(m.workspace, id)))
  {
  }

  lemma RemovePaneKeepsInv(m: Machine, p: PaneClose)
    requires Inv(m) && m.pending.Free? && p.Stopped?
    ensures Inv(m.(workspace := RemovePaneIn(m.workspace, p).0))
  {
    RemoveSplitPaneKeepsForest(m.workspace.tabs, {}, p.resolved, p.pane);
  }

  lemma PaneStepKeepsDesk(s: Desk, step: Step)
    requires DeskInv(s) && CanTake(s, step) && !IsTabStep(step) && !step.Do?
    ensures DeskInv(TakePaneStep(s, step))
  {
    match step
    case CheckPane(_, _) =>
    case StopPane => StopIsOnlyARelease(s.machine, s.paneClose.value.pane);
    case RemovePane => RemovePaneKeepsInv(s.machine, s.paneClose.value);
    case FocusPane =>
  }

  lemma TabStepKeepsDeskIff(s: Desk, step: Step)
    requires DeskInv(s) && CanTake(s, step) && IsTabStep(step)
    ensures DeskInv(TakeTabStep(s, step)) <==> !IsStale(s, step)
  {
    match step
    case BeginClose(_, _) =>
    case ReadAgain(_) =>
    case StopNext(key) => StopIsOnlyARelease(s.machine, s.closes[key].todo[0]);
    case GiveUp(_) =>
    case EndClose(key) => RemovalKeepsInvIff(s.machine, s.closes[key]);
  }

  lemma CommandKeepsDesk(s: Desk, c: Command)
    requires DeskInv(s) && CanTake(s, Do(c))
    ensures DeskInv(Take(s, Do(c)))
  {
    StepKeepsForest(s.machine, c);
    StepKeepsRegistry(s.machine, c);
  }

  /** Every step keeps the workspace in order, except the removal of a stale close,
      which never does. */
  lemma StepKeepsDeskIff(s: Desk, step: Step)
    requires DeskInv(s) && CanTake(s, step)
    ensures DeskInv(Take(s, step)) <==> !IsStale(s, step)
  {
    if step.Do? {
      CommandKeepsDesk(s, step.command);
    } else if IsTabStep(step) {
      TabStepKeepsDeskIff(s, step);
    } else {
      PaneStepKeepsDesk(s, step);
    }
  }

  ghost predicate AlwaysInOrder(s: Desk, run: seq<Step>)
    requires CanRun(s, run)
    decreases run
  {
    Inv(s.machine) && (run != [] ==> AlwaysInOrder(Take(s, run[0]), run[1..]))
  }

  ghost predicate NeverStale(s: Desk, run: seq<Step>)
    requires CanRun(s, run)
    decreases run
  {
    run == [] || (!IsStale(s, run[0]) && NeverStale(Take(s, run[0]), run[1..]))
  }

  /** Over every run, with the closes of tabs and panes in their steps: the tab list
      is a forest in all its states exactly when no stale close takes out its tabs. */
  lemma {:induction false} EveryRunStaysInOrderIff(s: Desk, run: seq<Step>)
    requires DeskInv(s) && CanRun(s, run)
    ensures AlwaysInOrder(s, run) <==> NeverStale(s, run)
    decreases run
  {
    if run != [] {
      StepKeepsDeskIff(s, run[0]);
      if IsStale(s, run[0]) {
        RemovalKeepsInvIff(s.machine, s.closes[run[0].closing]);
      } else {
        EveryRunStaysInOrderIff(Take(s, run[0]), run[1..]);
      }
    }
  }
}
