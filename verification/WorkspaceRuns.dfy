/** Runs of the workspace commands.

    The state is the tab list, the focus and the per-session registries. Neither
    opening nor splitting is one step. Opening lists its tab and then fills the
    registries one entry at a time; so does a reconnect after it has stopped the
    old worker. A split lists its new tab, starts the session, attaches the pane
    and moves the focus. Other commands run in between. A split and the opening
    of a profile hold the library lock throughout, so at most one of them is under
    way and no pane is closed meanwhile. */
module WorkspaceRuns {
  import opened Wrappers
  import opened Sequences
  import opened Panes
  import opened TabForest
  import opened TabLayout

  /** The per-session maps that hold a running session's resources. */
  datatype Resource =
    | Worker
    | TerminalInput
    | WorkerControl
    | RuntimeId
    | RuntimeGate
    | LogWriter
    | SerialAttempts
    | SerialTransfer
    | RemoteForwards

  /** Which ids each map of the workspace holds. `launches` remembers how a local
      shell was started, `revisions` counts changes of a session's identity. */
  datatype Registry = Registry(
    sessions: set<TabId>,
    revisions: set<TabId>,
    launches: set<TabId>,
    held: set<(Resource, TabId)>)
  {
    predicate Mentions(id: TabId) {
      id in sessions || id in revisions || id in launches || exists p :: p in held && p.1 == id
    }
  }

  datatype Workspace = Workspace(
    tabs: seq<Tab>,
    activeTab: Option<TabId>,
    activePanes: map<TabId, TabId>,
    registry: Registry)

  datatype Pending =
    | Free
    | Starting(source: TabId, added: TabId, direction: Direction, sessionType: string, started: bool)
    | Focusing(rootTabId: TabId, source: TabId, added: TabId)
    | RollingBack(added: TabId)

  /** How a session is started. A local shell may fail to start its process; a
      remote session takes typed input when it is an SSH one. */
  datatype Launch =
    | LocalShell(started: bool)
    | Remote(interactive: bool, logged: bool)

  /** One access to the registries while a session is started. */
  datatype Entry =
    | Hold(resource: Resource)
    | Drop(resources: set<Resource>)
    | RememberLaunch
    | TouchRevision

  /** A session being started: the entries still to come, and whether the command
      that starts it holds the library lock. */
  datatype Start = Start(id: TabId, script: seq<Entry>, locked: bool)

  datatype Machine = Machine(workspace: Workspace, pending: Pending, starts: map<nat, Start>)

  predicate SupportsSplitPanes(sessionType: string) {
    sessionType == "ssh" || sessionType == "local"
  }

  // ----- registries

  function Release(held: set<(Resource, TabId)>, resources: set<Resource>, ids: set<TabId>): set<(Resource, TabId)> {
    set p | p in held && !(p.0 in resources && p.1 in ids)
  }

  function HoldAll(held: set<(Resource, TabId)>, resources: set<Resource>, id: TabId): set<(Resource, TabId)> {
    held + set r | r in resources :: (r, id)
  }

  /** What `stop_session_worker` takes out. */
  const WORKER_RESOURCES := {RuntimeGate, RuntimeId, SerialTransfer, WorkerControl, TerminalInput, Worker}

  const CLOSED_RESOURCES := WORKER_RESOURCES + {LogWriter, SerialAttempts}

  const SHELL_RESOURCES := {Worker, TerminalInput, WorkerControl, RuntimeId, RuntimeGate}

  function LaunchOf(sessionType: string, started: bool, logged: bool): Launch {
    if sessionType == "local" then LocalShell(started) else Remote(sessionType == "ssh", logged)
  }

  /** The entries a start makes, in the program's order. A local shell whose
      process does not start takes its entries out again. */
  function Script(launch: Launch): seq<Entry> {
    match launch
    case LocalShell(started) =>
      [Hold(Worker), Hold(TerminalInput), Hold(WorkerControl), Hold(RuntimeId), Hold(RuntimeGate), RememberLaunch]
      + if started then [] else [Drop(SHELL_RESOURCES)]
    case Remote(interactive, logged) =>
      [Hold(Worker)] + (if interactive then [Hold(TerminalInput)] else [])
      + [Hold(WorkerControl), Drop({LogWriter})] + if logged then [Hold(LogWriter)] else []
  }

  function Insert(r: Registry, id: TabId, entry: Entry): Registry {
    match entry
    case Hold(resource) => r.(held := r.held + {(resource, id)})
    case Drop(resources) => r.(held := Release(r.held, resources, {id}))
    case RememberLaunch => r.(launches := r.launches + {id})
    case TouchRevision => r.(revisions := r.revisions + {id})
  }

  function InsertAll(r: Registry, id: TabId, script: seq<Entry>): Registry
    decreases script
  {
    if script == [] then r else InsertAll(Insert(r, id, script[0]), id, script[1..])
  }

  /** What an uninterrupted start leaves in the registries. */
  function StartWorker(r: Registry, id: TabId, launch: Launch): Registry {
    match launch
    case LocalShell(started) =>
      r.(launches := r.launches + {id},
         held := if started then HoldAll(r.held, SHELL_RESOURCES, id) else Release(r.held, SHELL_RESOURCES, {id}))
    case Remote(interactive, logged) =>
      r.(held := HoldAll(Release(r.held, {LogWriter}, {id}),
                         {Worker, WorkerControl}
                         + (if interactive then {TerminalInput} else {})
                         + (if logged then {LogWriter} else {}), id))
  }

  function ClosePaneRegistry(r: Registry, pane: TabId, remaining: seq<TabId>): Registry {
    Registry(r.sessions - {pane}, r.revisions - {pane} + ToSet(remaining), r.launches,
             Release(r.held, CLOSED_RESOURCES, {pane}))
  }

  function CloseTabRegistry(r: Registry, ids: set<TabId>): Registry {
    Registry(r.sessions - ids, r.revisions - ids, r.launches - ids, Release(r.held, CLOSED_RESOURCES, ids))
  }

  function RollBackRegistry(r: Registry, id: TabId): Registry {
    Registry(r.sessions - {id}, r.revisions - {id}, r.launches - {id},
             Release(r.held, CLOSED_RESOURCES + {RemoteForwards}, {id}))
  }

  // ----- opening and splitting

  function NewTab(id: TabId, sessionType: string, isBackground: bool, source: Option<SessionSource>, root: Option<TabId>): Tab {
    Tab(id, sessionType, isBackground, source, None, root)
  }

  function ListTab(w: Workspace, tab: Tab): Workspace {
    w.(tabs := w.tabs + [tab], registry := w.registry.(sessions := w.registry.sessions + {tab.id}))
  }

  /** Opening a session when nothing runs in between. */
  function Open(w: Workspace, tab: Tab, launch: Launch): Workspace {
    var listed := ListTab(w, tab);
    listed.(registry := StartWorker(listed.registry, tab.id, launch))
  }

  /** The root a split is started for: the one the source points at, the owner
      of its tree, or the source itself. */
  function SplitRoot(tabs: seq<Tab>, k: nat): TabId
    requires k < |tabs|
  {
    var source := tabs[k];
    if source.paneRootTabId.Some? then source.paneRootTabId.value
    else if source.paneRoot.Some? then source.id
    else
      var c := ContainingRoot(tabs, source.id);
      if c < |tabs| then tabs[c].id else source.id
  }

  /** A tree one of whose leaves is gone or of another type is not split further. */
  predicate MixedTypes(tabs: seq<Tab>, rootTabId: TabId, sessionType: string) {
    var r := IndexOfId(tabs, rootTabId);
    r < |tabs| && exists l | l in Leaves(tabs[r]) ::
      var k := IndexOfId(tabs, l); k == |tabs| || tabs[k].sessionType != sessionType
  }

  /** The tab a split lists for its new session, when the split is allowed. The
      type of a remote session is read from the saved profile, which may have
      been edited or deleted since the source was opened. */
  function SplitTab(w: Workspace, source: TabId, added: TabId, profileType: Option<string>): Option<Tab> {
    var k := IndexOfId(w.tabs, source);
    if k == |w.tabs| then None
    else
      var sessionType := w.tabs[k].sessionType;
      var root := SplitRoot(w.tabs, k);
      if !SupportsSplitPanes(sessionType) || MixedTypes(w.tabs, root, sessionType) then None
      else if sessionType == "local" then
        if source in w.registry.launches then Some(NewTab(added, "local", false, None, Some(root))) else None
      else if profileType.None? then None
      else Some(NewTab(added, profileType.value, false, None, Some(root)))
  }

  function Attach(m: Machine): Machine
    requires m.pending.Starting?
  {
    AttachWith(m, FinishSplit(m.workspace.tabs, m.pending.source, m.pending.added, m.pending.direction))
  }

  function AttachWith(m: Machine, done: Result<Attachment, LayoutError>): Machine
    requires m.pending.Starting?
  {
    if done.Failure? then m.(pending := RollingBack(m.pending.added))
    else m.(workspace := m.workspace.(tabs := done.value.tabs),
            pending := Focusing(done.value.rootTabId, m.pending.source, m.pending.added))
  }

  function FocusSplit(w: Workspace, root: TabId, source: TabId, added: TabId): Workspace {
    w.(activeTab := Some(root), activePanes := w.activePanes[root := added],
       registry := w.registry.(revisions := w.registry.revisions + {source, added}))
  }

  /** `cleanup_unattached_session`. */
  function RollBackSplit(w: Workspace, added: TabId): Workspace {
    w.(tabs := DropIds(w.tabs, {added}),
       activePanes := map r | r in w.activePanes && r != added && w.activePanes[r] != added :: w.activePanes[r],
       registry := RollBackRegistry(w.registry, added))
  }

  // ----- closing

  /** The active pane of a split root after one of its panes is closed. */
  function NextActivePane(previous: Option<TabId>, pane: TabId, remaining: seq<TabId>): (next: TabId)
    requires remaining != []
    ensures next in remaining
  {
    if previous.Some? && previous.value != pane && previous.value in remaining
    then previous.value else remaining[0]
  }

  function Lookup(m: map<TabId, TabId>, key: TabId): Option<TabId> {
    if key in m then Some(m[key]) else None
  }

  function ClosePane(w: Workspace, rootTabId: TabId, pane: TabId): Workspace {
    var i := RequestedRoot(w.tabs, rootTabId, pane);
    if i == |w.tabs| || |Leaves(w.tabs[i])| < 2 || pane !in Leaves(w.tabs[i]) then w
    else
      var resolved := w.tabs[i].id;
      var previous := Lookup(w.activePanes, resolved);
      var step := RemoveSplitPane(w.tabs, resolved, pane);
      match step.outcome
      case Failure(_) => w.(tabs := step.tabs,
                            registry := w.registry.(held := Release(w.registry.held, CLOSED_RESOURCES, {pane})))
      case Success(closed) =>
        var panes := w.activePanes - {rootTabId};
        Workspace(
          step.tabs,
          if w.activeTab == Some(rootTabId) then Some(closed.rootTabId) else w.activeTab,
          if closed.keepsSplit && closed.remaining != []
          then panes[closed.rootTabId := NextActivePane(previous, pane, closed.remaining)] else panes,
          ClosePaneRegistry(w.registry, pane, closed.remaining))
  }

  /** The active-pane map after the leaf path of a close. `r` is the index the
      root had before the tab was dropped. */
  function CloseLeafPanes(panes: map<TabId, TabId>, tabs: seq<Tab>, r: nat, root: TabId, id: TabId): map<TabId, TabId> {
    if r >= |tabs| then panes
    else if tabs[r].paneRoot.None? then panes - {root}
    else
      var leaves := Leaves(tabs[r]);
      if (root !in panes || panes[root] == id || panes[root] !in leaves) && leaves != []
      then panes[root := leaves[0]] else panes
  }

  /** The path for a leaf of another tab's tree. */
  function CloseLeafIn(w: Workspace, tabs: seq<Tab>, id: TabId): Workspace
    requires ContainingRoot(w.tabs, id) < |w.tabs|
  {
    var root := w.tabs[ContainingRoot(w.tabs, id)].id;
    Workspace(tabs, w.activeTab,
      CloseLeafPanes(w.activePanes, tabs, IndexOfId(w.tabs, root), root, id),
      CloseTabRegistry(w.registry, {id}))
  }

  /** The path for a standalone tab or a whole split. */
  function CloseWholeIn(w: Workspace, tabs: seq<Tab>, id: TabId): Workspace {
    Workspace(tabs,
      if w.activeTab == Some(id) then
        if tabs == [] then None else Some(tabs[|tabs| - 1].id)
      else w.activeTab,
      w.activePanes - {id},
      CloseTabRegistry(w.registry, ToSet(IdsToClose(w.tabs, id))))
  }

  function CloseTabIn(w: Workspace, id: TabId): Workspace {
    var tabs := CloseTab(w.tabs, id);
    if ClosesAsLeaf(w.tabs, id) then CloseLeafIn(w, tabs, id) else CloseWholeIn(w, tabs, id)
  }

  // ----- focus and visibility

  /** The top-level tab a session is shown under, when both are in the list. */
  function TopLevelIndex(tabs: seq<Tab>, id: TabId): (i: nat)
    ensures i <= |tabs|
  {
    var k := IndexOfId(tabs, id);
    if k == |tabs| then k
    else IndexOfId(tabs, if tabs[k].paneRootTabId.Some? then tabs[k].paneRootTabId.value else tabs[k].id)
  }

  function Activate(w: Workspace, id: TabId): Workspace {
    var k := IndexOfId(w.tabs, id);
    w.(activeTab := Some(if k < |w.tabs| && w.tabs[k].paneRootTabId.Some? then w.tabs[k].paneRootTabId.value else id))
  }

  function SetWeights(w: Workspace, root: TabId, path: seq<nat>, weights: seq<real>): Workspace {
    var k := IndexOfId(w.tabs, root);
    if k == |w.tabs| || w.tabs[k].paneRoot.None? then w
    else
      match SetWeightsAtPath(w.tabs[k].paneRoot.value, path, weights)
      case None => w
      case Some(tree) => w.(tabs := w.tabs[k := w.tabs[k].(paneRoot := Some(tree))])
  }

  function AttachBackground(w: Workspace, id: TabId): Workspace {
    var i := TopLevelIndex(w.tabs, id);
    if i == |w.tabs| then w
    else w.(tabs := w.tabs[i := w.tabs[i].(isBackground := false)], activeTab := Some(w.tabs[i].id))
  }

  /** The last visible top-level tab other than the hidden one. */
  function NextVisibleTopLevel(tabs: seq<Tab>, hidden: TabId): Option<TabId> {
    if tabs == [] then None
    else
      var last := tabs[|tabs| - 1];
      if !last.isBackground && last.paneRootTabId.None? && last.id != hidden then Some(last.id)
      else NextVisibleTopLevel(tabs[..|tabs| - 1], hidden)
  }

  function DetachToBackground(w: Workspace, id: TabId): Workspace {
    var i := TopLevelIndex(w.tabs, id);
    if i == |w.tabs| || w.tabs[i].source.None? then w
    else
      var tabs := w.tabs[i := w.tabs[i].(isBackground := true)];
      w.(tabs := tabs,
         activeTab := if w.activeTab == Some(w.tabs[i].id)
                      then NextVisibleTopLevel(tabs, w.tabs[i].id) else w.activeTab)
  }

  // ----- the commands, interleaved

  datatype Command =
    | OpenSession(key: nat, tab: TabId, sessionType: string, isBackground: bool, source: Option<SessionSource>,
                  started: bool, logged: bool)
    | Reconnect(reconnectKey: nat, reconnected: TabId, savedType: Option<string>, restarted: bool, relogged: bool)
    | StartNext(startKey: nat)
    | Disconnect(disconnected: TabId)
    | BeginSplit(splitSource: TabId, added: TabId, direction: Direction, profileType: Option<string>)
    | StartSplit(splitStarted: bool, splitLogged: bool)
    | AttachSplit
    | FinishFocus
    | RollBack
    | ClosePaneOf(rootTabId: TabId, pane: TabId)
    | CloseTabOf(closed: TabId)
    | ActivateTab(activated: TabId)
    | SetActivePane(paneRootTabId: TabId, activePane: TabId)
    | SetPaneWeights(weightsRoot: TabId, path: seq<nat>, weights: seq<real>)
    | AttachBackgroundSession(attached: TabId)
    | DetachSession(detached: TabId)

  /** A new tab gets an id that nothing mentions yet. */
  ghost predicate IsNew(m: Machine, id: TabId) {
    && id !in Ids(m.workspace.tabs)
    && !m.workspace.registry.Mentions(id)
    && id !in Loose(m.pending)
    && (m.pending.Starting? ==> id != m.pending.source)
    && m.workspace.activeTab != Some(id)
    && !IsStarting(m, id)
  }

  ghost predicate IsStarting(m: Machine, id: TabId) {
    exists k :: k in m.starts && m.starts[k].id == id
  }

  /** No split and no opening of a profile is under way. */
  ghost predicate LibraryIsFree(m: Machine) {
    m.pending.Free? && forall k :: k in m.starts ==> !m.starts[k].locked
  }

  function Loose(pending: Pending): set<TabId> {
    match pending
    case Starting(_, added, _, _, _) => {added}
    case RollingBack(added) => {added}
    case _ => {}
  }

  /** A command may take its next step: it holds the library lock when it needs
      it, the split under way has reached that step, and a new id is new. */
  ghost predicate Enabled(m: Machine, c: Command) {
    match c
    case OpenSession(key, id, sessionType, _, _, _, _) =>
      key !in m.starts && IsNew(m, id) && (sessionType == "local" || LibraryIsFree(m))
    case Reconnect(key, _, _, _, _) => key !in m.starts
    case StartNext(key) => key in m.starts
    case BeginSplit(_, added, _, _) => LibraryIsFree(m) && IsNew(m, added)
    case StartSplit(_, _) => m.pending.Starting? && !m.pending.started
    case AttachSplit => m.pending.Starting? && m.pending.started
    case FinishFocus => m.pending.Focusing?
    case RollBack => m.pending.RollingBack?
    case ClosePaneOf(_, _) => LibraryIsFree(m)
    case _ => true
  }

  /** The commands that only move the focus, hide a tab or drag a divider. */
  predicate IsEdit(c: Command) {
    c.ActivateTab? || c.SetActivePane? || c.SetPaneWeights? || c.AttachBackgroundSession? || c.DetachSession?
  }

  function Edit(w: Workspace, c: Command): Workspace
    requires IsEdit(c)
  {
    match c
    case ActivateTab(id) => Activate(w, id)
    case SetActivePane(root, pane) => w.(activePanes := w.activePanes[root := pane])
    case SetPaneWeights(root, path, weights) => SetWeights(w, root, path, weights)
    case AttachBackgroundSession(id) => AttachBackground(w, id)
    case DetachSession(id) => DetachToBackground(w, id)
  }

  /** The steps of a split. */
  predicate IsSplitStep(c: Command) {
    c.BeginSplit? || c.StartSplit? || c.AttachSplit? || c.FinishFocus? || c.RollBack?
  }

  function NextOfSplit(m: Machine, c: Command): Machine
    requires IsSplitStep(c)
  {
    var w := m.workspace;
    match c
    case BeginSplit(source, added, direction, profileType) =>
      (match SplitTab(w, source, added, profileType)
       case None => m
       case Some(tab) =>
         m.(workspace := ListTab(w, tab), pending := Starting(source, added, direction, tab.sessionType, false)))
    case StartSplit(started, logged) =>
      if !m.pending.Starting? then m
      else
        var launch := LaunchOf(m.pending.sessionType, started, logged);
        m.(workspace := w.(registry := StartWorker(w.registry, m.pending.added, launch)),
           pending := m.pending.(started := true))
    case AttachSplit =>
      if !m.pending.Starting? then m
      else Attach(m)
    case FinishFocus =>
      if !m.pending.Focusing? then m
      else m.(workspace := FocusSplit(w, m.pending.rootTabId, m.pending.source, m.pending.added), pending := Free)
    case RollBack =>
      if !m.pending.RollingBack? then m else m.(workspace := RollBackSplit(w, m.pending.added), pending := Free)
  }

  /** The steps that start a session. */
  predicate IsStartStep(c: Command) {
    c.OpenSession? || c.Reconnect? || c.StartNext?
  }

  /** How a reconnect starts its session again. A listed remote tab needs its saved
      profile, whose type may have been edited; a tab that is not listed is left
      alone. */
  function Relaunch(tabs: seq<Tab>, c: Command): Option<Launch>
    requires c.Reconnect?
  {
    var k := IndexOfId(tabs, c.reconnected);
    if k == |tabs| then None
    else if tabs[k].sessionType == "local" then Some(LocalShell(c.restarted))
    else if c.savedType.None? then None
    else Some(Remote(c.savedType.value == "ssh", c.relogged))
  }

  function NextOfStart(m: Machine, c: Command): Machine
    requires IsStartStep(c)
  {
    var w := m.workspace;
    match c
    case OpenSession(key, id, sessionType, isBackground, source, started, logged) =>
      var script := Script(LaunchOf(sessionType, started, logged));
      m.(workspace := ListTab(w, NewTab(id, sessionType, isBackground, source, None)),
         starts := m.starts[key := Start(id, script, sessionType != "local")])
    case Reconnect(key, id, _, _, _) =>
      (match Relaunch(w.tabs, c)
       case None => m
       case Some(launch) =>
         m.(workspace := w.(registry := w.registry.(held := Release(w.registry.held, WORKER_RESOURCES, {id}))),
            starts := m.starts[key := Start(id, [TouchRevision] + Script(launch), false)]))
    case StartNext(key) => if key in m.starts then StartStep(m, key) else m
  }

  /** The next entry of a start under way. */
  function StartStep(m: Machine, key: nat): Machine
    requires key in m.starts
  {
    var start := m.starts[key];
    if start.script == [] then m.(starts := m.starts - {key})
    else
      m.(workspace := m.workspace.(registry := Insert(m.workspace.registry, start.id, start.script[0])),
         starts := if |start.script| == 1 then m.starts - {key}
                   else m.starts[key := start.(script := start.script[1..])])
  }

  function DisconnectIn(w: Workspace, id: TabId): Workspace {
    var k := IndexOfId(w.tabs, id);
    if k < |w.tabs| && w.tabs[k].sessionType == "local"
    then w.(registry := w.registry.(held := Release(w.registry.held, WORKER_RESOURCES, {id})))
    else w.(registry := w.registry.(held := Release(w.registry.held, WORKER_RESOURCES + {SerialAttempts}, {id}),
                                    revisions := w.registry.revisions + {id}))
  }

  /** The commands that are one step, whatever split is under way. */
  function Perform(w: Workspace, c: Command): Workspace
    requires !IsSplitStep(c) && !IsStartStep(c)
  {
    if IsEdit(c) then Edit(w, c)
    else
      match c
      case Disconnect(id) => DisconnectIn(w, id)
      case ClosePaneOf(root, pane) => ClosePane(w, root, pane)
      case CloseTabOf(id) => CloseTabIn(w, id)
  }

  function Next(m: Machine, c: Command): Machine {
    if IsSplitStep(c) then NextOfSplit(m, c)
    else if IsStartStep(c) then NextOfStart(m, c)
    else m.(workspace := Perform(m.workspace, c))
  }

  ghost predicate Runnable(m: Machine, run: seq<Command>)
    decreases run
  {
    run == [] || (Enabled(m, run[0]) && Runnable(Next(m, run[0]), run[1..]))
  }

  function After(m: Machine, run: seq<Command>): Machine
    decreases run
  {
    if run == [] then m else After(Next(m, run[0]), run[1..])
  }

  const EMPTY_REGISTRY := Registry({}, {}, {}, {})

  const EMPTY := Machine(Workspace([], None, map[], EMPTY_REGISTRY), Free, map[])

  // ----- the invariant of every run

  ghost predicate ForestInv(m: Machine) {
    && Forest(m.workspace.tabs, Loose(m.pending))
    && (m.pending.Starting? ==>
          Waiting(m.workspace.tabs, Loose(m.pending), m.pending.source, m.pending.added))
  }

  /** A session is kept for exactly the tabs in the list. */
  ghost predicate RegistryInv(m: Machine) {
    m.workspace.registry.sessions == Ids(m.workspace.tabs)
  }

  ghost predicate Inv(m: Machine) {
    ForestInv(m) && RegistryInv(m)
  }

  // ----- each command keeps the forest

  lemma IndexAfterPush(tabs: seq<Tab>, tab: Tab, id: TabId)
    requires tab.id !in Ids(tabs)
    ensures Ids(tabs + [tab]) == Ids(tabs) + {tab.id}
    ensures id in Ids(tabs) ==> IndexOfId(tabs + [tab], id) == IndexOfId(tabs, id)
    ensures IndexOfId(tabs + [tab], tab.id) == |tabs|
  {
    var next := tabs + [tab];
    assert forall k :: 0 <= k < |tabs| ==> next[k] == tabs[k];
    assert next[|tabs|] == tab;
    forall x | x in Ids(tabs) ensures x in Ids(next) {
      assert next[IndexOfId(tabs, x)].id == x;
    }
  }

  lemma PushKeepsWaiting(tabs: seq<Tab>, tab: Tab, loose: set<TabId>, source: TabId, added: TabId)
    requires Waiting(tabs, loose, source, added)
    requires tab.id !in Ids(tabs) && tab.id != source && tab.id != added
    requires tab.paneRoot.None? && tab.paneRootTabId.None?
    ensures Waiting(tabs + [tab], loose, source, added)
  {
    PushKeepsForest(tabs, loose, tab);
    IndexAfterPush(tabs, tab, source);
    IndexAfterPush(tabs, tab, added);
  }

  lemma OpenKeepsForest(m: Machine, tab: Tab, next: Machine)
    requires ForestInv(m) && IsNew(m, tab.id) && tab.paneRoot.None? && tab.paneRootTabId.None?
    requires next.workspace.tabs == m.workspace.tabs + [tab] && next.pending == m.pending
    ensures ForestInv(next)
  {
    PushKeepsForest(m.workspace.tabs, Loose(m.pending), tab);
    if m.pending.Starting? {
      PushKeepsWaiting(m.workspace.tabs, tab, Loose(m.pending), m.pending.source, m.pending.added);
    }
  }

  lemma BeginSplitKeepsForest(tabs: seq<Tab>, source: TabId, tab: Tab)
    requires Forest(tabs, {}) && source in Ids(tabs) && tab.id !in Ids(tabs) && tab.paneRoot.None?
    ensures Waiting(tabs + [tab], {tab.id}, source, tab.id)
  {
    AddLoose(tabs, {}, tab.id);
    assert {} + {tab.id} == {tab.id};
    PushKeepsForest(tabs, {tab.id}, tab);
    IndexAfterPush(tabs, tab, source);
  }

  lemma AttachOnList(tabs: seq<Tab>, source: TabId, added: TabId, direction: Direction)
    requires Waiting(tabs, {added}, source, added)
    requires FinishSplit(tabs, source, added, direction).Success?
    ensures Forest(FinishSplit(tabs, source, added, direction).value.tabs, {})
    ensures added in Ids(tabs) && source in Ids(tabs)
  {
    FinishSplitKeepsForest(tabs, {added}, source, added, direction);
    assert {added} - {added} == {};
  }

  lemma AttachKeepsIds(tabs: seq<Tab>, source: TabId, added: TabId, direction: Direction)
    requires Waiting(tabs, {added}, source, added) && added in Ids(tabs) && source in Ids(tabs)
    ensures FinishSplit(tabs, source, added, direction).Success?
    ensures Ids(FinishSplit(tabs, source, added, direction).value.tabs) == Ids(tabs)
  {
    FinishSplitIsGrown(tabs, {added}, source, added, direction);
    SameIds(tabs, FinishSplit(tabs, source, added, direction).value.tabs);
  }

  lemma AttachResult(tabs: seq<Tab>, source: TabId, added: TabId, direction: Direction)
    requires Waiting(tabs, {added}, source, added)
    ensures var done := FinishSplit(tabs, source, added, direction);
            done.Success? ==> Forest(done.value.tabs, {}) && Ids(done.value.tabs) == Ids(tabs) && added in Ids(tabs)
  {
    if FinishSplit(tabs, source, added, direction).Success? {
      AttachOnList(tabs, source, added, direction);
      AttachKeepsIds(tabs, source, added, direction);
    }
  }

  lemma AttachWithKeepsForest(m: Machine, done: Result<Attachment, LayoutError>)
    requires m.pending.Starting? && Forest(m.workspace.tabs, {m.pending.added})
    requires done.Success? ==>
               && Forest(done.value.tabs, {}) && Ids(done.value.tabs) == Ids(m.workspace.tabs)
               && m.pending.added in Ids(m.workspace.tabs)
    ensures var next := AttachWith(m, done);
            && ForestInv(next)
            && Ids(next.workspace.tabs) == Ids(m.workspace.tabs)
            && (next.pending.Focusing? ==> m.pending.added in Ids(m.workspace.tabs))
            && next.workspace.registry == m.workspace.registry
            && Loose(next.pending) == if next.pending.Focusing? then {} else {m.pending.added}
  {
  }

  lemma AttachKeepsForest(m: Machine)
    requires ForestInv(m) && m.pending.Starting?
    ensures var next := Attach(m);
            && ForestInv(next)
            && Ids(next.workspace.tabs) == Ids(m.workspace.tabs)
            && (next.pending.Focusing? ==> m.pending.added in Ids(m.workspace.tabs))
            && next.workspace.registry == m.workspace.registry
            && Loose(next.pending) == if next.pending.Focusing? then {} else {m.pending.added}
  {
    var p := m.pending;
    AttachResult(m.workspace.tabs, p.source, p.added, p.direction);
    AttachWithKeepsForest(m, FinishSplit(m.workspace.tabs, p.source, p.added, p.direction));
  }

  lemma RollBackKeepsForest(tabs: seq<Tab>, added: TabId)
    requires Forest(tabs, {added})
    ensures Forest(DropIds(tabs, {added}), {}) && Ids(DropIds(tabs, {added})) == Ids(tabs) - {added}
  {
    assert DropsWholeTrees(tabs, {added});
    DropKeepsForest(tabs, {added}, {added});
    assert {added} - {added} == {};
  }

  /** A pane that can be closed leaves the list and nothing else does. */
  lemma ClosePaneEffect(w: Workspace, root: TabId, pane: TabId)
    requires Forest(w.tabs, {})
    ensures Forest(ClosePane(w, root, pane).tabs, {})
    ensures ClosePane(w, root, pane) == w
            || (exists remaining ::
                  && Ids(ClosePane(w, root, pane).tabs) == Ids(w.tabs) - {pane}
                  && ClosePane(w, root, pane).registry == ClosePaneRegistry(w.registry, pane, remaining))
  {
    var i := RequestedRoot(w.tabs, root, pane);
    if i < |w.tabs| && pane in Leaves(w.tabs[i]) {
      assert TreeOk(w.tabs, i);
      RootIsRequested(w.tabs, {}, i, pane);
      RemoveSplitPaneKeepsForest(w.tabs, {}, w.tabs[i].id, pane);
      PaneCloses(w.tabs, i, pane);
    }
  }

  lemma PaneCloses(tabs: seq<Tab>, i: nat, pane: TabId)
    requires Forest(tabs, {}) && i < |tabs| && pane in Leaves(tabs[i])
    ensures RemoveSplitPane(tabs, tabs[i].id, pane).outcome.Success?
    ensures RemoveSplitPane(tabs, tabs[i].id, pane).outcome.value.remaining == Without(Leaves(tabs[i]), pane) != []
  {
    assert TreeOk(tabs, i);
    RootIsRequested(tabs, {}, i, pane);
    TreeWithoutLeaf(tabs, {}, i, pane);
    if pane == tabs[i].id {
      CloseRootPane(tabs, {}, i);
    }
  }

  lemma OrderAfterDrop(tabs: seq<Tab>, drop: set<TabId>, a: TabId, b: TabId)
    requires UniqueIds(tabs)
    requires a in Ids(tabs) && b in Ids(tabs) ==> IndexOfId(tabs, a) < IndexOfId(tabs, b)
    requires a in Ids(DropIds(tabs, drop)) && b in Ids(DropIds(tabs, drop))
    ensures IndexOfId(DropIds(tabs, drop), a) < IndexOfId(DropIds(tabs, drop), b)
  {
    var at := KeptAt(tabs, drop);
    KeptIndex(tabs, drop, at, a);
    KeptIndex(tabs, drop, at, b);
  }

  lemma KeptIndex(tabs: seq<Tab>, drop: set<TabId>, at: seq<nat>, id: TabId)
    requires UniqueIds(tabs) && KeepsAt(tabs, drop, DropIds(tabs, drop), at) && id in Ids(DropIds(tabs, drop))
    ensures id in Ids(tabs) && IndexOfId(DropIds(tabs, drop), id) < |at|
    ensures at[IndexOfId(DropIds(tabs, drop), id)] == IndexOfId(tabs, id)
  {
  }

  lemma CloseTabKeepsOrder(tabs: seq<Tab>, loose: set<TabId>, id: TabId, a: TabId, b: TabId)
    requires Forest(tabs, loose)
    requires a in Ids(tabs) && b in Ids(tabs) ==> IndexOfId(tabs, a) < IndexOfId(tabs, b)
    requires a in Ids(CloseTab(tabs, id)) && b in Ids(CloseTab(tabs, id))
    ensures IndexOfId(CloseTab(tabs, id), a) < IndexOfId(CloseTab(tabs, id), b)
  {
    if ClosesAsLeaf(tabs, id) {
      var r := IndexOfId(tabs, tabs[ContainingRoot(tabs, id)].id);
      var shrunk := tabs[r := tabs[r].(paneRoot := ClosedTree(tabs[r].paneRoot, id))];
      SameIndices(tabs, shrunk, a);
      SameIndices(tabs, shrunk, b);
      OrderAfterDrop(shrunk, {id}, a, b);
    } else {
      OrderAfterDrop(tabs, ToSet(IdsToClose(tabs, id)), a, b);
    }
  }

  lemma CloseTabKeepsWaiting(tabs: seq<Tab>, loose: set<TabId>, source: TabId, added: TabId, id: TabId)
    requires Waiting(tabs, loose, source, added)
    ensures Waiting(CloseTab(tabs, id), loose, source, added)
  {
    CloseTabKeepsForest(tabs, loose, id);
    if source in Ids(CloseTab(tabs, id)) && added in Ids(CloseTab(tabs, id)) {
      CloseTabKeepsOrder(tabs, loose, id, source, added);
    }
  }

  lemma CloseTabForestInv(m: Machine, id: TabId)
    requires ForestInv(m)
    ensures ForestInv(m.(workspace := CloseTabIn(m.workspace, id)))
  {
    CloseTabKeepsForest(m.workspace.tabs, Loose(m.pending), id);
    assert CloseTabIn(m.workspace, id).tabs == CloseTab(m.workspace.tabs, id);
    if m.pending.Starting? {
      CloseTabKeepsWaiting(m.workspace.tabs, Loose(m.pending), m.pending.source, m.pending.added, id);
    }
  }

  /** Edits of what the forest does not look at: a tab's visibility, or the shares
      of a tree that keeps its leaves. */
  ghost predicate SameForest(tabs: seq<Tab>, next: seq<Tab>) {
    && |tabs| == |next|
    && forall k :: 0 <= k < |tabs| ==>
         && next[k].id == tabs[k].id && next[k].paneRootTabId == tabs[k].paneRootTabId
         && next[k].paneRoot.Some? == tabs[k].paneRoot.Some?
         && Leaves(next[k]) == Leaves(tabs[k])
         && (tabs[k].paneRoot.Some? && WellShaped(tabs[k].paneRoot.value) ==> WellShaped(next[k].paneRoot.value))
  }

  lemma SameForestKeepsForest(tabs: seq<Tab>, next: seq<Tab>, loose: set<TabId>)
    requires Forest(tabs, loose) && SameForest(tabs, next)
    ensures Forest(next, loose)
  {
    SameIds(tabs, next);
    forall i | 0 <= i < |next| && next[i].paneRoot.Some? ensures TreeOk(next, i) {
      assert TreeOk(tabs, i);
      forall j | 0 <= j < |next| && j != i && next[j].id in Leaves(next[i]) ensures LeafOf(next, i, j) {
        assert LeafOf(tabs, i, j);
      }
    }
    forall j | 0 <= j < |next| && next[j].paneRootTabId.Some? && next[j].id !in loose ensures Attached(next, j) {
      assert Attached(tabs, j);
      var i :| 0 <= i < |tabs| && tabs[i].paneRoot.Some? && tabs[j].id in Leaves(tabs[i])
               && tabs[j].paneRootTabId == Some(tabs[i].id);
      assert next[j].id in Leaves(next[i]);
    }
  }

  lemma EditKeepsForest(m: Machine, w: Workspace)
    requires ForestInv(m) && SameForest(m.workspace.tabs, w.tabs)
    ensures ForestInv(m.(workspace := w))
    ensures Ids(w.tabs) == Ids(m.workspace.tabs)
  {
    SameForestKeepsForest(m.workspace.tabs, w.tabs, Loose(m.pending));
    SameIds(m.workspace.tabs, w.tabs);
    if m.pending.Starting? {
      SameIndices(m.workspace.tabs, w.tabs, m.pending.source);
      SameIndices(m.workspace.tabs, w.tabs, m.pending.added);
    }
  }

  lemma SetWeightsIsSameForest(w: Workspace, root: TabId, path: seq<nat>, weights: seq<real>)
    ensures SameForest(w.tabs, SetWeights(w, root, path, weights).tabs)
    ensures SetWeights(w, root, path, weights).registry == w.registry
    ensures forall k :: 0 <= k < |w.tabs| ==>
              SetWeights(w, root, path, weights).tabs[k].sessionType == w.tabs[k].sessionType
  {
    var k := IndexOfId(w.tabs, root);
    if k < |w.tabs| && w.tabs[k].paneRoot.Some? {
      var tree := w.tabs[k].paneRoot.value;
      if SetWeightsAtPath(tree, path, weights).Some? {
        SetWeightsKeepsLeaves(tree, path, weights);
      }
    }
  }

  lemma HiddenIsSameForest(tabs: seq<Tab>, i: nat, hidden: bool)
    requires i < |tabs|
    ensures SameForest(tabs, tabs[i := tabs[i].(isBackground := hidden)])
    ensures forall k :: 0 <= k < |tabs| ==> tabs[i := tabs[i].(isBackground := hidden)][k].sessionType == tabs[k].sessionType
  {
  }

  lemma EditIsSameForest(w: Workspace, c: Command)
    requires IsEdit(c)
    ensures SameForest(w.tabs, Edit(w, c).tabs)
    ensures Edit(w, c).registry == w.registry
    ensures forall k :: 0 <= k < |w.tabs| ==> Edit(w, c).tabs[k].sessionType == w.tabs[k].sessionType
  {
    match c
    case ActivateTab(_) =>
    case SetActivePane(_, _) =>
    case SetPaneWeights(root, path, weights) => SetWeightsIsSameForest(w, root, path, weights);
    case AttachBackgroundSession(id) =>
      if TopLevelIndex(w.tabs, id) < |w.tabs| {
        HiddenIsSameForest(w.tabs, TopLevelIndex(w.tabs, id), false);
      }
    case DetachSession(id) =>
      if TopLevelIndex(w.tabs, id) < |w.tabs| {
        HiddenIsSameForest(w.tabs, TopLevelIndex(w.tabs, id), true);
      }
  }

  lemma EditStep(m: Machine, c: Command)
    requires ForestInv(m) && IsEdit(c)
    ensures ForestInv(m.(workspace := Edit(m.workspace, c)))
    ensures Ids(Edit(m.workspace, c).tabs) == Ids(m.workspace.tabs)
    ensures Edit(m.workspace, c).registry == m.workspace.registry
  {
    EditIsSameForest(m.workspace, c);
    EditKeepsForest(m, Edit(m.workspace, c));
  }

  lemma StartKeepsForest(m: Machine, c: Command)
    requires ForestInv(m) && Enabled(m, c) && IsStartStep(c)
    ensures ForestInv(Next(m, c))
  {
    if c.OpenSession? {
      OpenKeepsForest(m, NewTab(c.tab, c.sessionType, c.isBackground, c.source, None), NextOfStart(m, c));
    }
  }

  lemma SplitKeepsForest(m: Machine, c: Command)
    requires ForestInv(m) && Enabled(m, c) && IsSplitStep(c)
    ensures ForestInv(Next(m, c))
  {
    match c
    case BeginSplit(source, added, _, profileType) =>
      var split := SplitTab(m.workspace, source, added, profileType);
      if split.Some? {
        BeginSplitKeepsForest(m.workspace.tabs, source, split.value);
      }
    case StartSplit(_, _) =>
    case AttachSplit => AttachKeepsForest(m);
    case FinishFocus =>
    case RollBack => RollBackKeepsForest(m.workspace.tabs, m.pending.added);
  }

  lemma StepKeepsForest(m: Machine, c: Command)
    requires ForestInv(m) && Enabled(m, c)
    ensures ForestInv(Next(m, c))
  {
    if IsSplitStep(c) {
      SplitKeepsForest(m, c);
    } else if IsStartStep(c) {
      StartKeepsForest(m, c);
    } else if IsEdit(c) {
      EditStep(m, c);
    } else {
      match c
      case Disconnect(_) =>
      case ClosePaneOf(root, pane) => ClosePaneEffect(m.workspace, root, pane);
      case CloseTabOf(id) => CloseTabForestInv(m, id);
    }
  }

  // ----- each command keeps the registries in step

  lemma ClosedResourcesAreAll(r: Resource)
    ensures r in CLOSED_RESOURCES || r == RemoteForwards
  {
  }

  lemma ClosePaneKeepsRegistry(m: Machine, root: TabId, pane: TabId)
    requires Inv(m) && m.pending.Free?
    ensures RegistryInv(m.(workspace := ClosePane(m.workspace, root, pane)))
  {
    var w := m.workspace;
    ClosePaneEffect(w, root, pane);
    if ClosePane(w, root, pane) != w {
      var remaining :| Ids(ClosePane(w, root, pane).tabs) == Ids(w.tabs) - {pane}
                       && ClosePane(w, root, pane).registry == ClosePaneRegistry(w.registry, pane, remaining);
    }
  }

  lemma CloseTabKeepsRegistry(m: Machine, id: TabId)
    requires Inv(m)
    ensures RegistryInv(m.(workspace := CloseTabIn(m.workspace, id)))
  {
    CloseTabKeepsForest(m.workspace.tabs, Loose(m.pending), id);
  }

  lemma RollBackKeepsRegistry(m: Machine)
    requires Inv(m) && m.pending.RollingBack?
    ensures RegistryInv(Next(m, RollBack))
  {
    RollBackKeepsForest(m.workspace.tabs, m.pending.added);
  }

  lemma StartKeepsRegistry(m: Machine, c: Command)
    requires Inv(m) && Enabled(m, c) && IsStartStep(c)
    ensures RegistryInv(Next(m, c))
  {
    if c.OpenSession? {
      IndexAfterPush(m.workspace.tabs, NewTab(c.tab, c.sessionType, c.isBackground, c.source, None), c.tab);
    }
  }

  lemma SplitKeepsRegistry(m: Machine, c: Command)
    requires Inv(m) && Enabled(m, c) && IsSplitStep(c)
    ensures RegistryInv(Next(m, c))
  {
    match c
    case BeginSplit(source, added, _, profileType) =>
      var split := SplitTab(m.workspace, source, added, profileType);
      if split.Some? {
        IndexAfterPush(m.workspace.tabs, split.value, added);
      }
    case StartSplit(_, _) =>
    case AttachSplit => AttachKeepsForest(m);
    case FinishFocus =>
    case RollBack => RollBackKeepsRegistry(m);
  }

  lemma StepKeepsRegistry(m: Machine, c: Command)
    requires Inv(m) && Enabled(m, c)
    ensures RegistryInv(Next(m, c))
  {
    if IsSplitStep(c) {
      SplitKeepsRegistry(m, c);
    } else if IsStartStep(c) {
      StartKeepsRegistry(m, c);
    } else if IsEdit(c) {
      EditStep(m, c);
    } else {
      match c
      case Disconnect(_) =>
      case ClosePaneOf(root, pane) => ClosePaneKeepsRegistry(m, root, pane);
      case CloseTabOf(id) => CloseTabKeepsRegistry(m, id);
    }
  }

  // ----- every run

  /** Over every run of the commands, whatever runs between the steps of a split or
      of a start, the tab list is a forest and a session is kept for its tabs. */
  lemma {:induction false} EveryRunKeepsTheForest(m: Machine, run: seq<Command>)
    requires Inv(m) && Runnable(m, run)
    ensures Inv(After(m, run))
    decreases run
  {
    if run != [] {
      StepKeepsForest(m, run[0]);
      StepKeepsRegistry(m, run[0]);
      EveryRunKeepsTheForest(Next(m, run[0]), run[1..]);
    }
  }

  lemma TheEmptyWorkspaceIsAForest()
    ensures Inv(EMPTY)
  {
  }
}
