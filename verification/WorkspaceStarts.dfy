/** Starting a session while other commands run. The tab is listed first and the
    registries are filled afterwards, so a close that lands in between finds
    nothing to take out yet, and what is entered later outlives the tab. */
module WorkspaceStarts {
  import opened Wrappers
  import opened Sequences
  import opened Panes
  import opened TabForest
  import opened TabLayout
  import opened WorkspaceRuns

  // ----- a start nothing interrupts

  lemma InsertOne(r: Registry, id: TabId, entry: Entry, rest: seq<Entry>)
    ensures InsertAll(r, id, [entry] + rest) == InsertAll(Insert(r, id, entry), id, rest)
  {
    assert ([entry] + rest)[1..] == rest;
  }

  lemma {:induction false} InsertAppended(r: Registry, id: TabId, a: seq<Entry>, b: seq<Entry>)
    ensures InsertAll(r, id, a + b) == InsertAll(InsertAll(r, id, a), id, b)
    decreases a
  {
    if a == [] {
      assert a + b == b;
    } else {
      assert a + b == [a[0]] + (a[1..] + b);
      InsertOne(r, id, a[0], a[1..] + b);
      InsertAppended(Insert(r, id, a[0]), id, a[1..], b);
    }
  }

  lemma InsertSingle(r: Registry, id: TabId, entry: Entry)
    ensures InsertAll(r, id, [entry]) == Insert(r, id, entry)
  {
    assert [entry] == [entry] + [];
    InsertOne(r, id, entry, []);
  }

  lemma ShellEntries(r: Registry, id: TabId)
    ensures InsertAll(r, id, Script(LocalShell(true)))
            == r.(launches := r.launches + {id}, held := HoldAll(r.held, SHELL_RESOURCES, id))
  {
    var script := [Hold(Worker), Hold(TerminalInput), Hold(WorkerControl), Hold(RuntimeId), Hold(RuntimeGate), RememberLaunch];
    assert Script(LocalShell(true)) == script;
    InsertOne(r, id, Hold(Worker), script[1..]);
  }

  lemma HeldInOrder(held: set<(Resource, TabId)>, id: TabId, resources: set<Resource>, last: Resource)
    ensures HoldAll(held, resources, id) + {(last, id)} == HoldAll(held, resources + {last}, id)
    ensures last !in resources ==>
              Release(HoldAll(held, resources, id), {last}, {id}) == HoldAll(Release(held, {last}, {id}), resources, id)
  {
  }

  lemma RemoteEntries(r: Registry, id: TabId, interactive: bool)
    ensures InsertAll(r, id, Script(Remote(interactive, false))) == StartWorker(r, id, Remote(interactive, false))
  {
    var resources := {Worker, WorkerControl} + if interactive then {TerminalInput} else {};
    var typed := if interactive then [Hold(TerminalInput)] else [];
    var r1 := Insert(r, id, Hold(Worker));
    var r2 := InsertAll(r1, id, typed);
    var r3 := Insert(r2, id, Hold(WorkerControl));
    assert Script(Remote(interactive, false)) == [Hold(Worker)] + (typed + ([Hold(WorkerControl)] + [Drop({LogWriter})]));
    InsertOne(r, id, Hold(Worker), typed + ([Hold(WorkerControl)] + [Drop({LogWriter})]));
    InsertAppended(r1, id, typed, [Hold(WorkerControl)] + [Drop({LogWriter})]);
    InsertOne(r2, id, Hold(WorkerControl), [Drop({LogWriter})]);
    InsertSingle(r3, id, Drop({LogWriter}));
    if interactive {
      InsertSingle(r1, id, Hold(TerminalInput));
    }
    assert r3.held == HoldAll(r.held, resources, id);
    HeldInOrder(r.held, id, resources, LogWriter);
  }

  /** The entries of a start, made one after the other, leave what `StartWorker`
      says. */
  lemma ScriptStarts(r: Registry, id: TabId, launch: Launch)
    ensures InsertAll(r, id, Script(launch)) == StartWorker(r, id, launch)
  {
    match launch
    case LocalShell(started) =>
      ShellEntries(r, id);
      if !started {
        InsertAppended(r, id, Script(LocalShell(true)), [Drop(SHELL_RESOURCES)]);
        assert Script(LocalShell(true)) + [Drop(SHELL_RESOURCES)] == Script(LocalShell(false));
        InsertSingle(InsertAll(r, id, Script(LocalShell(true))), id, Drop(SHELL_RESOURCES));
      }
    case Remote(interactive, logged) =>
      RemoteEntries(r, id, interactive);
      if logged {
        var before := Script(Remote(interactive, false));
        InsertAppended(r, id, before, [Hold(LogWriter)]);
        assert before + [Hold(LogWriter)] == Script(launch);
        InsertSingle(InsertAll(r, id, before), id, Hold(LogWriter));
        HeldInOrder(Release(r.held, {LogWriter}, {id}), id,
                    {Worker, WorkerControl} + (if interactive then {TerminalInput} else {}), LogWriter);
      }
  }

  function Steps(key: nat, n: nat): (run: seq<Command>)
    ensures |run| == n
  {
    if n == 0 then [] else [StartNext(key)] + Steps(key, n - 1)
  }

  /** Taking all the steps of a start makes all its entries and ends it. */
  lemma {:induction false} StepsFinishAStart(m: Machine, key: nat)
    requires key in m.starts && m.starts[key].script != []
    ensures var start := m.starts[key]; var run := Steps(key, |start.script|);
            && Runnable(m, run)
            && After(m, run) == m.(workspace := m.workspace.(registry := InsertAll(m.workspace.registry, start.id, start.script)),
                                   starts := m.starts - {key})
    decreases |m.starts[key].script|
  {
    var start := m.starts[key];
    var next := Next(m, StartNext(key));
    assert Steps(key, |start.script|)[1..] == Steps(key, |start.script| - 1);
    if |start.script| > 1 {
      StepsFinishAStart(next, key);
      assert next.starts - {key} == m.starts - {key};
    }
  }

  lemma {:induction false} RunOn(m: Machine, a: seq<Command>, b: seq<Command>)
    ensures After(m, a + b) == After(After(m, a), b)
    ensures Runnable(m, a + b) <==> Runnable(m, a) && Runnable(After(m, a), b)
    decreases a
  {
    if a == [] {
      assert a + b == b;
    } else {
      assert (a + b)[1..] == a[1..] + b;
      RunOn(Next(m, a[0]), a[1..], b);
    }
  }

  /** Opening and starting with nothing in between is `Open`. */
  lemma AnUninterruptedOpen(m: Machine, c: Command)
    requires c.OpenSession? && Enabled(m, c)
    ensures var launch := LaunchOf(c.sessionType, c.started, c.logged);
            var run := [c] + Steps(c.key, |Script(launch)|);
            && Runnable(m, run)
            && After(m, run)
               == m.(workspace := Open(m.workspace, NewTab(c.tab, c.sessionType, c.isBackground, c.source, None), launch))
  {
    var launch := LaunchOf(c.sessionType, c.started, c.logged);
    var next := Next(m, c);
    StepsFinishAStart(next, c.key);
    ScriptStarts(next.workspace.registry, c.tab, launch);
    assert next.starts - {c.key} == m.starts;
    assert ([c] + Steps(c.key, |Script(launch)|))[1..] == Steps(c.key, |Script(launch)|);
  }

  // ----- resources that outlive their tab

  /** The tabs in the list, and the pane of a split under way, which its split takes
      out when it cannot attach it. */
  ghost function Listed(m: Machine): set<TabId> {
    Ids(m.workspace.tabs) + Loose(m.pending)
  }

  /** Remote forwards are left to the session's worker. */
  ghost predicate Holds(r: Registry, id: TabId) {
    exists resource :: resource != RemoteForwards && (resource, id) in r.held
  }

  ghost predicate Outlives(m: Machine, id: TabId) {
    id !in Listed(m) && Holds(m.workspace.registry, id)
  }

  /** The step enters a resource for a tab that is not listed any more. */
  ghost predicate EntersLate(m: Machine, c: Command, id: TabId) {
    && c.StartNext? && c.startKey in m.starts
    && m.starts[c.startKey].id == id && id !in Listed(m)
    && m.starts[c.startKey].script != []
    && m.starts[c.startKey].script[0].Hold? && m.starts[c.startKey].script[0].resource != RemoteForwards
  }

  /** The step gives the id no resource, and takes out what it held when it drops it
      from the list. */
  ghost predicate Clean(m: Machine, next: Machine, id: TabId) {
    && (Holds(next.workspace.registry, id) ==> Holds(m.workspace.registry, id))
    && (id in Listed(m) && id !in Listed(next) ==> !Holds(next.workspace.registry, id))
  }

  lemma ReleasedHolds(r: Registry, after: Registry, resources: set<Resource>, ids: set<TabId>, id: TabId)
    requires after.held == Release(r.held, resources, ids)
    ensures Holds(after, id) ==> Holds(r, id)
    ensures CLOSED_RESOURCES <= resources && id in ids ==> !Holds(after, id)
  {
    forall resource | resource != RemoteForwards && (resource, id) in after.held
      ensures (resource, id) in r.held && !(CLOSED_RESOURCES <= resources && id in ids)
    {
      ClosedResourcesAreAll(resource);
    }
  }

  lemma CloseTabIsClean(m: Machine, closed: TabId, id: TabId)
    requires Inv(m)
    ensures Clean(m, m.(workspace := CloseTabIn(m.workspace, closed)), id)
  {
    var w := m.workspace;
    var ids := if ClosesAsLeaf(w.tabs, closed) then {closed} else ToSet(IdsToClose(w.tabs, closed));
    CloseTabKeepsForest(w.tabs, Loose(m.pending), closed);
    ReleasedHolds(w.registry, CloseTabIn(w, closed).registry, CLOSED_RESOURCES, ids, id);
  }

  lemma ClosePaneIsClean(m: Machine, root: TabId, pane: TabId, id: TabId)
    requires Inv(m) && m.pending.Free?
    ensures Clean(m, m.(workspace := ClosePane(m.workspace, root, pane)), id)
  {
    var w := m.workspace;
    ClosePaneEffect(w, root, pane);
    if ClosePane(w, root, pane) != w {
      var remaining :| Ids(ClosePane(w, root, pane).tabs) == Ids(w.tabs) - {pane}
                       && ClosePane(w, root, pane).registry == ClosePaneRegistry(w.registry, pane, remaining);
      ReleasedHolds(w.registry, ClosePane(w, root, pane).registry, CLOSED_RESOURCES, {pane}, id);
    }
  }

  lemma StartSplitHolds(m: Machine, c: Command, id: TabId)
    requires m.pending.Starting? && c.StartSplit? && id != m.pending.added
    ensures Holds(Next(m, c).workspace.registry, id) == Holds(m.workspace.registry, id)
  {
    var r, after := m.workspace.registry, Next(m, c).workspace.registry;
    forall resource ensures (resource, id) in after.held <==> (resource, id) in r.held {
    }
  }

  lemma BeginSplitIsClean(m: Machine, c: Command, id: TabId)
    requires Enabled(m, c) && c.BeginSplit? && !Outlives(m, id)
    ensures !Outlives(Next(m, c), id)
  {
    var split := SplitTab(m.workspace, c.splitSource, c.added, c.profileType);
    if split.Some? {
      IndexAfterPush(m.workspace.tabs, split.value, c.added);
    }
  }

  lemma RollBackIsClean(m: Machine, id: TabId)
    requires Inv(m) && m.pending.RollingBack? && !Outlives(m, id)
    ensures !Outlives(Next(m, RollBack), id)
  {
    var w, added := m.workspace, m.pending.added;
    RollBackKeepsForest(w.tabs, added);
    ReleasedHolds(w.registry, RollBackRegistry(w.registry, added), CLOSED_RESOURCES + {RemoteForwards}, {added}, id);
  }

  lemma SplitStepIsClean(m: Machine, c: Command, id: TabId)
    requires Inv(m) && Enabled(m, c) && IsSplitStep(c)
    requires !Outlives(m, id)
    ensures !Outlives(Next(m, c), id)
  {
    match c
    case BeginSplit(_, _, _, _) => BeginSplitIsClean(m, c, id);
    case StartSplit(_, _) =>
      if id != m.pending.added {
        StartSplitHolds(m, c, id);
      }
    case AttachSplit => AttachKeepsForest(m);
    case FinishFocus =>
    case RollBack => RollBackIsClean(m, id);
  }

  lemma EntryHolds(r: Registry, start: TabId, entry: Entry, id: TabId)
    ensures entry.Hold? && entry.resource != RemoteForwards && start == id ==> Holds(Insert(r, start, entry), id)
    ensures !(entry.Hold? && entry.resource != RemoteForwards && start == id) ==>
              Holds(Insert(r, start, entry), id) ==> Holds(r, id)
  {
    var after := Insert(r, start, entry);
    if entry.Hold? && entry.resource != RemoteForwards && start == id {
      assert (entry.resource, id) in after.held;
    }
  }

  lemma StartStepOutlivesIff(m: Machine, c: Command, id: TabId)
    requires Inv(m) && Enabled(m, c) && IsStartStep(c)
    requires !Outlives(m, id)
    ensures Outlives(Next(m, c), id) <==> EntersLate(m, c, id)
  {
    var w := m.workspace;
    match c
    case OpenSession(_, tab, sessionType, isBackground, source, _, _) =>
      IndexAfterPush(w.tabs, NewTab(tab, sessionType, isBackground, source, None), tab);
    case Reconnect(_, reconnected, _, _, _) =>
      if Relaunch(w.tabs, c).Some? {
        ReleasedHolds(w.registry, Next(m, c).workspace.registry, WORKER_RESOURCES, {reconnected}, id);
      }
    case StartNext(key) =>
      var start := m.starts[key];
      if start.script != [] {
        EntryHolds(w.registry, start.id, start.script[0], id);
      }
  }

  /** A tab's resources come to outlive it exactly in the step that enters one after
      the tab has left the list, and never in a step that closes tabs. */
  lemma OutlivesIff(m: Machine, c: Command, id: TabId)
    requires Inv(m) && Enabled(m, c)
    requires !Outlives(m, id)
    ensures Outlives(Next(m, c), id) <==> EntersLate(m, c, id)
  {
    if IsSplitStep(c) {
      SplitStepIsClean(m, c, id);
    } else if IsStartStep(c) {
      StartStepOutlivesIff(m, c, id);
    } else if IsEdit(c) {
      EditStep(m, c);
    } else {
      match c
      case Disconnect(disconnected) => DisconnectIsClean(m, disconnected, id);
      case ClosePaneOf(root, pane) => ClosePaneIsClean(m, root, pane, id);
      case CloseTabOf(closed) => CloseTabIsClean(m, closed, id);
    }
  }

  lemma DisconnectIsClean(m: Machine, disconnected: TabId, id: TabId)
    ensures Clean(m, m.(workspace := DisconnectIn(m.workspace, disconnected)), id)
  {
    var r, after := m.workspace.registry, DisconnectIn(m.workspace, disconnected).registry;
    forall resource | resource != RemoteForwards && (resource, id) in after.held ensures (resource, id) in r.held {
    }
  }

  // ----- over a run

  /** Some state of the run has a resource held for the id after its tab. */
  ghost predicate EverOutlives(m: Machine, run: seq<Command>, id: TabId)
    decreases run
  {
    Outlives(m, id) || (run != [] && EverOutlives(Next(m, run[0]), run[1..], id))
  }

  ghost predicate EverEntersLate(m: Machine, run: seq<Command>, id: TabId)
    decreases run
  {
    run != [] && (EntersLate(m, run[0], id) || EverEntersLate(Next(m, run[0]), run[1..], id))
  }

  /** Over every run, resources are held for tabs in the list only, exactly as long
      as no start enters one for a tab that was closed under it. */
  lemma {:induction false} ResourcesStayWithinTheListIff(m: Machine, run: seq<Command>, id: TabId)
    requires Inv(m) && Runnable(m, run) && !Outlives(m, id)
    ensures EverOutlives(m, run, id) <==> EverEntersLate(m, run, id)
    decreases run
  {
    if run != [] {
      OutlivesIff(m, run[0], id);
      if !EntersLate(m, run[0], id) {
        StepKeepsForest(m, run[0]);
        StepKeepsRegistry(m, run[0]);
        ResourcesStayWithinTheListIff(Next(m, run[0]), run[1..], id);
      }
    }
  }

  // ----- when the tab of a start is closed

  /** The start is under way in every state of the run. */
  ghost predicate UnderWay(m: Machine, run: seq<Command>, key: nat, id: TabId)
    decreases run
  {
    && key in m.starts && m.starts[key].id == id
    && (run != [] ==> UnderWay(Next(m, run[0]), run[1..], key, id))
  }

  /** The step is a close of the tab: of itself, of its whole split, of the pane, or
      the roll back of the split that added it. */
  ghost predicate Closes(m: Machine, c: Command, id: TabId) {
    match c
    case CloseTabOf(closed) =>
      closed == id || (!ClosesAsLeaf(m.workspace.tabs, closed) && id in IdsToClose(m.workspace.tabs, closed))
    case ClosePaneOf(_, pane) => pane == id
    case RollBack => m.pending.RollingBack? && m.pending.added == id
    case _ => false
  }

  /** A step of the run that closes the tab and takes it out of the list. */
  ghost predicate ClosedIn(m: Machine, run: seq<Command>, id: TabId)
    decreases run
  {
    run != [] &&
    ((Closes(m, run[0], id) && id in Ids(m.workspace.tabs) && id !in Ids(Next(m, run[0]).workspace.tabs))
     || ClosedIn(Next(m, run[0]), run[1..], id))
  }

  lemma BeginSplitKeepsListed(m: Machine, c: Command, id: TabId)
    requires Enabled(m, c) && c.BeginSplit? && IsStarting(m, id)
    ensures id in Ids(Next(m, c).workspace.tabs) <==> id in Ids(m.workspace.tabs)
  {
    var split := SplitTab(m.workspace, c.splitSource, c.added, c.profileType);
    assert id != c.added;
    if split.Some? {
      IndexAfterPush(m.workspace.tabs, split.value, c.added);
    }
  }

  lemma SplitStepKeepsListed(m: Machine, c: Command, id: TabId)
    requires Inv(m) && Enabled(m, c) && IsSplitStep(c) && IsStarting(m, id)
    ensures id in Ids(Next(m, c).workspace.tabs) ==> id in Ids(m.workspace.tabs)
    ensures id in Ids(m.workspace.tabs) && id !in Ids(Next(m, c).workspace.tabs) ==> Closes(m, c, id)
  {
    match c
    case BeginSplit(_, _, _, _) => BeginSplitKeepsListed(m, c, id);
    case StartSplit(_, _) =>
    case AttachSplit => AttachKeepsForest(m);
    case FinishFocus =>
    case RollBack => RollBackKeepsForest(m.workspace.tabs, m.pending.added);
  }

  lemma StartStepKeepsListed(m: Machine, c: Command, id: TabId)
    requires Enabled(m, c) && IsStartStep(c) && IsStarting(m, id)
    ensures id in Ids(Next(m, c).workspace.tabs) <==> id in Ids(m.workspace.tabs)
  {
    if c.OpenSession? {
      IndexAfterPush(m.workspace.tabs, NewTab(c.tab, c.sessionType, c.isBackground, c.source, None), c.tab);
    }
  }

  lemma ClosePaneKeepsListed(m: Machine, c: Command, id: TabId)
    requires Inv(m) && Enabled(m, c) && c.ClosePaneOf?
    ensures id in Ids(Next(m, c).workspace.tabs) ==> id in Ids(m.workspace.tabs)
    ensures id in Ids(m.workspace.tabs) && id !in Ids(Next(m, c).workspace.tabs) ==> Closes(m, c, id)
  {
    ClosePaneEffect(m.workspace, c.rootTabId, c.pane);
    assert Next(m, c).workspace == ClosePane(m.workspace, c.rootTabId, c.pane);
  }

  lemma CloseTabKeepsListed(m: Machine, c: Command, id: TabId)
    requires Inv(m) && c.CloseTabOf?
    ensures id in Ids(Next(m, c).workspace.tabs) ==> id in Ids(m.workspace.tabs)
    ensures id in Ids(m.workspace.tabs) && id !in Ids(Next(m, c).workspace.tabs) ==> Closes(m, c, id)
  {
    CloseTabKeepsForest(m.workspace.tabs, Loose(m.pending), c.closed);
    assert Next(m, c).workspace == CloseTabIn(m.workspace, c.closed);
  }

  /** While its start is under way a tab is never listed again, and it leaves the
      list only by a close. */
  lemma ListedUntilClosed(m: Machine, c: Command, id: TabId)
    requires Inv(m) && Enabled(m, c) && IsStarting(m, id)
    ensures id in Ids(Next(m, c).workspace.tabs) ==> id in Ids(m.workspace.tabs)
    ensures id in Ids(m.workspace.tabs) && id !in Ids(Next(m, c).workspace.tabs) ==> Closes(m, c, id)
  {
    if IsSplitStep(c) {
      SplitStepKeepsListed(m, c, id);
    } else if IsStartStep(c) {
      StartStepKeepsListed(m, c, id);
    } else if IsEdit(c) {
      EditStep(m, c);
    } else if c.ClosePaneOf? {
      ClosePaneKeepsListed(m, c, id);
    } else if c.CloseTabOf? {
      CloseTabKeepsListed(m, c, id);
    }
  }

  lemma {:induction false} ClosedInIff(m: Machine, run: seq<Command>, key: nat, id: TabId)
    requires Inv(m) && Runnable(m, run) && UnderWay(m, run, key, id)
    ensures Inv(After(m, run))
    ensures key in After(m, run).starts && After(m, run).starts[key].id == id
    ensures id in Ids(After(m, run).workspace.tabs) <==> id in Ids(m.workspace.tabs) && !ClosedIn(m, run, id)
    ensures id !in Ids(m.workspace.tabs) ==> !ClosedIn(m, run, id)
    decreases run
  {
    if run != [] {
      StepKeepsForest(m, run[0]);
      StepKeepsRegistry(m, run[0]);
      ListedUntilClosed(m, run[0], id);
      ClosedInIff(Next(m, run[0]), run[1..], key, id);
    }
  }

  /** A start lists nothing itself: take a listed tab whose start stays under way for
      a run and then enters a resource. That resource outlives the tab exactly when
      the tab was closed in the run, unless it is the pane of a split still under
      way, which the split will take out. */
  lemma ResourcesOutliveATabIff(m: Machine, run: seq<Command>, key: nat, id: TabId)
    requires Inv(m) && Runnable(m, run) && UnderWay(m, run, key, id) && id in Ids(m.workspace.tabs)
    requires var before := After(m, run);
             && key in before.starts && before.starts[key].script != []
             && before.starts[key].script[0].Hold? && before.starts[key].script[0].resource != RemoteForwards
    ensures var before := After(m, run);
            && Enabled(before, StartNext(key))
            && (Outlives(Next(before, StartNext(key)), id) <==> ClosedIn(m, run, id) && id !in Loose(before.pending))
  {
    var before := After(m, run);
    ClosedInIff(m, run, key, id);
    var start := before.starts[key];
    EntryHolds(before.workspace.registry, id, start.script[0], id);
  }

  /** Such a run exists: close a tab that has just been opened, and its worker is
      registered all the same. */
  lemma AClosedTabKeepsItsWorker()
    ensures var run := [OpenSession(0, "s", "ssh", false, None, true, false)] + ([CloseTabOf("s")] + ([StartNext(0)] + []));
            var m := After(EMPTY, run);
            && Runnable(EMPTY, run)
            && m.workspace.tabs == [] && m.pending == Free
            && (Worker, "s") in m.workspace.registry.held && Outlives(m, "s")
  {
    var opening := OpenSession(0, "s", "ssh", false, None, true, false);
    var m1 := Next(EMPTY, opening);
    var m2 := Next(m1, CloseTabOf("s"));
    var m3 := Next(m2, StartNext(0));
    OpenedAlone(m1);
    ClosedAlone(m1, m2);
    assert m3.workspace.registry.held == m2.workspace.registry.held + {(Worker, "s")};
    RunOn(EMPTY, [opening], [CloseTabOf("s")] + ([StartNext(0)] + []));
    RunOn(m1, [CloseTabOf("s")], [StartNext(0)] + []);
    RunOn(m2, [StartNext(0)], []);
  }

  lemma OpenedAlone(m: Machine)
    requires m == Next(EMPTY, OpenSession(0, "s", "ssh", false, None, true, false))
    ensures Enabled(EMPTY, OpenSession(0, "s", "ssh", false, None, true, false))
    ensures m.workspace.tabs == [NewTab("s", "ssh", false, None, None)] && m.pending == Free
    ensures 0 in m.starts && m.starts[0].id == "s"
    ensures m.starts[0].script != [] && m.starts[0].script[0] == Hold(Worker)
  {
  }

  lemma ClosedAlone(m: Machine, closed: Machine)
    requires m.workspace.tabs == [NewTab("s", "ssh", false, None, None)]
    requires closed == Next(m, CloseTabOf("s"))
    ensures closed.workspace.tabs == [] && closed.pending == m.pending && closed.starts == m.starts
  {
    var tabs := m.workspace.tabs;
    NewTabIsNoLeafAlone(tabs[0]);
    assert ToSet(["s"]) == {"s"};
    assert tabs[..0] == [];
    assert DropIds(tabs, {"s"}) == DropIds([], {"s"});
  }

  lemma NewTabIsNoLeafAlone(tab: Tab)
    requires tab.paneRoot.None?
    ensures !ClosesAsLeaf([tab], tab.id) && IdsToClose([tab], tab.id) == [tab.id]
  {
    assert IndexOfId([tab], tab.id) == 0;
  }
}
