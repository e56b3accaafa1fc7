# FileTerm workspace model

FileTerm is a desktop terminal: a window of tabs, some of them split into panes,
each pane backed by its own session and worker. This project models what keeps
that workspace together and proves it, for every input, every run and every
interleaving.

Three groups of modules:

- The workspace. `Panes` is the pane tree of a split tab, `TabForest` says when the
  one list of tabs is a forest of such trees, `TabLayout` has the two operations that
  change it, `WorkspaceRuns` lets the commands run interleaved, with opening,
  reconnecting and splitting in their separate steps, and `WorkspaceTheorems` and
  `WorkspaceFocus` state what follows. `WorkspaceStarts` is about sessions that start
  while other commands run. `WorkspaceClosing` takes the closes of tabs and panes in
  their steps, `WorkspaceStale` says exactly when one goes stale, `WorkspaceCloseRuns`
  and `WorkspacePromotion` have the runs.
  `WorkspaceState` is the same workspace as one object edited in place, each method
  proved to leave what the functions say.
- The protocols on it. `ExactInput` is approved terminal input against reconnect,
  `LockOrder` the nesting of locks, `SnapshotRevisions` the snapshots a renderer gets,
  `EditorClose` the closing of editors and the quit gate, `AiChatBridge` the chat
  requests of a page, `TerminalChannel` the stream of terminal data and its retries,
  `SerialSlot` the one transfer of a serial session.
- Self-contained algorithms. `FolderForest` (connection folders), `ThemeNormal` and
  `UiPreferences` (preferences as a fixpoint), `Bookmarks`, `CommandTemplate`,
  `ShellQuote`, `Transcript` and `MetricsHistory`. `Text`, `Sequences` and `Wrappers`
  hold what they share.

A state machine is a datatype of states, a datatype of commands, a predicate that
says when a command can take its next step and a function for the step; its theorems
are about every run. Where the program edits something in place, a class with the
same fields has methods proved against the functions the theorems are about.

Some promises turned out to hold under a condition only. Each has its exact
condition and, where it fails, a run or an input that shows it:

- a tab closed while its session starts, or restarts, is outlived by what the start
  still enters (`ResourcesOutliveATabIff`, `ResourcesOutliveACloseIff`,
  `AClosedTabKeepsItsWorker`);
- a tab closed while a split attaches to it, or promoted between the two reads of
  closing it, leaves panes below a root that is gone (`EveryRunStaysInOrderIff`,
  `GoesStaleIff`, `ASplitOutlivesItsRoot`, `APromotedPaneOutlivesItsRoot`);
- a rolled-back split can leave the active tab naming the pane it removed; which
  steps bring that about is stated for every run (`FocusOnTheNewPaneIff`,
  `FocusOutlivesAPaneIff`), one such run is reached from the empty workspace
  (`FocusOutlivesARolledBackPaneIff`, `ASplitOfTheOnlyTab`);
- a split tree can mix session types after its saved profile was edited
  (`AttachIsUniformIff`, `AnEditedProfileMixesTypes`);
- closing a pane keeps the launch settings of a local shell that closing its tab
  forgets (`ClosingAPaneEitherWay`);
- approved input can reach a replacement worker when the revision is saturated, or
  when it is approved while a second reconnect stands between its bump and its
  install, and in no other case (`ApprovalHoldsIff`); a disconnect inside a reconnect
  lets that second one in (`ADisconnectInsideAReconnectBreaksIt`);
- moving a folder under itself is not refused (`MovingKeepsAcyclicIff`);
- a theme can take three passes to settle (`TwoPassesAreEnoughIff`,
  `ThreePassesAreNeeded`);
- a path with a typographic apostrophe is not read back by PowerShell
  (`PowerShellRoundTripIff`);
- a history limit of zero keeps everything (`LimitHoldsIff`).

The comment of `mergeSystemMetricsHistory` speaks of partial refreshes; the code also
keeps old rows when a refresh reports that there are none. The comment at the
transcript cap counts characters, the code bytes. The model follows the code.

## Model

| member | source | states |
|---|---|---|
| Panes.NormalizedWeightsAddUpToOne | apps/tauri/src-tauri/src/services/workspace/model.rs:209-224 | Whatever shares a split has, normalising makes them add up to one; shares that already do stay as they are. |
| Panes.ReplaceLeafLeaves | apps/tauri/src-tauri/src/services/workspace/model.rs:117-133 | Replacing succeeds exactly on a listed leaf, changes the leaf order at that one place and keeps the tree well shaped. |
| Panes.RemoveLeafLeaves | apps/tauri/src-tauri/src/services/workspace/model.rs:140-181 | Removing finds exactly the listed leaves, drops that one, keeps the order of the others, collapses splits of one child and keeps the shares normalised. |
| Panes.CloseUndoesSplit | apps/tauri/src-tauri/src/services/workspace/model.rs:117-181 | Removing the leaf a split has just added gives back the same tree: shape, directions and shares. |
| Panes.SetWeightsKeepsLeaves | apps/tauri/src-tauri/src/services/workspace/model.rs:184-206 | New shares at a path change no leaf and leave a well shaped tree. |
| TabLayout.FinishSplitKeepsForest | apps/tauri/src-tauri/src/commands/session_spawn.rs:479-575 | A split whose source and new tab are listed always attaches: the host tree shows the new leaf right after the source and the list is a forest again; otherwise it is refused. |
| TabLayout.HostIsTopLevel | apps/tauri/src-tauri/src/commands/session_spawn.rs:494-574 | The tab that takes the pane is a top-level tab that shows the source, at or before it in the list. |
| TabForest.TreesAreDisjoint | apps/tauri/src-tauri/src/commands/tab_layout.rs:250-334 | In a forest the trees of different tabs share no leaf. |
| TabLayout.CloseChildPane | apps/tauri/src-tauri/src/commands/tab_layout.rs:281-294 | Closing a leaf that is not its root's own drops that leaf and that tab only; the top-level tabs do not change. |
| TabLayout.CloseRootPane | apps/tauri/src-tauri/src/commands/tab_layout.rs:296-333 | Closing the root's own pane puts the first surviving leaf exactly where the root stood, points every other leaf at it, and renames that one entry of the top-level tabs. |
| TabLayout.PromoteIsSwapAndDrop | apps/tauri/src-tauri/src/commands/tab_layout.rs:305-333 | Taking out root and survivor and inserting the survivor at the root's index is the same as exchanging the two and dropping the root. |
| TabLayout.RemoveSplitPaneKeepsForest | apps/tauri/src-tauri/src/commands/tab_layout.rs:250-334 | Whatever root and pane are asked for: the list stays a forest, a refusal changes nothing, a success removes exactly that pane's tab. |
| TabLayout.LeafPathIsForChildren | apps/tauri/src-tauri/src/commands/tab_lifecycle.rs:309-334 | Closing a tab takes the path for leaves exactly for the leaves that are not their root's own. |
| TabLayout.CloseTabAgreesWithClosePane | apps/tauri/src-tauri/src/commands/tab_lifecycle.rs:348-367 | For every leaf that is not its root's own the two close implementations leave the same tabs. |
| TabLayout.CloseTabKeepsForest | apps/tauri/src-tauri/src/commands/tab_lifecycle.rs:304-425 | Closing any tab keeps the forest and removes exactly the leaf, the whole tree, or the tab. |
| TabLayout.ClosingUndoesSplitting | apps/tauri/src-tauri/src/commands/session_spawn.rs:494-574 | Splitting a tab with a new pane and closing that pane gives back the same tab list. |
| WorkspaceRuns.StepKeepsForest | apps/tauri/src-tauri/src/commands/tab_layout.rs:86-237 | Every command step, also between the steps of a split, a start or a reconnect, keeps the tab list a forest with each root before its leaves. |
| WorkspaceRuns.StepKeepsRegistry | apps/tauri/src-tauri/src/commands/session_spawn.rs:83-118 | Every step keeps a session for exactly the listed tabs. |
| WorkspaceRuns.EveryRunKeepsTheForest | apps/tauri/src-tauri/src/commands/tab_layout.rs:86-334 | Over every run of open and reconnect in their steps, disconnect, split in its steps, close pane, close tab, focus, weights, attach and detach the tab list is a forest with a session for exactly its tabs. |
| WorkspaceRuns.TheEmptyWorkspaceIsAForest | apps/tauri/src-tauri/src/services/workspace/state.rs:1-52 | The state the program starts from satisfies the invariants of every run. |
| WorkspaceStarts.AnUninterruptedOpen | apps/tauri/src-tauri/src/commands/session_spawn.rs:83-143 | Opening a session and taking every step of its start with nothing in between lists the tab and registers, entry by entry, what its kind of session needs; a shell whose process does not start keeps only its launch settings. |
| WorkspaceStarts.OutlivesIff | apps/tauri/src-tauri/src/commands/session_spawn.rs:128-143 | A resource comes to be held for a tab that is not listed exactly in the step that enters one after the tab has gone; no roll back, split, disconnect or undisturbed close leaves one behind. |
| WorkspaceStarts.ResourcesStayWithinTheListIff | apps/tauri/src-tauri/src/commands/session_runtime.rs:502-561 | Over every run, resources are held for listed tabs only, exactly as long as no start enters one late. |
| WorkspaceStarts.ListedUntilClosed | apps/tauri/src-tauri/src/commands/tab_lifecycle.rs:304-425 | While its start is under way a tab is never listed again, and only a close of it takes it out of the list. |
| WorkspaceStarts.ResourcesOutliveATabIff | apps/tauri/src-tauri/src/commands/tab_lifecycle.rs:174-190 | Whatever runs while an open or a reconnect is under way: its next resource outlives the tab exactly when the tab was closed in between, the pane of a split under way excepted. |
| WorkspaceStarts.AClosedTabKeepsItsWorker | apps/tauri/src-tauri/src/commands/session_spawn.rs:119-131 | That happens: open a session from the empty workspace, close its tab before the worker is registered, and the worker stays registered for no tab. |
| WorkspaceTheorems.RolledBackIff | apps/tauri/src-tauri/src/commands/tab_layout.rs:201-222 | A split is rolled back exactly when its source or its new tab is gone when it attaches. |
| WorkspaceTheorems.ClosedSourceIsRolledBack | apps/tauri/src-tauri/src/commands/tab_layout.rs:217-221 | A split whose source was closed meanwhile changes no tab when it tries to attach. |
| WorkspaceTheorems.RollBackLeavesNoTrace | apps/tauri/src-tauri/src/commands/session_runtime.rs:538-561 | Rolling back removes the new tab from the list, every map and the active panes, whatever ran since, and removes nothing else; the active tab is not looked at. |
| WorkspaceTheorems.FocusOutlivesARolledBackPaneIff | apps/tauri/src-tauri/src/commands/tab_lifecycle.rs:405-412 | In the run that closes the active source of a starting split, attaches and rolls back, the active tab names the removed pane afterwards exactly when that was the last tab left in the list. |
| WorkspaceTheorems.ASplitOfTheOnlyTab | apps/tauri/src-tauri/src/commands/tab_lifecycle.rs:405-412 | That case is reached from the empty workspace by opening one local shell and splitting it. |
| WorkspaceTheorems.AttachIsUniformIff | apps/tauri/src-tauri/src/commands/tab_layout.rs:131-147 | A split keeps its tree to one session type exactly when the new session has the type of the source. |
| WorkspaceTheorems.EveryRunKeepsOneType | apps/tauri/src-tauri/src/commands/tab_layout.rs:150-199 | Over every run in which a saved profile of a split session stays an SSH profile, each tree shows sessions of one type. |
| WorkspaceTheorems.AnEditedProfileMixesTypes | apps/tauri/src-tauri/src/commands/tab_layout.rs:150-169 | Splitting an SSH tab after its profile was turned into an FTP profile puts both types into one tree. |
| WorkspaceTheorems.ClosingAPaneEitherWay | apps/tauri/src-tauri/src/commands/tab_lifecycle.rs:336-385 | The two ways to close a non-root leaf agree on tabs, active tab and active panes, the active pane is a remaining leaf, and they differ in launch settings and revisions only. |
| WorkspaceTheorems.ClosingUndoesOpening | apps/tauri/src-tauri/src/commands/session_spawn.rs:83-143 | Opening a session without interruption and closing its tab gives back the whole workspace, every map included; only the active tab may differ, when the new one was activated. |
| WorkspaceClosing.DropKeepsForestIff | apps/tauri/src-tauri/src/commands/tab_lifecycle.rs:405-407 | Taking tabs out of a forest leaves a forest exactly when every tree goes with all its leaves or with none. |
| WorkspaceClosing.RemovalKeepsInvIff | apps/tauri/src-tauri/src/commands/tab_lifecycle.rs:348-421 | The removal of a close, on either path and whatever has run since its reads, keeps the forest exactly when it breaks no tree: on the path for leaves, when its root is gone, its tab is in no tree, or is still a leaf of that root and not the root itself. |
| WorkspaceClosing.StepKeepsDeskIff | apps/tauri/src-tauri/src/commands/tab_lifecycle.rs:308-424 | With closes of tabs in their two reads, their stops and their removal, and closes of panes in their check, stop, removal and focus: every step keeps the forest and its sessions, except exactly the removal of a stale close of a tab. |
| WorkspaceClosing.EveryRunStaysInOrderIff | apps/tauri/src-tauri/src/commands/tab_lifecycle.rs:304-425 | Over every run of all commands in these steps, the forest and registry invariants hold in all its states exactly when no stale close removes its tabs. |
| WorkspaceStale.SecondReadIsDoomedIff | apps/tauri/src-tauri/src/commands/tab_lifecycle.rs:318-330 | The second read makes a removal that breaks a tree exactly when the tab had no tree at the first read and owns one now, which it then takes for the root of another tab, or when what the first read found is whole no more. |
| WorkspaceStale.GoesStaleIff | apps/tauri/src-tauri/src/commands/tab_layout.rs:201-222 | For every step of every command: a close starts out fresh, and a step makes it stale exactly when it is an attach that touches what the close has read in part, or gives its tab a tree between its two reads, by an attach or by the promotion of the tab. |
| WorkspaceCloseRuns.AnUndisturbedClose | apps/tauri/src-tauri/src/commands/tab_lifecycle.rs:304-425 | The steps of a close with nothing in between are the close of the run model. |
| WorkspaceCloseRuns.AnAbandonedClose | apps/tauri/src-tauri/src/commands/tab_lifecycle.rs:394-404 | A close that ends because transfers cannot be paused leaves every tab listed and exactly the sessions before the failing one stopped. |
| WorkspaceCloseRuns.AnUndisturbedPaneClose | apps/tauri/src-tauri/src/commands/tab_layout.rs:338-431 | The steps of closing a pane with nothing in between are the pane close of the run model. |
| WorkspaceCloseRuns.ATreeBetweenTheReads | apps/tauri/src-tauri/src/commands/tab_lifecycle.rs:308-383 | Whatever command gives a tab its tree between the two reads of closing it: the removal takes out the root only, and the list is no forest. |
| WorkspaceCloseRuns.AnAttachAfterTheReads | apps/tauri/src-tauri/src/commands/tab_lifecycle.rs:388-407 | A split that attaches to the tab after the reads has the same end. |
| WorkspaceCloseRuns.ASplitOutlivesItsRoot | apps/tauri/src-tauri/src/commands/tab_lifecycle.rs:308-407 | Both happen from the empty workspace: a split of the only tab that attaches while that tab is closed leaves its pane in the list below a root that is gone. |
| WorkspacePromotion.APromotedPaneOutlivesItsRoot | apps/tauri/src-tauri/src/commands/tab_layout.rs:305-333 | So does a run without a split under way: split a tab twice, and close its own pane between the two reads of closing the pane that takes its place. |
| WorkspaceCloseRuns.OnlyEntriesHold | apps/tauri/src-tauri/src/commands/session_spawn.rs:128-143 | Only a step that starts a session gives a tab a resource. |
| WorkspaceCloseRuns.ResourcesOutliveACloseIff | apps/tauri/src-tauri/src/commands/tab_lifecycle.rs:395-419 | From the stop of a session to the removal of its tab or pane, with any run in between: a resource outlives it exactly when one is held by then, and only if a start entered it after the stop. |
| WorkspaceFocus.ActivatesATopLevelTab | apps/tauri/src-tauri/src/commands/tab_layout.rs:490-510 | Activating a listed session activates the top-level tab that shows it. |
| WorkspaceFocus.NextVisibleIsTheLast | apps/tauri/src-tauri/src/commands/tab_layout.rs:559-568 | The tab focused after hiding another is the last visible top-level one; none is found exactly when there is none. |
| WorkspaceFocus.HidingMovesTheFocus | apps/tauri/src-tauri/src/commands/tab_layout.rs:533-617 | Hiding changes the visibility of one externally opened top-level tab and takes the focus off it, onto a visible top-level tab or nowhere. |
| WorkspaceFocus.ShowingUndoesHiding | apps/tauri/src-tauri/src/commands/tab_layout.rs:512-589 | Showing a session again after hiding it gives back the tab list, with the focus on its tab. |
| WorkspaceFocus.SplitFocusesItsPane | apps/tauri/src-tauri/src/commands/tab_layout.rs:224-234 | After a split the active tab is a top-level tab whose tree lists source and new pane, and the new pane is active in it. |
| WorkspaceFocus.ClosingTheRootMovesTheFocus | apps/tauri/src-tauri/src/commands/tab_layout.rs:409-425 | Closing the root's own pane moves focus and active pane to the survivor that takes its place. |
| WorkspaceFocus.StepKeepsPaneWaits | apps/tauri/src-tauri/src/commands/tab_layout.rs:106-129 | While a split has not attached its pane, no tab points at the pane and the pane points at some root, whatever runs in between. |
| WorkspaceFocus.EveryRunKeepsPaneWaits | apps/tauri/src-tauri/src/commands/tab_layout.rs:106-222 | So it is over every run. |
| WorkspaceFocus.FocusOnTheNewPaneIff | apps/tauri/src-tauri/src/commands/tab_lifecycle.rs:405-412 | For every step of every command while a split has not attached its pane: when it puts the focus on the pane, and when it takes it off; the roll back does neither. |
| WorkspaceFocus.FocusOutlivesAPaneIff | apps/tauri/src-tauri/src/commands/session_runtime.rs:543-561 | Over every run from a split under way to its roll back, the focus is left on the removed pane exactly when the last step that moved it onto or off the pane moved it there. |
| WorkspaceState.State.AttachSplitPane | apps/tauri/src-tauri/src/commands/session_spawn.rs:479-575 | Edits the vector in place to exactly what the layout function says, and reports the same root or error. |
| WorkspaceState.State.RepointLeaves | apps/tauri/src-tauri/src/commands/tab_layout.rs:319-323 | The loop over the tabs points every leaf of one root at another. |
| WorkspaceState.State.RemoveSplitPane | apps/tauri/src-tauri/src/commands/tab_layout.rs:250-334 | The in-place removal, its promotion and its errors are those of the layout function. |
| WorkspaceState.State.ClosePane | apps/tauri/src-tauri/src/commands/tab_layout.rs:338-431 | Stopping, removing, re-focusing and touching revisions step by step leave exactly the state the run model says. |
| WorkspaceState.State.CloseTab | apps/tauri/src-tauri/src/commands/tab_lifecycle.rs:304-425 | Both paths, with their loops over the ids, leave exactly the state the run model says. |
| WorkspaceState.State.FinishSplit | apps/tauri/src-tauri/src/commands/tab_layout.rs:201-234 | The attach step either focuses the new pane or rolls it back, as the run model says. |
| WorkspaceState.State.RollBack | apps/tauri/src-tauri/src/commands/session_runtime.rs:543-561 | The clean-up steps leave exactly the rolled-back state. |
| WorkspaceState.State.DetachToBackground | apps/tauri/src-tauri/src/commands/tab_layout.rs:533-617 | The in-place detach and the choice of the next tab are those of the run model. |
| ExactInput.StepKeepsSendsPinned | apps/tauri/src-tauri/src/commands/terminal_input.rs:53-109 | What an exact send has checked under its guards stays true until it has queued its text, whatever the other commands do. |
| ExactInput.StepKeepsOneReconnect | apps/tauri/src-tauri/src/commands/tab_lifecycle.rs:216-225 | The claim lets one reconnect through: while it runs the tab is connecting and, once the old worker is stopped, has no worker. |
| ExactInput.DeliveriesAreExact | apps/tauri/src-tauri/src/commands/terminal_input.rs:105-120 | Text is delivered only by the queueing step, to the installed worker of the connected, active pane, at the expected revision. |
| ExactInput.ApprovedInputStaysWithItsWorker | apps/tauri/src-tauri/src/commands/tab_lifecycle.rs:92-226 | In every interleaving, orderly or not, text approved at a revision below the largest while no reconnect stands between its bump and its install reaches the worker installed at that time, or none. |
| ExactInput.ApprovalHoldsIff | apps/tauri/src-tauri/src/services/workspace/state.rs:142-147 | For every session that can be sent to, whatever reconnects it has under way, an approval is exact over all that can follow exactly when the revision is below the largest one and no reconnect stands between its bump and its install. |
| ExactInput.ApprovalHoldsInOrderlyRunsIff | apps/tauri/src-tauri/src/commands/tab_lifecycle.rs:216-225 | Where no status change fell inside a reconnect only the revision counts, and every revision can be reached so. |
| ExactInput.ADisconnectInsideAReconnectBreaksIt | apps/tauri/src-tauri/src/commands/tab_lifecycle.rs:267-284 | The other half of the condition is needed: a disconnect whose status change lands inside a reconnect lets a second reconnect in, and approved text reaches the wrong worker. |
| LockOrder.SoundIsDisciplined | apps/tauri/src-tauri/src/commands/terminal_input.rs:53-120 | A command that nests its guards in the order allowed by the tabs lock asks in that order at every step of its flattened program. |
| LockOrder.ExactSendIsSound | apps/tauri/src-tauri/src/commands/terminal_input.rs:53-120 | Exact send takes its six guards in the order of the tabs' readers. |
| LockOrder.CloseLeafIsSound | apps/tauri/src-tauri/src/commands/tab_lifecycle.rs:349-385 | Closing a leaf takes sessions before active panes while it writes the tabs. |
| LockOrder.CloseTabIsSound | apps/tauri/src-tauri/src/commands/tab_lifecycle.rs:405-424 | So does closing a tab with any number of leaves. |
| LockOrder.SplitIsSound | apps/tauri/src-tauri/src/commands/tab_layout.rs:92-237 | A split keeps to both orders under the library lock, also when it rolls back and when it takes its snapshot. |
| LockOrder.OpenProfileIsSound | apps/tauri/src-tauri/src/commands/tab_layout.rs:3-36 | Opening a profile keeps to both orders, with its spawn, the write of the active tab and the snapshot under the library lock. |
| LockOrder.OpenShellIsSound | apps/tauri/src-tauri/src/commands/terminal_commands.rs:36-43 | So does opening a local shell, which takes the library lock for its snapshots only, also when the shell fails to start. |
| LockOrder.ReconnectIsSound | apps/tauri/src-tauri/src/commands/tab_lifecycle.rs:92-213 | A reconnect keeps to both orders. |
| LockOrder.EveryCommandIsSound | apps/tauri/src-tauri/src/commands/session_spawn.rs:83-143 | Every modelled command keeps to the discipline. |
| LockOrder.HeldBelowAsked | apps/tauri/src-tauri/src/commands/tab_lifecycle.rs:349-384 | In every state a waiting process holds only locks below the one it asks for, in the order that counts while the tabs are, or are not, being rewritten. |
| LockOrder.NoRunWaitsInACircle | apps/tauri/src-tauri/src/commands/tab_layout.rs:226-232 | Over every run of any number of these commands, with first-come queues, no processes wait for each other in a circle. |
| LockOrder.SomebodyGoesOn | apps/tauri/src-tauri/src/commands/tab_lifecycle.rs:269-283 | When every process waits, the first in some queue can be served. |
| SnapshotRevisions.RevisionsOrderTheSnapshots | apps/tauri/src-tauri/src/commands/window_commands.rs:230-258 | With writers between the reads, revisions are unique and a higher one means that every component was read no earlier. |
| SnapshotRevisions.TheConsumerNeverGoesBack | apps/tauri/src/renderer/hooks/use-workspace-ipc-sync.ts:152-178 | A consumer that drops lower revisions never sees a component go back in time, in whatever order snapshots arrive. |
| SnapshotRevisions.RevisionsStayInOrderIff | apps/tauri/src-tauri/src/commands/window_commands.rs:235-238 | Revisions stay ordered exactly until the counter reaches its largest value. |
| SnapshotRevisions.FillRevisions | apps/tauri/src-tauri/src/commands/window_commands.rs:244-250 | The loop gives every session of a snapshot its revision, zero when it has none, and changes nothing else. |
| EditorClose.FileEditorCloseRegistry.RequestCloseAndWait | apps/tauri/src-tauri/src/lib/state.rs:68-81 | The caller becomes the last waiter of its window, shows the dialog exactly when the window was not pending, and neither another window nor an answer is touched. |
| EditorClose.FileEditorCloseRegistry.ResolveClose | apps/tauri/src-tauri/src/lib/state.rs:83-95 | Clears the window and answers every waiter it had. |
| EditorClose.EmitsIffFirst | apps/tauri/src-tauri/src/lib/state.rs:59-81 | A call is told to emit exactly when it is the first request for its window since the last resolve. |
| EditorClose.SomeRequestEmitted | apps/tauri/src-tauri/src/lib/state.rs:59-81 | Every open request goes back to one that was told to emit. |
| EditorClose.OneRequestEmitted | apps/tauri/src-tauri/src/lib/state.rs:59-81 | No two requests between consecutive resolves of a window are told to emit. |
| EditorClose.WaitersAreTheOpenWaits | apps/tauri/src-tauri/src/lib/state.rs:68-95 | The waiters of a window are exactly the waits not resolved yet, each once. |
| EditorClose.WaitersArePending | apps/tauri/src-tauri/src/lib/state.rs:68-81 | A window somebody waits for is pending. |
| EditorClose.AnswersComeFromTheFirstResolve | apps/tauri/src-tauri/src/lib/state.rs:83-95 | A waiter is answered exactly by the first resolve of its window after it registered. |
| EditorClose.AnsweredOnce | apps/tauri/src-tauri/src/lib/state.rs:83-95 | No waiter is answered twice. |
| EditorClose.AFailedSendIsTakenBack | apps/tauri/src-tauri/src/lib/state.rs:143-151 | A request whose event cannot be sent leaves the window not pending and without waiters; everyone who waited for it is refused and no other window is touched. |
| EditorClose.AskEditors | apps/tauri/src-tauri/src/lib/state.rs:127-163 | Quit may go on exactly when every editor approved or is gone; the first objection decides between refusal and error. |
| EditorClose.QuitPreparation.Quit | apps/tauri/src-tauri/src/commands/window_commands.rs:163-198 | The quit command exits exactly when it got through the gate, every editor let it go and transfers were stored; otherwise the gate is left as it was. |
| EditorClose.TheGateIsClosedForOneAttempt | apps/tauri/src-tauri/src/commands/window_commands.rs:163-198 | However quit attempts overlap, at most one is under way and the gate is closed exactly while it is. |
| AiChatBridge.ActiveIsLive | apps/tauri/src/bridge/tauri-api.ts:124-157 | Before the page is hidden the active map holds exactly the resolved calls that have not ended, also when the end came first. |
| AiChatBridge.HiddenPageCancelsOnce | apps/tauri/src/bridge/tauri-api.ts:110-122 | After the page is hidden nothing is active, and each request active then or resolved later is cancelled exactly once, no other. |
| AiChatBridge.ChatBridge.HidePage | apps/tauri/src/bridge/tauri-api.ts:110-120 | The handler empties both collections and cancels each active request, once per page. |
| AiChatBridge.ChatBridge.Fulfilled | apps/tauri/src/bridge/tauri-api.ts:143-152 | A resolved call is pending no longer and meets exactly one of three ends: cancelled once, active, or nothing when its end came first; no other request is touched. |
| TerminalChannel.NeverStaysBlank | apps/tauri/src/bridge/tauri-api.ts:164-212 | Once somebody has subscribed, in every run the channel is registered or being registered, or a retry is pending. |
| TerminalChannel.RetriesBackOff | apps/tauri/src/bridge/tauri-api.ts:164-179 | The delay of a pending retry doubles with each failure in a row, up to its cap. |
| TerminalChannel.ATimerInBetweenWouldLoseTheChannel | apps/tauri/src/bridge/tauri-api.ts:164-212 | Why the order of handlers matters: a timer that fired between the two steps in which a failed registration settles would leave a subscriber with no channel and nothing pending. |
| TerminalChannel.TerminalData.RegistrationFailed | apps/tauri/src/bridge/tauri-api.ts:203-208 | A failed registration leaves no channel and one retry, due after the first delay doubled once per failure in a row, up to the cap; the invariant of every run holds again. |
| TerminalChannel.TerminalData.Retry | apps/tauri/src/bridge/tauri-api.ts:175-178 | When the timer fires there is a channel and no pending retry; a registration starts exactly when there was no channel, and the invariant of every run holds again. |
| SerialSlot.SerialTransfers.TryRegister | apps/tauri/src-tauri/src/commands/serial_commands.rs:216-225 | A transfer takes the slot of its tab exactly when it is free. |
| SerialSlot.SerialTransfers.Finish | apps/tauri/src-tauri/src/commands/serial_commands.rs:244-255 | Afterwards the transfer owns no slot of its tab, every slot it did not own is as before, and of all tokens only its own can become cancelled, exactly on error. |
| SerialSlot.EveryRunKeepsInv | apps/tauri/src-tauri/src/commands/serial_commands.rs:208-256 | Over every run each slot belongs to a transfer in flight, and one that lost its slot or failed has its token cancelled. |
| SerialSlot.AtMostOneLiveTransfer | apps/tauri/src-tauri/src/commands/serial_commands.rs:216-225 | Of two transfers of a tab that both took the slot, one is cancelled. |
| SerialSlot.EndingKeepsOtherSlots | apps/tauri/src-tauri/src/commands/serial_commands.rs:247-255 | A finishing transfer never frees a successor's slot nor another tab's, and never leaves its own behind. |
| SerialSlot.StoppedWorkerCancelsItsTransfers | apps/tauri/src-tauri/src/commands/session_runtime.rs:505-519 | Stopping a worker cancels every transfer prepared for it, also one that has not taken the slot yet. |
| SerialSlot.CancelledStays | apps/tauri/src-tauri/src/commands/serial_commands.rs:258-269 | A cancelled transfer stays cancelled for as long as it is in flight. |
| SerialSlot.IdleMeansFree | apps/tauri/src-tauri/src/commands/serial_commands.rs:247-255 | When no transfer is in flight every slot is free. |
| FolderForest.DeletingContractsChains | packages/storage/src/index.ts:152-166 | Deleting a folder takes it out of every chain of ancestors and changes no other. |
| FolderForest.DeleteFolderContractsProfiles | packages/storage/src/index.ts:162-164 | Each profile keeps its chain without the deleted folder. |
| FolderForest.DeleteFolderContractsFolders | packages/storage/src/index.ts:157-165 | Each remaining folder keeps its chain without the deleted folder, which is gone. |
| FolderForest.DeletingKeepsAcyclic | packages/storage/src/index.ts:152-166 | Deleting keeps the folders free of cycles. |
| FolderForest.MovingKeepsAcyclicIff | packages/storage/src/index.ts:179-183 | Giving a folder a new parent keeps the folders free of cycles exactly when it is not that parent or one of its ancestors. |
| FolderForest.StepKeepsAcyclicIff | packages/storage/src/index.ts:133-184 | The same for every command: only re-parenting can close a cycle, and exactly then. |
| FolderForest.EveryRunKeepsGroups | packages/storage/src/index.ts:73-183 | Over every run a profile whose parent folder exists has that folder's name as its group. |
| FolderForest.UpdateFolderKeepsGroupsIff | packages/storage/src/index.ts:140-150 | An update keeps the groups, except that one which changes the folder's id does so exactly when the profiles already pointing at the new id carry its name. |
| FolderForest.AnySeedMatches | packages/storage/src/index.ts:65-67 | Any list of profiles, without folders, is a start for such runs. |
| FolderForest.MemoryProfileRepository.RemoveFolder | packages/storage/src/index.ts:152-166 | Every chain of ancestors loses exactly the deleted folder, the profiles' chains included; groups still match and no cycle appears. |
| FolderForest.MemoryProfileRepository.ChangeOrder | packages/storage/src/index.ts:168-184 | Groups still match, every other entry stays, a profile is moved before a folder of the same id, and the folders stay free of cycles exactly when no folder goes under itself or a descendant. |
| ThemeNormal.NormalizeThemeConfig | apps/tauri/src-tauri/src/commands/connection_preferences.rs:381-640 | The field-by-field rewriting, with its loops, computes the normal form. |
| ThemeNormal.OnePassIsValid | apps/tauri/src-tauri/src/commands/connection_preferences.rs:362-640 | After one pass every colour is a valid hexadecimal colour, every override and font is valid and the contrast is at most 100. |
| ThemeNormal.SecondPass | apps/tauri/src-tauri/src/commands/connection_preferences.rs:381-640 | A second pass changes nothing but the SFTP, FTP and success colours. |
| ThemeNormal.SecondPassMigratesIff | apps/tauri/src-tauri/src/commands/connection_preferences.rs:415-428 | The second pass migrates the legacy pair exactly when overrides that the first pass threw out had kept it from doing so. |
| ThemeNormal.ThreePassesAreEnough | apps/tauri/src-tauri/src/commands/connection_preferences.rs:381-640 | Three passes reach a fixpoint for every theme. |
| ThemeNormal.TwoPassesAreEnoughIff | apps/tauri/src-tauri/src/commands/connection_preferences.rs:415-532 | Two passes are enough exactly when the second one does not migrate. |
| ThemeNormal.ThreePassesAreNeeded | apps/tauri/src-tauri/src/commands/connection_preferences.rs:415-532 | A Codex theme in its first colours, with one override that is not a colour, does need the third pass. |
| ThemeNormal.OnePassIsEnoughIff | apps/tauri/src-tauri/src/commands/connection_preferences.rs:415-500 | One pass is enough exactly when nothing is migrated now or later and the FTP colour does not come from the palette. |
| UiPreferences.NormalizeAllowedProfileIds | apps/tauri/src-tauri/src/commands/ui_preferences.rs:276-291 | The loop with its early exit computes the capped list of distinct trimmed ids. |
| UiPreferences.AllowedIdsAreValid | apps/tauri/src-tauri/src/commands/ui_preferences.rs:276-291 | The allow list is trimmed, valid, distinct and at most 256 long; below the cap it holds every valid id. |
| UiPreferences.FullOrderIsAPermutation | apps/tauri/src-tauri/src/commands/ui_preferences.rs:316-331 | A normalised order is a permutation of the defaults, starts with what was known of the saved order, and does not change again. |
| UiPreferences.NormalizeOrder | apps/tauri/src-tauri/src/commands/ui_preferences.rs:357-384 | The two loops compute that order. |
| UiPreferences.MetricsSettle | apps/tauri/src-tauri/src/commands/ui_preferences.rs:333-355 | The metrics are the known ones, each once, and do not change again. |
| UiPreferences.NormalizeSavedThemes | apps/tauri/src-tauri/src/commands/ui_preferences.rs:405-444 | The loop with its skips and its early exit computes the list of saved themes. |
| UiPreferences.NormalThemesAreClean | apps/tauri/src-tauri/src/commands/ui_preferences.rs:405-444 | Saved themes are named, trimmed, without a repeated id and at most 64. |
| UiPreferences.NormalThemesAreValid | apps/tauri/src-tauri/src/commands/connection_preferences.rs:362-640 | One pass leaves every colour, override and font of every saved theme and of its variants valid. |
| UiPreferences.SavedThemesSettle | apps/tauri/src-tauri/src/commands/ui_preferences.rs:405-444 | The list of saved themes reaches a fixpoint within three passes. |
| UiPreferences.OnePassIsValidEverywhere | apps/tauri/src-tauri/src/commands/ui_preferences.rs:446-545 | One pass makes every choice, order, scope, policy and allowed id valid, and every colour, override and font of the theme, of every saved theme and of its variants. |
| UiPreferences.PreferencesSettle | apps/tauri/src-tauri/src/commands/ui_preferences.rs:446-545 | Three passes reach preferences that no further pass changes, whatever was stored. |
| UiPreferences.OnePassButForThemes | apps/tauri/src-tauri/src/commands/ui_preferences.rs:446-545 | With trimmed default shells a second pass changes nothing but themes. |
| UiPreferences.NormalizeUiPreferences | apps/tauri/src-tauri/src/commands/ui_preferences.rs:446-545 | The whole normalisation, loops included, computes the normal form. |
| Bookmarks.ScopesAreIndependent | apps/tauri/src-tauri/src/commands/path_bookmarks.rs:45-99 | A command that succeeds acts on the list of its scope as append-if-new, remove or adjacent swap, and leaves the list of every other scope as it was. |
| Bookmarks.UpThenDownIsIdentity | apps/tauri/src-tauri/src/commands/path_bookmarks.rs:78-96 | Moving a non-first item up and then down gives back the whole store, also when ids repeat. |
| Bookmarks.DownThenUpIsIdentity | apps/tauri/src-tauri/src/commands/path_bookmarks.rs:78-96 | So does down and then up when the item below has another id. |
| Bookmarks.EveryRunKeepsUnique | apps/tauri/src-tauri/src/commands/path_bookmarks.rs:45-99 | Over every run no two bookmarks of a scope have the same path. |
| Bookmarks.BookmarkStore.Perform | apps/tauri/src-tauri/src/commands/path_bookmarks.rs:45-99 | The in-place command leaves the store, or the error, that the model says. |
| CommandTemplate.RenderCommandTemplate | apps/tauri/src-tauri/src/commands/profile_commands.rs:350-366 | The scan computes the substitution into the leftmost reading of the template. |
| CommandTemplate.PrintOfParse | apps/tauri/src-tauri/src/commands/profile_commands.rs:354-356 | Printing the segments of a template gives the template back. |
| CommandTemplate.ParseOfPrint | apps/tauri/src-tauri/src/commands/profile_commands.rs:354-356 | The leftmost reading is unique: parsing what such segments print gives them back. |
| CommandTemplate.ParseIsLeftmost | apps/tauri/src-tauri/src/commands/profile_commands.rs:354-356 | What parsing gives is a leftmost reading. |
| CommandTemplate.RenderIsSubstitution | apps/tauri/src-tauri/src/commands/profile_commands.rs:350-366 | A template is rendered by substituting once into its one leftmost reading. |
| CommandTemplate.ArgumentsAreNotRescanned | apps/tauri/src-tauri/src/commands/profile_commands.rs:356-365 | At any placeholder of any reading the argument is copied as it is, even when it looks like a placeholder: the text before does not depend on it, and the text after is rendered as a template of its own. |
| CommandTemplate.EveryPlaceholderIsCopied | apps/tauri/src-tauri/src/commands/profile_commands.rs:356-365 | The same at every placeholder the scan finds in any template. |
| CommandTemplate.NoPlaceholderNoChange | apps/tauri/src-tauri/src/commands/profile_commands.rs:350-366 | A template in which no placeholder starts is rendered as it is. |
| CommandTemplate.ArgumentIff | apps/tauri/src-tauri/src/commands/profile_commands.rs:357-364 | Index zero, an index out of range or past usize, and digits of another script render empty; any other stands for its argument. |
| ShellQuote.PosixRoundTrip | apps/tauri/src-tauri/src/commands/platform_commands.rs:47-61 | A shell reads the POSIX form of every string as exactly one word equal to it. |
| ShellQuote.PowerShellRoundTripIff | apps/tauri/src-tauri/src/commands/platform_commands.rs:47-61 | PowerShell reads the quoted form back as the string exactly when no character but the ASCII apostrophe in it closes the literal. |
| Transcript.NoteReconnect | apps/tauri/src-tauri/src/commands/tab_lifecycle.rs:134-151 | The loop cuts at the first character boundary at or after the limit. |
| Transcript.BoundaryIsNear | apps/tauri/src-tauri/src/commands/tab_lifecycle.rs:143-149 | From every position a character boundary is at most three bytes away, and what follows it is UTF-8. |
| Transcript.CutIsText | apps/tauri/src-tauri/src/commands/tab_lifecycle.rs:141-151 | A cut keeps a UTF-8 suffix of between 179997 and 180000 bytes. |
| Transcript.TranscriptStaysText | apps/tauri/src-tauri/src/commands/tab_lifecycle.rs:134-151 | After any number of reconnects the transcript is UTF-8 and, from the first one on, within its cap. |
| Transcript.EachReconnectKeepsTheEnd | apps/tauri/src-tauri/src/commands/tab_lifecycle.rs:134-151 | Each reconnect keeps all of the text with its notice, or its last 179997 to 180000 bytes. |
| MetricsHistory.HistoryIsTheLastPoints | packages/core/src/index.ts:946-979 | With a positive limit the history is exactly the last points of the stream. |
| MetricsHistory.LimitHoldsIff | packages/core/src/index.ts:946-979 | The limit holds exactly when it is positive: with zero everything is kept. |
| MetricsHistory.InterfaceHistoryIsTheLastPoints | packages/core/src/index.ts:953-961 | The history of an interface is its last points since it was last absent. |
| MetricsHistory.RowsAreTheLatest | packages/core/src/index.ts:963-970 | Disk and file system rows are those of the latest sample that had any. |

## Left out

- The bodies of the SSH, FTP, Telnet, serial and local workers, transfers and the profile store: a worker is a generation that receives text, a transfer or an answer an event.
- `PaneNode` edits through `&mut self` are functions from tree to tree; the shares are reals, so the rounding of `f32` and its infinities are not modelled.
- WorkspaceRuns.EveryRunKeepsTheForest: takes the close of a tab or a pane as one step, as do the theorems about starts and focus; the closes in their steps, and what they then no longer promise, are in `WorkspaceClosing`. The session revisions and launch settings are outside the invariant, because closing removes them and a later touch of a remaining or closed id brings one back.
- New tab, folder and bookmark ids come from a random generator; here they are parameters, and a new id is one that nothing mentions.
- The focus updates of `app_close_pane` are keyed on the requested root id, as in the program; the theorem about them asks for the actual root.
- The active tab is not claimed to be a visible top-level tab: closing a tab falls back to the last tab of the list, and an id that is not listed can be activated.
- WorkspaceStarts.ResourcesOutliveATabIff: what a worker enters or takes out itself (reconnect attempts, the transfer slot, a shell that exits, remote forwards) is not among the steps; which profile a reconnect finds and whether a process starts are parameters.
- WorkspaceRuns.StepKeepsForest: `app_split_tab` drops its guard between the check and the listing of the new tab, which are one step here, so what runs in between is not covered. The session of a split is started in one step; until the split attaches or rolls back its pane is exempt anyway.
- WorkspaceClosing.StepKeepsDeskIff: the close of a pane reads the active pane together with its check, and takes out the session together with the tab; a close drops revisions together with its removal. In the program each of these follows under a guard of its own.
- WorkspaceTheorems.EveryRunKeepsOneType: holds for runs whose saved profiles keep their type, because a split reads the type of its new session from the saved profile and not from the source.
- WorkspaceTheorems.RollBackLeavesNoTrace: says nothing of the active tab beyond that it is unchanged, because the clean-up does not look at it; when it then names the removed pane is stated on its own.
- ExactInput.ApprovalHoldsIff: an expected revision is a number here; a text that is not the decimal form of one matches nothing in the program.
- LockOrder.EveryCommandIsSound: the locks inside transfers, connection operations and runtime gates, and commands that take one lock at a time, stand for `Other` locks under which nothing else is asked for; waiting for a worker queue is bounded by a timeout and not a lock.
- SnapshotRevisions.TheConsumerNeverGoesBack: compares revisions exactly; the renderer holds them as doubles, which are exact up to 2^53 only.
- SnapshotRevisions.RevisionsOrderTheSnapshots: profiles, folders and command libraries are read from disk after the revisioned components and are not among them.
- EditorClose.AskEditors: the sorted labels and what becomes of each window are parameters; the events and windows themselves are not modelled, and the registry entry of a request that cannot be sent is taken back in a lemma of its own.
- AiChatBridge.HiddenPageCancelsOnce: a cancel is counted when it is sent; whether the backend is still alive to receive it is not modelled.
- Aliasing in the profile repository: `list` hands out the objects that later moves rewrite in place; here profiles and folders are values.
- FolderForest.EveryRunKeepsGroups: runs do not update a folder's id; what such an update does is stated exactly on its own.
- The palettes are parameters except for the special colours; `to_uppercase` is written for ASCII, which is all it is used on; which characters count as letters in a font name is a parameter.
- UiPreferences.PreferencesSettle: plain switches without a rule (zoom locks, sections shown, remembered sizes) are not part of the record.
- The characters that `\d` matches beyond ASCII are a parameter of the template model.
- ShellQuote.PosixRoundTrip: the reader covers quoting only and refuses a line in which a character would have to be expanded.
- Transcript.TranscriptStaysText: restarting a local shell appends its banner without a cap, and output appended between reconnects is not modelled.
- TerminalChannel.NeverStaysBlank: rests on promise handlers running before timers, as they do in a browser; what a timer in between would do is stated on its own.
- Timeout and cancellation helpers, the refresh of remote files after a directory change and the guard of connection tests: short guards around code that is not part of this model.
- Menus, tray, window chrome, dialogs, clipboard, file and network access, logging and localisation.
