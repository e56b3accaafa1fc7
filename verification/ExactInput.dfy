/** Exact terminal input against reconnect, for one tab.

    A send takes read guards one after the other and keeps them until its text
    is queued; a reconnect claims the tab, takes the old worker out, bumps the
    session revision and only then installs the new worker. Every step that
    writes one of the collections waits until no send holds a guard on it. */
module ExactInput {
  import opened Wrappers

  type TabId = string

  const MAX_REVISION: nat := 0xFFFF_FFFF_FFFF_FFFF

  datatype Status = Connecting | Connected | Failed | Closed

  datatype Guarded = Tabs | ActiveTab | ActivePanes | Sessions | Revisions | Workers

  /** How far a send has come: the last guard it took. With the guard on the
      workers it also holds the queue of worker `gen`. */
  datatype SendPhase =
    | HoldsTabs
    | HoldsActiveTab
    | HoldsActivePanes
    | HoldsSessions
    | HoldsRevisions
    | HoldsWorkers(gen: nat)

  datatype Send = Send(expected: Option<nat>, phase: SendPhase)

  datatype ReconnectPhase = Claimed | Stopped | Cleared | Bumped

  datatype Delivery = Delivery(expected: Option<nat>, gen: nat)

  /** `worker` is the generation installed for the tab; `installed` counts them. */
  datatype State = State(
    tabId: TabId,
    listed: bool,
    status: Status,
    paneRoot: Option<TabId>,
    activeTab: Option<TabId>,
    activePanes: map<TabId, TabId>,
    connected: bool,
    revision: nat,
    worker: Option<nat>,
    installed: nat,
    sends: map<nat, Send>,
    reconnects: map<nat, ReconnectPhase>,
    delivered: seq<Delivery>)

  function Root(s: State): TabId {
    if s.paneRoot.Some? then s.paneRoot.value else s.tabId
  }

  predicate PaneIsActive(s: State) {
    if Root(s) in s.activePanes then s.activePanes[Root(s)] == s.tabId else Root(s) == s.tabId
  }

  function Depth(phase: SendPhase): nat {
    match phase
    case HoldsTabs => 1
    case HoldsActiveTab => 2
    case HoldsActivePanes => 3
    case HoldsSessions => 4
    case HoldsRevisions => 5
    case HoldsWorkers(_) => 6
  }

  function Rank(guarded: Guarded): nat {
    match guarded
    case Tabs => 1
    case ActiveTab => 2
    case ActivePanes => 3
    case Sessions => 4
    case Revisions => 5
    case Workers => 6
  }

  predicate Writable(s: State, guarded: Guarded) {
    forall k :: k in s.sends ==> Depth(s.sends[k].phase) < Rank(guarded)
  }

  // ----- the steps

  datatype Command =
    | BeginSend(send: nat, expected: Option<nat>)
    | ContinueSend(sending: nat)
    | Enqueue(queued: nat, accepted: bool)
    | Claim(claimed: nat)
    | StopWorker(stopped: nat)
    | ClearSession(cleared: nat)
    | Bump(bumped: nat)
    | Install(installing: nat)
    | Abandon(abandoned: nat)
    | SetStatus(status: Status)
    | SetConnected(connected: bool)
    | SetPaneRoot(paneRoot: Option<TabId>)
    | SetActiveTab(activeTab: Option<TabId>)
    | SetActivePanes(activePanes: map<TabId, TabId>)
    | Touch
    | DropWorker
    | Unlist
    | ForgetRevision

  function NextRevision(revision: nat): nat {
    if revision < MAX_REVISION then revision + 1 else MAX_REVISION
  }

  predicate InPhase(s: State, r: nat, phase: ReconnectPhase) {
    r in s.reconnects && s.reconnects[r] == phase
  }

  /** What a command writes is free of read guards, and the send or reconnect it
      belongs to has reached this step. */
  predicate Enabled(s: State, c: Command) {
    match c
    case BeginSend(k, _) => k !in s.sends
    case ContinueSend(k) => k in s.sends && !s.sends[k].phase.HoldsWorkers?
    case Enqueue(k, _) => k in s.sends && s.sends[k].phase.HoldsWorkers?
    case Claim(r) => r !in s.reconnects && Writable(s, Tabs)
    case StopWorker(r) => InPhase(s, r, Claimed) && Writable(s, Workers)
    case ClearSession(r) => InPhase(s, r, Stopped) && Writable(s, Sessions)
    case Bump(r) => InPhase(s, r, Cleared) && Writable(s, Revisions)
    case Install(r) => InPhase(s, r, Bumped) && Writable(s, Workers)
    case Abandon(r) => InPhase(s, r, Bumped)
    case SetStatus(_) => Writable(s, Tabs)
    case SetConnected(_) => Writable(s, Sessions)
    case SetPaneRoot(_) => Writable(s, Tabs)
    case SetActiveTab(_) => Writable(s, ActiveTab)
    case SetActivePanes(_) => Writable(s, ActivePanes)
    case Touch => Writable(s, Revisions)
    case DropWorker => Writable(s, Workers)
    case Unlist => Writable(s, Tabs)
    case ForgetRevision => !s.listed && Writable(s, Revisions)
  }

  function Refuse(s: State, k: nat): State {
    s.(sends := s.sends - {k})
  }

  function Advance(s: State, k: nat, phase: SendPhase): State
    requires k in s.sends
  {
    s.(sends := s.sends[k := s.sends[k].(phase := phase)])
  }

  function BeginSending(s: State, k: nat, expected: Option<nat>): State {
    if s.listed && s.status == Connected then s.(sends := s.sends[k := Send(expected, HoldsTabs)]) else s
  }

  /** Takes the next guard and makes the check behind it. */
  function ContinueSending(s: State, k: nat): State
    requires k in s.sends
  {
    var send := s.sends[k];
    match send.phase
    case HoldsTabs => if s.activeTab == Some(Root(s)) then Advance(s, k, HoldsActiveTab) else Refuse(s, k)
    case HoldsActiveTab => if PaneIsActive(s) then Advance(s, k, HoldsActivePanes) else Refuse(s, k)
    case HoldsActivePanes => if s.connected then Advance(s, k, HoldsSessions) else Refuse(s, k)
    case HoldsSessions =>
      if send.expected.None? || send.expected.value == s.revision then Advance(s, k, HoldsRevisions) else Refuse(s, k)
    case HoldsRevisions => if s.worker.Some? then Advance(s, k, HoldsWorkers(s.worker.value)) else Refuse(s, k)
    case HoldsWorkers(_) => s
  }

  function EnqueueText(s: State, k: nat, accepted: bool): State
    requires k in s.sends && s.sends[k].phase.HoldsWorkers?
  {
    var done := Refuse(s, k);
    if accepted then done.(delivered := s.delivered + [Delivery(s.sends[k].expected, s.sends[k].phase.gen)]) else done
  }

  function ClaimReconnect(s: State, r: nat): State {
    if s.listed && s.status != Connecting
    then s.(status := Connecting, reconnects := s.reconnects[r := Claimed])
    else s
  }

  function InstallWorker(s: State, r: nat): State {
    s.(worker := Some(s.installed), installed := s.installed + 1, reconnects := s.reconnects - {r})
  }

  predicate IsSendStep(c: Command) {
    c.BeginSend? || c.ContinueSend? || c.Enqueue?
  }

  predicate IsReconnectStep(c: Command) {
    c.Claim? || c.StopWorker? || c.ClearSession? || c.Bump? || c.Install? || c.Abandon?
  }

  function NextSend(s: State, c: Command): State
    requires Enabled(s, c) && IsSendStep(c)
  {
    match c
    case BeginSend(k, expected) => BeginSending(s, k, expected)
    case ContinueSend(k) => ContinueSending(s, k)
    case Enqueue(k, accepted) => EnqueueText(s, k, accepted)
  }

  function NextReconnect(s: State, c: Command): State
    requires IsReconnectStep(c)
  {
    match c
    case Claim(r) => ClaimReconnect(s, r)
    case StopWorker(r) => s.(worker := None, reconnects := s.reconnects[r := Stopped])
    case ClearSession(r) => s.(connected := false, reconnects := s.reconnects[r := Cleared])
    case Bump(r) => s.(revision := NextRevision(s.revision), reconnects := s.reconnects[r := Bumped])
    case Install(r) => InstallWorker(s, r)
    case Abandon(r) => s.(reconnects := s.reconnects - {r})
  }

  function NextWrite(s: State, c: Command): State
    requires !IsSendStep(c) && !IsReconnectStep(c)
  {
    match c
    case SetStatus(status) => s.(status := status)
    case SetConnected(connected) => s.(connected := connected)
    case SetPaneRoot(root) => s.(paneRoot := root)
    case SetActiveTab(tab) => s.(activeTab := tab)
    case SetActivePanes(panes) => s.(activePanes := panes)
    case Touch => s.(revision := NextRevision(s.revision))
    case DropWorker => s.(worker := None)
    case Unlist => s.(listed := false)
    case ForgetRevision => s.(revision := 0)
  }

  function Next(s: State, c: Command): State
    requires Enabled(s, c)
  {
    if IsSendStep(c) then NextSend(s, c) else if IsReconnectStep(c) then NextReconnect(s, c) else NextWrite(s, c)
  }

  ghost predicate Runnable(s: State, run: seq<Command>)
    decreases run
  {
    run == [] || (Enabled(s, run[0]) && Runnable(Next(s, run[0]), run[1..]))
  }

  function After(s: State, run: seq<Command>): State
    requires Runnable(s, run)
    decreases run
  {
    if run == [] then s else After(Next(s, run[0]), run[1..])
  }

  /** No step of the run changes the status while a reconnect is under way:
      `Connecting` is left after the new worker is installed or given up. */
  ghost predicate Orderly(s: State, run: seq<Command>)
    requires Runnable(s, run)
    decreases run
  {
    run == [] || ((run[0].SetStatus? ==> s.reconnects == map[]) && Orderly(Next(s, run[0]), run[1..]))
  }

  // ----- what every step keeps

  /** What the guards a send holds have pinned down. */
  predicate Pinned(s: State, send: Send) {
    var depth := Depth(send.phase);
    && s.listed && s.status == Connected
    && (depth >= 2 ==> s.activeTab == Some(Root(s)))
    && (depth >= 3 ==> PaneIsActive(s))
    && (depth >= 4 ==> s.connected)
    && (depth >= 5 ==> send.expected.None? || send.expected.value == s.revision)
    && (send.phase.HoldsWorkers? ==> s.worker == Some(send.phase.gen))
  }

  predicate SendsArePinned(s: State) {
    forall k :: k in s.sends ==> Pinned(s, s.sends[k])
  }

  /** At most one reconnect is under way; it keeps the tab `Connecting`, and once
      it has stopped the old worker there is none until it installs its own. */
  predicate OneReconnect(s: State) {
    && s.revision <= MAX_REVISION
    && (forall a, b :: a in s.reconnects && b in s.reconnects ==> a == b)
    && (forall r :: r in s.reconnects ==>
          (s.listed ==> s.status == Connecting) && (s.reconnects[r] != Claimed ==> s.worker.None?))
  }

  lemma WriteKeepsPinned(s: State, c: Command, k: nat)
    requires Enabled(s, c) && !IsSendStep(c) && k in s.sends && Pinned(s, s.sends[k])
    ensures Next(s, c).sends == s.sends && Pinned(Next(s, c), s.sends[k])
  {
  }

  lemma ContinueKeepsPinned(s: State, k: nat)
    requires k in s.sends && SendsArePinned(s)
    ensures var next := ContinueSending(s, k); next == s.(sends := next.sends) && SendsArePinned(next)
  {
    assert Pinned(s, s.sends[k]);
  }

  lemma SendStepKeepsPinned(s: State, c: Command)
    requires Enabled(s, c) && IsSendStep(c) && SendsArePinned(s)
    ensures SendsArePinned(Next(s, c))
  {
    match c
    case BeginSend(k, expected) => assert SendsArePinned(BeginSending(s, k, expected));
    case ContinueSend(k) => ContinueKeepsPinned(s, k);
    case Enqueue(k, accepted) => assert SendsArePinned(EnqueueText(s, k, accepted));
  }

  /** A send keeps what its guards pin, whatever the other commands do. */
  lemma StepKeepsSendsPinned(s: State, c: Command)
    requires Enabled(s, c) && SendsArePinned(s)
    ensures SendsArePinned(Next(s, c))
  {
    if IsSendStep(c) {
      SendStepKeepsPinned(s, c);
    } else {
      var next := Next(s, c);
      forall k | k in next.sends ensures Pinned(next, next.sends[k]) {
        WriteKeepsPinned(s, c, k);
      }
    }
  }

  lemma ContinueKeepsTheRest(s: State, k: nat)
    requires k in s.sends
    ensures var next := ContinueSending(s, k); next == s.(sends := next.sends)
  {
    match s.sends[k].phase
    case HoldsWorkers(_) =>
    case _ =>
  }

  lemma SendStepKeepsTheRest(s: State, c: Command)
    requires Enabled(s, c) && IsSendStep(c)
    ensures var next := NextSend(s, c); next == s.(sends := next.sends, delivered := next.delivered)
    ensures !c.Enqueue? ==> NextSend(s, c).delivered == s.delivered
  {
    if c.ContinueSend? {
      ContinueKeepsTheRest(s, c.sending);
    }
  }

  lemma ReconnectStepKeepsOneReconnect(s: State, c: Command)
    requires Enabled(s, c) && OneReconnect(s) && IsReconnectStep(c)
    ensures OneReconnect(Next(s, c))
  {
  }

  lemma StepKeepsOneReconnect(s: State, c: Command)
    requires Enabled(s, c) && OneReconnect(s)
    requires c.SetStatus? ==> s.reconnects == map[]
    ensures OneReconnect(Next(s, c))
  {
    if IsReconnectStep(c) {
      ReconnectStepKeepsOneReconnect(s, c);
    } else if IsSendStep(c) {
      SendStepKeepsTheRest(s, c);
    }
  }

  /** Only the step that queues the text delivers, and then the tab is the active
      pane of the active tab, it is connected, the revision is the expected one
      and the worker that gets the text is the installed one. */
  lemma DeliveriesAreExact(s: State, c: Command)
    requires Enabled(s, c) && SendsArePinned(s) && Next(s, c).delivered != s.delivered
    ensures c.Enqueue?
    ensures var next, send := Next(s, c), s.sends[c.queued];
            && next.delivered == s.delivered + [Delivery(send.expected, send.phase.gen)]
            && next.worker == Some(send.phase.gen)
            && next.listed && next.status == Connected && next.connected
            && next.activeTab == Some(Root(next)) && PaneIsActive(next)
            && (send.expected.Some? ==> send.expected.value == next.revision)
  {
    if !c.Enqueue? {
      OnlyEnqueueDelivers(s, c);
    } else {
      assert Pinned(s, s.sends[c.queued]);
    }
  }

  lemma OnlyEnqueueDelivers(s: State, c: Command)
    requires Enabled(s, c) && !c.Enqueue?
    ensures Next(s, c).delivered == s.delivered
  {
    if IsSendStep(c) {
      SendStepKeepsTheRest(s, c);
    }
  }

  // ----- approved input never reaches a replacement

  /** Workers are numbered in the order they are installed, and the revision stays
      within its width. */
  predicate Counted(s: State) {
    s.revision <= MAX_REVISION && (s.worker.Some? ==> s.worker.value < s.installed)
  }

  lemma StepKeepsCounted(s: State, c: Command)
    requires Enabled(s, c) && Counted(s)
    ensures Counted(Next(s, c))
  {
    if IsSendStep(c) {
      SendStepKeepsTheRest(s, c);
    }
  }

  /** Once revision `r` was current together with worker `g`: as long as the tab
      is listed and the revision is still `r`, no other worker is installed and
      none is about to be. */
  predicate Since(s: State, r: nat, g: nat) {
    s.listed && s.revision <= r ==>
      && s.revision == r
      && (s.worker.None? || s.worker == Some(g))
      && (forall k :: k in s.reconnects ==> s.reconnects[k] != Bumped)
  }

  lemma StepKeepsSince(s: State, c: Command, r: nat, g: nat)
    requires Enabled(s, c) && Since(s, r, g) && r < MAX_REVISION && s.revision <= MAX_REVISION
    ensures Since(Next(s, c), r, g)
  {
    if IsSendStep(c) {
      SendStepKeepsTheRest(s, c);
    } else if IsReconnectStep(c) {
      ReconnectStepKeepsSince(s, c, r, g);
    }
  }

  lemma ReconnectStepKeepsSince(s: State, c: Command, r: nat, g: nat)
    requires Enabled(s, c) && IsReconnectStep(c)
    requires Since(s, r, g) && r < MAX_REVISION && s.revision <= MAX_REVISION
    ensures Since(NextReconnect(s, c), r, g)
  {
  }

  /** No reconnect has bumped the revision without having installed its worker. */
  predicate NoneIsBumped(s: State) {
    forall k :: k in s.reconnects ==> s.reconnects[k] != Bumped
  }

  lemma {:induction false} DeliveredStays(s: State, run: seq<Command>)
    requires Runnable(s, run) && SendsArePinned(s)
    ensures s.delivered <= After(s, run).delivered
    decreases run
  {
    if run != [] {
      StepKeepsSendsPinned(s, run[0]);
      DeliveredStays(Next(s, run[0]), run[1..]);
      if Next(s, run[0]).delivered != s.delivered {
        DeliveriesAreExact(s, run[0]);
      }
    }
  }

  /** Whatever happens in between, in any order, a text approved for the session as
      it was when revision `r` was current is queued to the worker that was
      installed then, or to none. */
  lemma {:induction false} ApprovedInputStaysWithItsWorker(s: State, run: seq<Command>, r: nat, g: nat)
    requires Runnable(s, run) && Counted(s) && SendsArePinned(s)
    requires Since(s, r, g) && r < MAX_REVISION
    ensures var end := After(s, run).delivered;
            && |end| >= |s.delivered|
            && forall i :: |s.delivered| <= i < |end| && end[i].expected == Some(r) ==> end[i].gen == g
    decreases run
  {
    if run != [] {
      var next := Next(s, run[0]);
      StepKeepsSince(s, run[0], r, g);
      StepKeepsCounted(s, run[0]);
      StepKeepsSendsPinned(s, run[0]);
      ApprovedInputStaysWithItsWorker(next, run[1..], r, g);
      DeliveredStays(next, run[1..]);
      if next.delivered != s.delivered {
        DeliveriesAreExact(s, run[0]);
      }
    }
  }

  // ----- when the guarantee holds

  /** Every text queued by the run for revision `r` went to worker `g`. */
  ghost predicate StaysWith(s: State, end: State, r: nat, g: nat) {
    |end.delivered| >= |s.delivered|
    && forall i :: |s.delivered| <= i < |end.delivered| && end.delivered[i].expected == Some(r) ==>
         end.delivered[i].gen == g
  }

  /** `t` can follow `s`. */
  ghost predicate Leads(s: State, t: State, orderly: bool) {
    exists run :: Follows(s, t, run, orderly)
  }

  ghost predicate Follows(s: State, t: State, run: seq<Command>, orderly: bool) {
    Runnable(s, run) && After(s, run) == t && (orderly ==> Orderly(s, run))
  }

  /** The session as approved now is the only one the approved text can reach. */
  ghost predicate ApprovalHolds(s: State)
    requires s.worker.Some?
  {
    forall t :: Leads(s, t, false) ==> StaysWith(s, t, s.revision, s.worker.value)
  }

  lemma ApprovalHoldsBelowTheLimit(s: State)
    requires Counted(s) && SendsArePinned(s) && s.worker.Some? && s.revision < MAX_REVISION && NoneIsBumped(s)
    ensures ApprovalHolds(s)
  {
    forall t | Leads(s, t, false) ensures StaysWith(s, t, s.revision, s.worker.value) {
      var run :| Follows(s, t, run, false);
      ApprovedInputStaysWithItsWorker(s, run, s.revision, s.worker.value);
    }
  }

  lemma OneStep(s: State, c: Command, orderly: bool) returns (t: State)
    requires Enabled(s, c) && (orderly && c.SetStatus? ==> s.reconnects == map[])
    ensures t == Next(s, c) && Leads(s, t, orderly)
  {
    t := Next(s, c);
    assert Runnable(t, [c][1..]);
    assert Follows(s, t, [c], orderly);
  }

  lemma {:induction false} JoinRuns(s: State, t: State, u: State, a: seq<Command>, b: seq<Command>, orderly: bool)
    requires Follows(s, t, a, orderly) && Follows(t, u, b, orderly)
    ensures Follows(s, u, a + b, orderly)
    decreases a
  {
    if a == [] {
      assert a + b == b;
    } else {
      JoinRuns(Next(s, a[0]), t, u, a[1..], b, orderly);
      assert (a + b)[1..] == a[1..] + b;
    }
  }

  lemma Then(s: State, t: State, u: State, orderly: bool)
    requires Leads(s, t, orderly) && Leads(t, u, orderly)
    ensures Leads(s, u, orderly)
  {
    var a :| Follows(s, t, a, orderly);
    var b :| Follows(t, u, b, orderly);
    JoinRuns(s, t, u, a, b, orderly);
  }

  /** One more step of a run that started at `s`. */
  lemma AndThen(s: State, t: State, c: Command, orderly: bool) returns (u: State)
    requires Leads(s, t, orderly)
    requires Enabled(t, c) && (orderly && c.SetStatus? ==> t.reconnects == map[])
    ensures u == Next(t, c) && Leads(s, u, orderly)
  {
    u := OneStep(t, c, orderly);
    Then(s, t, u, orderly);
  }

  /** A session that has just been listed: its first worker is about to be
      installed. */
  function Opened(tabId: TabId): State {
    State(tabId, true, Connecting, None, None, map[], false, 0, None, 0, map[], map[0 := Bumped], [])
  }

  /** A connected session in the active tab. */
  function Ready(tabId: TabId, revision: nat, gen: nat): State {
    State(tabId, true, Connected, None, Some(tabId), map[], true, revision, Some(gen), gen + 1, map[], map[], [])
  }

  lemma OpenedBecomesReady(tabId: TabId)
    ensures OneReconnect(Opened(tabId)) && SendsArePinned(Opened(tabId))
    ensures Leads(Opened(tabId), Ready(tabId, 0, 0), true)
  {
    var s := Opened(tabId);
    var t := OneStep(s, Install(0), true);
    t := AndThen(s, t, SetStatus(Connected), true);
    t := AndThen(s, t, SetConnected(true), true);
    t := AndThen(s, t, SetActiveTab(Some(tabId)), true);
    assert t == Ready(tabId, 0, 0);
  }

  lemma {:induction false} TouchesReachEveryRevision(tabId: TabId, revision: nat)
    requires revision <= MAX_REVISION
    ensures Leads(Opened(tabId), Ready(tabId, revision, 0), true)
    decreases revision
  {
    if revision == 0 {
      OpenedBecomesReady(tabId);
    } else {
      TouchesReachEveryRevision(tabId, revision - 1);
      var t := AndThen(Opened(tabId), Ready(tabId, revision - 1, 0), Touch, true);
    }
  }

  predicate CanSend(s: State) {
    && s.listed && s.status == Connected && s.connected && s.worker.Some? && s.sends == map[]
    && s.activeTab == Some(Root(s)) && PaneIsActive(s)
  }

  /** The session with one send for the current revision under way. */
  function Sending(s: State, phase: SendPhase): State {
    s.(sends := map[0 := Send(Some(s.revision), phase)])
  }

  function Following(s: State, phase: SendPhase): SendPhase
    requires CanSend(s)
  {
    match phase
    case HoldsTabs => HoldsActiveTab
    case HoldsActiveTab => HoldsActivePanes
    case HoldsActivePanes => HoldsSessions
    case HoldsSessions => HoldsRevisions
    case _ => HoldsWorkers(s.worker.value)
  }

  lemma SendGoesOn(s: State, phase: SendPhase, orderly: bool)
    requires CanSend(s) && !phase.HoldsWorkers?
    ensures Leads(Sending(s, phase), Sending(s, Following(s, phase)), orderly)
  {
    var t := OneStep(Sending(s, phase), ContinueSend(0), orderly);
    assert t == Sending(s, Following(s, phase));
  }

  lemma {:induction false} SendGetsAllGuards(s: State, phase: SendPhase, orderly: bool)
    requires CanSend(s) && !phase.HoldsWorkers?
    ensures Leads(Sending(s, phase), Sending(s, HoldsWorkers(s.worker.value)), orderly)
    decreases 6 - Depth(phase)
  {
    SendGoesOn(s, phase, orderly);
    var next := Following(s, phase);
    if !next.HoldsWorkers? {
      SendGetsAllGuards(s, next, orderly);
      Then(Sending(s, phase), Sending(s, next), Sending(s, HoldsWorkers(s.worker.value)), orderly);
    }
  }

  /** From a ready session a send for the current revision goes through. */
  lemma SendGoesThrough(s: State, orderly: bool) returns (t: State)
    requires CanSend(s)
    ensures Leads(s, t, orderly)
    ensures t.delivered == s.delivered + [Delivery(Some(s.revision), s.worker.value)]
  {
    t := OneStep(s, BeginSend(0, Some(s.revision)), orderly);
    assert t == Sending(s, HoldsTabs);
    var all := Sending(s, HoldsWorkers(s.worker.value));
    SendGetsAllGuards(s, HoldsTabs, orderly);
    Then(s, t, all, orderly);
    t := AndThen(s, all, Enqueue(0, true), orderly);
  }

  /** A ready session whose reconnect `r` is about to install its worker. */
  function Replacing(s: State, r: nat): State {
    s.(status := Connecting, connected := false, worker := None, revision := NextRevision(s.revision),
       reconnects := s.reconnects[r := Bumped])
  }

  lemma ReconnectStops(s: State, r: nat, orderly: bool) returns (t: State)
    requires s.listed && s.status != Connecting && s.sends == map[] && r !in s.reconnects
    ensures Leads(s, t, orderly)
    ensures t == s.(status := Connecting, worker := None, reconnects := s.reconnects[r := Stopped])
  {
    t := OneStep(s, Claim(r), orderly);
    t := AndThen(s, t, StopWorker(r), orderly);
  }

  lemma ReconnectUpToInstall(s: State, r: nat, orderly: bool)
    requires s.listed && s.status != Connecting && s.sends == map[] && r !in s.reconnects
    ensures Leads(s, Replacing(s, r), orderly)
  {
    var t := ReconnectStops(s, r, orderly);
    t := AndThen(s, t, ClearSession(r), orderly);
    t := AndThen(s, t, Bump(r), orderly);
    assert t == Replacing(s, r);
  }

  /** The session after the reconnect `r` about to install its worker has done so
      and connected. */
  function Replaced(s: State, r: nat): State {
    s.(status := Connected, connected := true, worker := Some(s.installed), installed := s.installed + 1,
       reconnects := s.reconnects - {r})
  }

  lemma InstallReplacesTheWorker(s: State, r: nat)
    requires s.sends == map[] && InPhase(s, r, Bumped)
    ensures Leads(s, Replaced(s, r), false)
  {
    var t := OneStep(s, Install(r), false);
    t := AndThen(s, t, SetStatus(Connected), false);
    t := AndThen(s, t, SetConnected(true), false);
    assert t == Replaced(s, r);
  }

  /** A text for the approved revision reaches the worker of the reconnect. */
  lemma ReplacedBreaksIt(s: State, before: State, r: nat)
    requires Counted(s) && CanSend(s)
    requires Leads(s, before, false) && InPhase(before, r, Bumped)
    requires before == s.(status := before.status, connected := before.connected, worker := before.worker,
                          reconnects := before.reconnects)
    ensures !ApprovalHolds(s)
  {
    InstallReplacesTheWorker(before, r);
    Then(s, before, Replaced(before, r), false);
    var t := SendGoesThrough(Replaced(before, r), false);
    Then(s, Replaced(before, r), t, false);
    assert t.delivered[|s.delivered|] == Delivery(Some(s.revision), s.installed);
    assert !StaysWith(s, t, s.revision, s.worker.value);
  }

  lemma UnusedKey(s: State) returns (r: nat)
    ensures r !in s.reconnects
  {
    var bound := LargestKey(s.reconnects.Keys);
    r := bound + 1;
  }

  lemma {:induction false} LargestKey(keys: set<nat>) returns (bound: nat)
    ensures forall k :: k in keys ==> k <= bound
    decreases keys
  {
    if keys == {} {
      bound := 0;
    } else {
      var k :| k in keys;
      var rest := LargestKey(keys - {k});
      bound := if rest < k then k else rest;
      forall other | other in keys ensures other <= bound {
        assert other == k || other in keys - {k};
      }
    }
  }

  /** A session that can be sent to, in whatever state its reconnects are: an approval
      is exact for all that can follow precisely when the revision is below the
      largest one and no reconnect stands between its bump and its install. */
  lemma ApprovalHoldsIff(s: State)
    requires Counted(s) && SendsArePinned(s) && CanSend(s)
    ensures ApprovalHolds(s) <==> s.revision < MAX_REVISION && NoneIsBumped(s)
  {
    if !NoneIsBumped(s) {
      var r :| r in s.reconnects && s.reconnects[r] == Bumped;
      NothingYet(s);
      ReplacedBreaksIt(s, s, r);
    } else if s.revision < MAX_REVISION {
      ApprovalHoldsBelowTheLimit(s);
    } else {
      var r := UnusedKey(s);
      ReconnectUpToInstall(s, r, false);
      ReplacedBreaksIt(s, Replacing(s, r), r);
    }
  }

  lemma NothingYet(s: State)
    ensures Leads(s, s, false)
  {
    assert Follows(s, s, [], false);
  }

  lemma {:induction false} OrderlyRunKeepsOneReconnect(s: State, run: seq<Command>)
    requires Runnable(s, run) && Orderly(s, run) && OneReconnect(s) && SendsArePinned(s) && Counted(s)
    ensures var t := After(s, run); OneReconnect(t) && SendsArePinned(t) && Counted(t)
    decreases run
  {
    if run != [] {
      StepKeepsOneReconnect(s, run[0]);
      StepKeepsSendsPinned(s, run[0]);
      StepKeepsCounted(s, run[0]);
      OrderlyRunKeepsOneReconnect(Next(s, run[0]), run[1..]);
    }
  }

  /** In a session that got there without a status change inside a reconnect only the
      revision counts; every revision can be reached so. */
  lemma ApprovalHoldsInOrderlyRunsIff(tabId: TabId, s: State, revision: nat)
    requires Leads(Opened(tabId), s, true) && CanSend(s) && revision <= MAX_REVISION
    ensures ApprovalHolds(s) <==> s.revision < MAX_REVISION
    ensures Leads(Opened(tabId), Ready(tabId, revision, 0), true) && CanSend(Ready(tabId, revision, 0))
  {
    var run :| Follows(Opened(tabId), s, run, true);
    OpenedBecomesReady(tabId);
    OrderlyRunKeepsOneReconnect(Opened(tabId), run);
    ApprovalHoldsIff(s);
    TouchesReachEveryRevision(tabId, revision);
  }

  /** Two reconnects in flight after a status change let the second one in. */
  function TwoReconnects(tabId: TabId): State {
    State(tabId, true, Connecting, None, Some(tabId), map[], false, 2, None, 1, map[],
          map[1 := Bumped, 2 := Bumped], [])
  }

  lemma StatusChangeLetsASecondReconnectIn(tabId: TabId)
    ensures Leads(Ready(tabId, 0, 0), TwoReconnects(tabId), false)
  {
    var s := Ready(tabId, 0, 0);
    var t := Replacing(s, 1);
    ReconnectUpToInstall(s, 1, false);
    t := AndThen(s, t, SetStatus(Closed), false);
    ReconnectUpToInstall(t, 2, false);
    Then(s, t, Replacing(t, 2), false);
    t := Replacing(t, 2);
    assert t == TwoReconnects(tabId);
  }

  lemma FirstReconnectConnects(tabId: TabId) returns (approved: State)
    ensures Leads(TwoReconnects(tabId), approved, false)
    ensures approved == Ready(tabId, 2, 1).(reconnects := map[2 := Bumped])
  {
    var s := TwoReconnects(tabId);
    approved := OneStep(s, Install(1), false);
    approved := AndThen(s, approved, SetStatus(Connected), false);
    approved := AndThen(s, approved, SetConnected(true), false);
  }

  /** Without the order between a reconnect and the other status changes the
      guarantee is lost: a disconnect that lands inside a reconnect lets a second
      one in, and text approved for the first new worker reaches the other. */
  lemma ADisconnectInsideAReconnectBreaksIt(tabId: TabId)
    ensures exists approved, end ::
              && Leads(Opened(tabId), approved, false) && Leads(approved, end, false)
              && approved.worker == Some(1) && approved.revision < MAX_REVISION
              && end.delivered == approved.delivered + [Delivery(Some(approved.revision), 2)]
  {
    OpenedBecomesReady(tabId);
    DropOrder(Opened(tabId), Ready(tabId, 0, 0));
    StatusChangeLetsASecondReconnectIn(tabId);
    Then(Opened(tabId), Ready(tabId, 0, 0), TwoReconnects(tabId), false);
    var approved := FirstReconnectConnects(tabId);
    Then(Opened(tabId), TwoReconnects(tabId), approved, false);
    var t := OneStep(approved, Install(2), false);
    var end := SendGoesThrough(t, false);
    Then(approved, t, end, false);
  }

  lemma DropOrder(s: State, t: State)
    requires Leads(s, t, true)
    ensures Leads(s, t, false)
  {
    var run :| Follows(s, t, run, true);
    assert Follows(s, t, run, false);
  }
}
