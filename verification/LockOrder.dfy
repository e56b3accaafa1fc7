/** The locks the workspace commands nest, and why they never wait in a circle.

    A command is a program of guards with block scope. Requests for one lock are
    served first come, first served: a reader waits behind a writer that asked
    before it. The commands do not share one order: exact send takes the active
    panes before the sessions, closing a tab takes them the other way round. */
module LockOrder {
  import opened Wrappers
  import opened Sequences

  /** `Other` stands for the locks under which no further lock is asked for: worker
      queues and controls, launch settings, log writers and the like. They may be
      taken while the others are held. */
  datatype Lock =
    | Library
    | Snapshot
    | Tabs
    | ActiveTab
    | ActivePanes
    | Sessions
    | Revisions
    | Workers
    | Other(index: nat)

  datatype Mode = Read | Write

  datatype Guard = Guard(lock: Lock, mode: Mode)

  /** What a command does with guards. `During` holds a guard for its body. */
  datatype Program =
    | Skip
    | Both(first: Program, second: Program)
    | During(guard: Guard, body: Program)
    | Repeat(times: nat, each: Program)

  datatype Step = Acquire(guard: Guard) | Release(guard: Guard)

  function Flatten(p: Program): seq<Step>
    decreases p, 0
  {
    match p
    case Skip => []
    case Both(a, b) => Flatten(a) + Flatten(b)
    case During(g, body) => [Acquire(g)] + (Flatten(body) + [Release(g)])
    case Repeat(n, each) => FlattenTimes(n, each)
  }

  function FlattenTimes(n: nat, each: Program): seq<Step>
    decreases each, n + 1
  {
    if n == 0 then [] else Flatten(each) + FlattenTimes(n - 1, each)
  }

  // ----- the discipline

  /** The order of exact send. */
  function ReadRank(lock: Lock): nat {
    match lock
    case Library => 0
    case Snapshot => 1
    case Tabs => 2
    case ActiveTab => 3
    case ActivePanes => 4
    case Sessions => 5
    case Revisions => 6
    case Workers => 7
    case Other(_) => 8
  }

  /** The order of a command that is rewriting the tabs. */
  function WriteRank(lock: Lock): nat {
    match lock
    case ActivePanes => 9
    case _ => ReadRank(lock)
  }

  /** What may be asked for while these guards are held. The tabs lock decides:
      its writer follows one order, its readers the other, and a command without
      it must follow both. */
  predicate MayAsk(held: set<Guard>, lock: Lock) {
    && !(Guard(Tabs, Write) in held && Guard(Tabs, Read) in held)
    && (Guard(Tabs, Write) !in held ==> forall g :: g in held ==> ReadRank(g.lock) < ReadRank(lock))
    && (Guard(Tabs, Read) !in held ==> forall g :: g in held ==> WriteRank(g.lock) < WriteRank(lock))
  }

  predicate Disciplined(held: set<Guard>, todo: seq<Step>)
    decreases todo
  {
    todo == [] ||
    match todo[0]
    case Acquire(g) => MayAsk(held, g.lock) && Disciplined(held + {g}, todo[1..])
    case Release(g) => Disciplined(held - {g}, todo[1..])
  }

  /** What matters of a set of guards: the highest rank in each order, and the mode
      in which the tabs are held. */
  datatype Level = Level(read: int, write: int, tabs: Option<Mode>)

  const NOTHING_HELD := Level(-1, -1, None)

  predicate MayTake(level: Level, lock: Lock) {
    && (level.tabs != Some(Write) ==> level.read < ReadRank(lock))
    && (level.tabs != Some(Read) ==> level.write < WriteRank(lock))
  }

  function Raised(level: Level, g: Guard): Level {
    Level(if level.read < ReadRank(g.lock) then ReadRank(g.lock) else level.read,
          if level.write < WriteRank(g.lock) then WriteRank(g.lock) else level.write,
          if g.lock == Tabs then Some(g.mode) else level.tabs)
  }

  /** Every guard of the program is taken in order, from this level on. */
  predicate Sound(level: Level, p: Program)
    decreases p
  {
    match p
    case Skip => true
    case Both(a, b) => Sound(level, a) && Sound(level, b)
    case During(g, body) => MayTake(level, g.lock) && Sound(Raised(level, g), body)
    case Repeat(_, each) => Sound(level, each)
  }

  predicate Covers(level: Level, held: set<Guard>) {
    && (forall g :: g in held ==> ReadRank(g.lock) <= level.read && WriteRank(g.lock) <= level.write)
    && (Guard(Tabs, Read) in held <==> level.tabs == Some(Read))
    && (Guard(Tabs, Write) in held <==> level.tabs == Some(Write))
  }

  lemma TakingIsAllowed(level: Level, held: set<Guard>, g: Guard)
    requires Covers(level, held) && MayTake(level, g.lock)
    ensures MayAsk(held, g.lock) && g !in held && Covers(Raised(level, g), held + {g})
  {
    assert level.tabs == Some(Read) ==> Guard(Tabs, Read) in held && g.lock != Tabs;
    assert level.tabs == Some(Write) ==> Guard(Tabs, Write) in held && g.lock != Tabs;
  }

  lemma {:induction false} SoundIsDisciplined(level: Level, held: set<Guard>, p: Program, rest: seq<Step>)
    requires Covers(level, held) && Sound(level, p) && Disciplined(held, rest)
    ensures Disciplined(held, Flatten(p) + rest)
    decreases p, 0
  {
    match p
    case Skip =>
      assert [] + rest == rest;
    case Both(a, b) =>
      SoundIsDisciplined(level, held, b, rest);
      SoundIsDisciplined(level, held, a, Flatten(b) + rest);
      assert Flatten(a) + Flatten(b) + rest == Flatten(a) + (Flatten(b) + rest);
    case During(g, body) =>
      TakingIsAllowed(level, held, g);
      var tail := [Release(g)] + rest;
      assert tail[1..] == rest;
      assert held + {g} - {g} == held;
      SoundIsDisciplined(Raised(level, g), held + {g}, body, tail);
      var all := Flatten(p) + rest;
      assert all[1..] == Flatten(body) + tail;
    case Repeat(n, each) =>
      RepeatIsDisciplined(level, held, n, each, rest);
  }

  lemma {:induction false} RepeatIsDisciplined(level: Level, held: set<Guard>, n: nat, each: Program, rest: seq<Step>)
    requires Covers(level, held) && Sound(level, each) && Disciplined(held, rest)
    ensures Disciplined(held, FlattenTimes(n, each) + rest)
    decreases each, n + 1
  {
    if n == 0 {
      assert [] + rest == rest;
    } else {
      RepeatIsDisciplined(level, held, n - 1, each, rest);
      SoundIsDisciplined(level, held, each, FlattenTimes(n - 1, each) + rest);
      assert Flatten(each) + FlattenTimes(n - 1, each) + rest == Flatten(each) + (FlattenTimes(n - 1, each) + rest);
    }
  }

  // ----- the commands

  function One(lock: Lock, mode: Mode): Program {
    During(Guard(lock, mode), Skip)
  }

  function Then(a: Program, b: Program, c: Program): Program {
    Both(a, Both(b, c))
  }

  /** `send_exact_active_terminal_input`. */
  const EXACT_SEND: Program :=
    During(Guard(Tabs, Read),
      During(Guard(ActiveTab, Read),
        During(Guard(ActivePanes, Read),
          During(Guard(Sessions, Read),
            During(Guard(Revisions, Read),
              One(Workers, Read))))))

  /** The per-session maps, each written on its own. */
  const MAPS: Program := Repeat(9, One(Other(0), Write))

  const TOUCH: Program := One(Revisions, Write)

  const STOP_WORKER: Program := Both(MAPS, One(Workers, Write))

  const SNAPSHOT: Program :=
    During(Guard(Snapshot, Write),
      Then(Both(One(Tabs, Read), One(ActiveTab, Read)),
           Both(One(Sessions, Read), One(Revisions, Read)),
           Both(One(Other(1), Read), One(ActivePanes, Read))))

  const LOCKED_SNAPSHOT: Program := During(Guard(Library, Write), SNAPSHOT)

  const SPAWN: Program :=
    Then(During(Guard(Tabs, Write), One(Sessions, Write)), One(Workers, Write), MAPS)

  const SET_STATE: Program := Then(One(Tabs, Write), One(Sessions, Write), TOUCH)

  /** Opening a profile under the library lock; only a caller in the window moves the
      focus to the new tab. */
  function OpenProfile(activate: bool): Program {
    During(Guard(Library, Write), Then(SPAWN, if activate then One(ActiveTab, Write) else Skip, SNAPSHOT))
  }

  /** The entries of a shell that does not start are taken out again and its state is
      set. */
  const SHELL_FAILED: Program := Then(STOP_WORKER, SET_STATE, LOCKED_SNAPSHOT)

  /** A local shell is opened without that lock. */
  function OpenShell(started: bool): Program {
    Then(SPAWN, if started then Skip else SHELL_FAILED, Both(One(ActiveTab, Write), LOCKED_SNAPSHOT))
  }

  const ROLL_BACK: Program :=
    Then(Both(STOP_WORKER, One(Tabs, Write)), Both(One(Sessions, Write), MAPS), Both(One(ActivePanes, Write), TOUCH))

  /** A split, with either of its two endings. */
  function Split(attached: bool): Program {
    During(Guard(Library, Write),
      Then(Then(One(Tabs, Read), One(Other(2), Read), One(Sessions, Read)),
           Then(SPAWN, SET_STATE, One(Tabs, Write)),
           if attached
           then Then(During(Guard(ActiveTab, Write), One(ActivePanes, Write)), Repeat(2, TOUCH), SNAPSHOT)
           else ROLL_BACK))
  }

  /** Closing a pane that leaves `remaining` leaves. */
  function ClosePane(remaining: nat): Program {
    During(Guard(Library, Write),
      Then(Then(One(Tabs, Read), One(ActivePanes, Read), STOP_WORKER),
           Then(One(Tabs, Write), One(Sessions, Write), TOUCH),
           Then(Both(One(ActiveTab, Write), One(ActivePanes, Write)), Repeat(remaining, TOUCH), SNAPSHOT)))
  }

  /** What both ways to close a tab do inside their guard on the tabs. */
  function Rewriting(launches: Program): Program {
    During(Guard(Sessions, Write), Both(launches, One(ActivePanes, Write)))
  }

  const REWRITE_FOR_LEAF: Program := During(Guard(Tabs, Write), Rewriting(One(Other(2), Write)))

  function RewriteForTab(leaves: nat): Program {
    During(Guard(Tabs, Write), During(Guard(ActiveTab, Write), Rewriting(Repeat(leaves, One(Other(2), Write)))))
  }

  const CLOSE_LEAF: Program :=
    Then(Then(Repeat(2, One(Tabs, Read)), STOP_WORKER, MAPS), REWRITE_FOR_LEAF, Both(TOUCH, LOCKED_SNAPSHOT))

  /** Closing a tab and all its `leaves`. */
  function CloseTab(leaves: nat): Program {
    Then(Both(Repeat(2, One(Tabs, Read)), Repeat(leaves, Both(STOP_WORKER, MAPS))), RewriteForTab(leaves),
         Both(Repeat(leaves, TOUCH), LOCKED_SNAPSHOT))
  }

  const DISCONNECT: Program :=
    Then(Then(One(Sessions, Read), STOP_WORKER, MAPS),
         During(Guard(Tabs, Write), One(Sessions, Write)),
         Then(TOUCH, SET_STATE, Repeat(2, LOCKED_SNAPSHOT)))

  const RECONNECT: Program :=
    Then(Then(One(Tabs, Read), One(Tabs, Write), STOP_WORKER),
         Then(One(Sessions, Write), TOUCH, LOCKED_SNAPSHOT),
         Then(One(Workers, Write), MAPS, LOCKED_SNAPSHOT))

  datatype Command =
    | ExactSend
    | OpenProfileTab(activate: bool)
    | OpenLocalShell(started: bool)
    | SplitTab(attached: bool)
    | ClosePaneOf(remaining: nat)
    | CloseLeafTab
    | CloseTabWith(leaves: nat)
    | Disconnect
    | Reconnect
    | SetState
    | TakeSnapshot
    | TakeLockedSnapshot

  function ProgramOf(c: Command): Program {
    match c
    case ExactSend => EXACT_SEND
    case OpenProfileTab(activate) => OpenProfile(activate)
    case OpenLocalShell(started) => OpenShell(started)
    case SplitTab(attached) => Split(attached)
    case ClosePaneOf(remaining) => ClosePane(remaining)
    case CloseLeafTab => CLOSE_LEAF
    case CloseTabWith(leaves) => CloseTab(leaves)
    case Disconnect => DISCONNECT
    case Reconnect => RECONNECT
    case SetState => SET_STATE
    case TakeSnapshot => SNAPSHOT
    case TakeLockedSnapshot => LOCKED_SNAPSHOT
  }

  const LIBRARY_HELD := Level(0, 0, None)

  /** The parts that are shared, with the library lock held or not. */
  lemma MapsAreSound(level: Level)
    requires level == NOTHING_HELD || level == LIBRARY_HELD
    ensures Sound(level, MAPS) && Sound(level, TOUCH) && Sound(level, STOP_WORKER)
  {
  }

  lemma SnapshotIsSound(level: Level)
    requires level == NOTHING_HELD || level == LIBRARY_HELD
    ensures Sound(level, SNAPSHOT)
  {
  }

  lemma PartsAreSound(level: Level)
    requires level == NOTHING_HELD || level == LIBRARY_HELD
    ensures Sound(level, SPAWN) && Sound(level, SET_STATE) && Sound(level, ROLL_BACK)
  {
    MapsAreSound(level);
  }

  lemma LockedSnapshotIsSound()
    ensures Sound(NOTHING_HELD, LOCKED_SNAPSHOT)
  {
    SnapshotIsSound(LIBRARY_HELD);
  }

  /** A split under the library lock, also when it rolls back. */
  lemma SplitIsSound(attached: bool)
    ensures Sound(NOTHING_HELD, Split(attached))
  {
    MapsAreSound(LIBRARY_HELD);
    PartsAreSound(LIBRARY_HELD);
    SnapshotIsSound(LIBRARY_HELD);
  }

  /** Opening a profile takes its snapshot under the library lock it already has. */
  lemma OpenProfileIsSound(activate: bool)
    ensures Sound(NOTHING_HELD, OpenProfile(activate))
  {
    PartsAreSound(LIBRARY_HELD);
    SnapshotIsSound(LIBRARY_HELD);
  }

  /** Opening a local shell takes that lock for its snapshots only. */
  lemma OpenShellIsSound(started: bool)
    ensures Sound(NOTHING_HELD, OpenShell(started))
  {
    PartsAreSound(NOTHING_HELD);
    LockedSnapshotIsSound();
    ShellFailedIsSound();
    OneIsSound(NOTHING_HELD, ActiveTab, Write);
    ThenIsSound(NOTHING_HELD, SPAWN, if started then Skip else SHELL_FAILED, Both(One(ActiveTab, Write), LOCKED_SNAPSHOT));
  }

  lemma ShellFailedIsSound()
    ensures Sound(NOTHING_HELD, SHELL_FAILED)
  {
    MapsAreSound(NOTHING_HELD);
    PartsAreSound(NOTHING_HELD);
    LockedSnapshotIsSound();
    ThenIsSound(NOTHING_HELD, STOP_WORKER, SET_STATE, LOCKED_SNAPSHOT);
  }

  lemma OneIsSound(level: Level, lock: Lock, mode: Mode)
    requires MayTake(level, lock)
    ensures Sound(level, One(lock, mode))
  {
  }

  lemma ThenIsSound(level: Level, a: Program, b: Program, c: Program)
    requires Sound(level, a) && Sound(level, b) && Sound(level, c)
    ensures Sound(level, Then(a, b, c))
  {
  }

  lemma ClosePaneIsSound(remaining: nat)
    ensures Sound(NOTHING_HELD, ClosePane(remaining))
  {
    MapsAreSound(LIBRARY_HELD);
    SnapshotIsSound(LIBRARY_HELD);
    OneIsSound(LIBRARY_HELD, ActiveTab, Write);
    OneIsSound(LIBRARY_HELD, ActivePanes, Write);
    var focus := Both(One(ActiveTab, Write), One(ActivePanes, Write));
    ThenIsSound(LIBRARY_HELD, focus, Repeat(remaining, TOUCH), SNAPSHOT);
    assert Sound(LIBRARY_HELD, Then(One(Tabs, Read), One(ActivePanes, Read), STOP_WORKER));
    assert Sound(LIBRARY_HELD, Then(One(Tabs, Write), One(Sessions, Write), TOUCH));
    ThenIsSound(LIBRARY_HELD, Then(One(Tabs, Read), One(ActivePanes, Read), STOP_WORKER),
                Then(One(Tabs, Write), One(Sessions, Write), TOUCH), Then(focus, Repeat(remaining, TOUCH), SNAPSHOT));
  }

  /** The tabs are being rewritten: the sessions come before the active panes. */
  lemma RewritingIsSound(level: Level, launches: Program)
    requires level.tabs == Some(Write) && level.write < WriteRank(Sessions)
    requires Sound(Raised(level, Guard(Sessions, Write)), launches)
    ensures Sound(level, Rewriting(launches))
  {
  }

  lemma RewriteForLeafIsSound()
    ensures Sound(NOTHING_HELD, REWRITE_FOR_LEAF)
  {
    var tabsHeld := Raised(NOTHING_HELD, Guard(Tabs, Write));
    OneIsSound(Raised(tabsHeld, Guard(Sessions, Write)), Other(2), Write);
    RewritingIsSound(tabsHeld, One(Other(2), Write));
  }

  lemma RewriteForTabIsSound(leaves: nat)
    ensures Sound(NOTHING_HELD, RewriteForTab(leaves))
  {
    var tabsHeld := Raised(NOTHING_HELD, Guard(Tabs, Write));
    var activeHeld := Raised(tabsHeld, Guard(ActiveTab, Write));
    OneIsSound(Raised(activeHeld, Guard(Sessions, Write)), Other(2), Write);
    var launches := Repeat(leaves, One(Other(2), Write));
    RewritingIsSound(activeHeld, launches);
    assert Sound(tabsHeld, During(Guard(ActiveTab, Write), Rewriting(launches)));
  }

  lemma CloseLeafIsSound(level: Level)
    requires level == NOTHING_HELD
    ensures Sound(level, CLOSE_LEAF)
  {
    MapsAreSound(level);
    LockedSnapshotIsSound();
    OneIsSound(level, Tabs, Read);
    RewriteForLeafIsSound();
    ThenIsSound(level, Repeat(2, One(Tabs, Read)), STOP_WORKER, MAPS);
    ThenIsSound(level, Then(Repeat(2, One(Tabs, Read)), STOP_WORKER, MAPS), REWRITE_FOR_LEAF, Both(TOUCH, LOCKED_SNAPSHOT));
  }

  lemma CloseTabIsSound(level: Level, leaves: nat)
    requires level == NOTHING_HELD
    ensures Sound(level, CloseTab(leaves))
  {
    MapsAreSound(level);
    LockedSnapshotIsSound();
    OneIsSound(level, Tabs, Read);
    RewriteForTabIsSound(leaves);
    ThenIsSound(level, Both(Repeat(2, One(Tabs, Read)), Repeat(leaves, Both(STOP_WORKER, MAPS))),
                RewriteForTab(leaves), Both(Repeat(leaves, TOUCH), LOCKED_SNAPSHOT));
  }

  lemma DisconnectIsSound(level: Level)
    requires level == NOTHING_HELD
    ensures Sound(level, DISCONNECT)
  {
    MapsAreSound(level);
    PartsAreSound(level);
    LockedSnapshotIsSound();
    OneIsSound(level, Sessions, Read);
    OneIsSound(Raised(level, Guard(Tabs, Write)), Sessions, Write);
    ThenIsSound(level, One(Sessions, Read), STOP_WORKER, MAPS);
    ThenIsSound(level, TOUCH, SET_STATE, Repeat(2, LOCKED_SNAPSHOT));
    ThenIsSound(level, Then(One(Sessions, Read), STOP_WORKER, MAPS), During(Guard(Tabs, Write), One(Sessions, Write)),
                Then(TOUCH, SET_STATE, Repeat(2, LOCKED_SNAPSHOT)));
  }

  lemma ReconnectIsSound(level: Level)
    requires level == NOTHING_HELD
    ensures Sound(level, RECONNECT)
  {
    MapsAreSound(level);
    LockedSnapshotIsSound();
    OneIsSound(level, Tabs, Read);
    OneIsSound(level, Tabs, Write);
    OneIsSound(level, Sessions, Write);
    OneIsSound(level, Workers, Write);
    ThenIsSound(level, One(Tabs, Read), One(Tabs, Write), STOP_WORKER);
    ThenIsSound(level, One(Sessions, Write), TOUCH, LOCKED_SNAPSHOT);
    ThenIsSound(level, One(Workers, Write), MAPS, LOCKED_SNAPSHOT);
    ThenIsSound(level, Then(One(Tabs, Read), One(Tabs, Write), STOP_WORKER),
                Then(One(Sessions, Write), TOUCH, LOCKED_SNAPSHOT), Then(One(Workers, Write), MAPS, LOCKED_SNAPSHOT));
  }

  /** Tabs, active tab, active panes, sessions, revisions, workers: the order of
      the tabs' readers. */
  lemma ExactSendIsSound()
    ensures Sound(NOTHING_HELD, EXACT_SEND)
  {
  }

  lemma EveryCommandIsSound(c: Command)
    ensures Sound(NOTHING_HELD, ProgramOf(c))
  {
    PartsAreSound(NOTHING_HELD);
    SnapshotIsSound(NOTHING_HELD);
    match c
    case ExactSend => ExactSendIsSound();
    case OpenProfileTab(activate) => OpenProfileIsSound(activate);
    case OpenLocalShell(started) => OpenShellIsSound(started);
    case SplitTab(attached) => SplitIsSound(attached);
    case ClosePaneOf(remaining) => ClosePaneIsSound(remaining);
    case CloseLeafTab => CloseLeafIsSound(NOTHING_HELD);
    case CloseTabWith(leaves) => CloseTabIsSound(NOTHING_HELD, leaves);
    case Disconnect => DisconnectIsSound(NOTHING_HELD);
    case Reconnect => ReconnectIsSound(NOTHING_HELD);
    case TakeLockedSnapshot => LockedSnapshotIsSound();
    case _ =>
  }

  // ----- processes and queues

  datatype Process = Process(held: set<Guard>, todo: seq<Step>, waiting: bool)

  datatype System = System(processes: map<nat, Process>, queues: map<Lock, seq<nat>>)

  const IDLE := System(map[], map[])

  function Queue(s: System, lock: Lock): seq<nat> {
    if lock in s.queues then s.queues[lock] else []
  }

  predicate Asks(p: Process) {
    p.todo != [] && p.todo[0].Acquire?
  }

  datatype Move =
    | Start(started: nat, command: Command)
    | Ask(asking: nat)
    | Grant(granted: Lock)
    | Let(releasing: nat)
    | Quit(leaving: nat)

  predicate Conflicts(a: Mode, b: Mode) {
    a == Write || b == Write
  }

  /** Nobody holds the lock in a mode that keeps this guard out. */
  predicate Compatible(s: System, g: Guard) {
    forall p :: p in s.processes ==> forall h :: h in s.processes[p].held ==>
      h.lock == g.lock ==> !Conflicts(h.mode, g.mode)
  }

  predicate CanGrant(s: System, lock: Lock) {
    var queue := Queue(s, lock);
    && queue != [] && queue[0] in s.processes && Asks(s.processes[queue[0]])
    && Compatible(s, s.processes[queue[0]].todo[0].guard)
  }

  predicate CanAsk(s: System, p: nat) {
    p in s.processes && !s.processes[p].waiting && Asks(s.processes[p])
  }

  predicate CanLet(s: System, p: nat) {
    p in s.processes && !s.processes[p].waiting && s.processes[p].todo != [] && s.processes[p].todo[0].Release?
  }

  /** A command may quit between two waits: it has ended, or it returned an error
      and dropped its guards. */
  predicate Enabled(s: System, m: Move) {
    match m
    case Start(p, _) => p !in s.processes
    case Ask(p) => CanAsk(s, p)
    case Grant(lock) => CanGrant(s, lock)
    case Let(p) => CanLet(s, p)
    case Quit(p) => p in s.processes && !s.processes[p].waiting
  }

  function Asked(s: System, p: nat): System
    requires CanAsk(s, p)
  {
    var lock := s.processes[p].todo[0].guard.lock;
    System(s.processes[p := s.processes[p].(waiting := true)], s.queues[lock := Queue(s, lock) + [p]])
  }

  function Granted(s: System, lock: Lock): System
    requires CanGrant(s, lock)
  {
    var p := Queue(s, lock)[0];
    var process := s.processes[p];
    System(s.processes[p := Process(process.held + {process.todo[0].guard}, process.todo[1..], false)],
           s.queues[lock := Queue(s, lock)[1..]])
  }

  function LetGo(s: System, p: nat): System
    requires CanLet(s, p)
  {
    var process := s.processes[p];
    s.(processes := s.processes[p := Process(process.held - {process.todo[0].guard}, process.todo[1..], false)])
  }

  function Next(s: System, m: Move): System
    requires Enabled(s, m)
  {
    match m
    case Start(p, c) => s.(processes := s.processes[p := Process({}, Flatten(ProgramOf(c)), false)])
    case Ask(p) => Asked(s, p)
    case Grant(lock) => Granted(s, lock)
    case Let(p) => LetGo(s, p)
    case Quit(p) => s.(processes := s.processes - {p})
  }

  // ----- the invariant

  predicate ProcessesAreDisciplined(s: System) {
    forall p :: p in s.processes ==> Disciplined(s.processes[p].held, s.processes[p].todo)
  }

  /** A process is queued for exactly the lock it waits for, once. */
  ghost predicate QueuesMatch(s: System) {
    && (forall p :: p in s.processes && s.processes[p].waiting ==>
          Asks(s.processes[p]) && p in Queue(s, s.processes[p].todo[0].guard.lock))
    && (forall lock, i :: 0 <= i < |Queue(s, lock)| ==> IsQueuedFor(s, Queue(s, lock)[i], lock))
    && (forall lock :: Distinct(Queue(s, lock)))
  }

  predicate IsQueuedFor(s: System, p: nat, lock: Lock) {
    p in s.processes && s.processes[p].waiting && Asks(s.processes[p]) && s.processes[p].todo[0].guard.lock == lock
  }

  predicate Apart(held: set<Guard>, other: set<Guard>) {
    forall g, h :: g in held && h in other && g.lock == h.lock ==> !Conflicts(g.mode, h.mode)
  }

  /** Guards of different processes never conflict. */
  predicate GuardsExclude(s: System) {
    forall p, q :: p in s.processes && q in s.processes && p != q ==>
      Apart(s.processes[p].held, s.processes[q].held)
  }

  ghost predicate Inv(s: System) {
    ProcessesAreDisciplined(s) && QueuesMatch(s) && GuardsExclude(s)
  }

  lemma StepKeepsDiscipline(s: System, m: Move)
    requires ProcessesAreDisciplined(s) && Enabled(s, m)
    ensures ProcessesAreDisciplined(Next(s, m))
  {
    if m.Start? {
      EveryCommandIsSound(m.command);
      SoundIsDisciplined(NOTHING_HELD, {}, ProgramOf(m.command), []);
      assert Flatten(ProgramOf(m.command)) + [] == Flatten(ProgramOf(m.command));
    }
  }

  lemma AskKeepsQueues(s: System, p: nat)
    requires QueuesMatch(s) && CanAsk(s, p)
    ensures QueuesMatch(Asked(s, p))
  {
    var lock := s.processes[p].todo[0].guard.lock;
    var next := Asked(s, p);
    assert forall i :: 0 <= i < |Queue(s, lock)| ==> IsQueuedFor(s, Queue(s, lock)[i], lock);
    forall other, i | 0 <= i < |Queue(next, other)| ensures IsQueuedFor(next, Queue(next, other)[i], other) {
      if other != lock || i < |Queue(s, lock)| {
        assert IsQueuedFor(s, Queue(s, other)[i], other);
      }
    }
    forall other ensures Distinct(Queue(next, other)) {
      assert Distinct(Queue(s, other));
    }
  }

  lemma GrantKeepsQueues(s: System, lock: Lock)
    requires QueuesMatch(s) && CanGrant(s, lock)
    ensures QueuesMatch(Granted(s, lock))
  {
    var next := Granted(s, lock);
    var queue := Queue(s, lock);
    assert Distinct(queue);
    assert IsQueuedFor(s, queue[0], lock);
    forall other, i | 0 <= i < |Queue(next, other)| ensures IsQueuedFor(next, Queue(next, other)[i], other) {
      if other == lock {
        assert queue[i + 1] != queue[0];
        assert IsQueuedFor(s, queue[i + 1], lock);
      } else {
        assert IsQueuedFor(s, Queue(s, other)[i], other);
      }
    }
    forall other ensures Distinct(Queue(next, other)) {
      assert Distinct(Queue(s, other));
    }
  }

  lemma OthersKeepQueues(s: System, m: Move)
    requires QueuesMatch(s) && Enabled(s, m) && !m.Ask? && !m.Grant?
    ensures QueuesMatch(Next(s, m))
  {
    var next := Next(s, m);
    forall lock, i | 0 <= i < |Queue(next, lock)| ensures IsQueuedFor(next, Queue(next, lock)[i], lock) {
      assert IsQueuedFor(s, Queue(s, lock)[i], lock);
    }
    forall lock ensures Distinct(Queue(next, lock)) {
      assert Distinct(Queue(s, lock));
    }
  }

  lemma StepKeepsQueues(s: System, m: Move)
    requires QueuesMatch(s) && Enabled(s, m)
    ensures QueuesMatch(Next(s, m))
  {
    match m
    case Ask(p) => AskKeepsQueues(s, p);
    case Grant(lock) => GrantKeepsQueues(s, lock);
    case _ => OthersKeepQueues(s, m);
  }

  /** A process whose guards conflict with no other's takes the place of `p`. */
  lemma ReplaceKeepsExclusion(s: System, next: System, p: nat)
    requires GuardsExclude(s) && p in next.processes
    requires forall q :: q in next.processes && q != p ==> q in s.processes && next.processes[q] == s.processes[q]
    requires forall q :: q in next.processes && q != p ==>
               Apart(next.processes[p].held, s.processes[q].held) && Apart(s.processes[q].held, next.processes[p].held)
    ensures GuardsExclude(next)
  {
  }

  lemma ApartBothWays(a: set<Guard>, b: set<Guard>)
    requires Apart(a, b)
    ensures Apart(b, a)
  {
  }

  lemma GrantKeepsExclusion(s: System, lock: Lock)
    requires GuardsExclude(s) && CanGrant(s, lock)
    ensures GuardsExclude(Granted(s, lock))
  {
    var p := Queue(s, lock)[0];
    var next := Granted(s, lock);
    forall q | q in next.processes && q != p
      ensures Apart(next.processes[p].held, s.processes[q].held) && Apart(s.processes[q].held, next.processes[p].held)
    {
      assert Apart(s.processes[p].held, s.processes[q].held);
      assert Apart(next.processes[p].held, s.processes[q].held);
      ApartBothWays(next.processes[p].held, s.processes[q].held);
    }
    ReplaceKeepsExclusion(s, next, p);
  }

  lemma LetKeepsExclusion(s: System, p: nat)
    requires GuardsExclude(s) && CanLet(s, p)
    ensures GuardsExclude(LetGo(s, p))
  {
  }

  lemma SameGuardsExclude(s: System, next: System)
    requires GuardsExclude(s)
    requires forall p :: p in next.processes ==>
               next.processes[p].held == {} || (p in s.processes && next.processes[p].held == s.processes[p].held)
    ensures GuardsExclude(next)
  {
  }

  lemma StepKeepsExclusion(s: System, m: Move)
    requires GuardsExclude(s) && Enabled(s, m)
    ensures GuardsExclude(Next(s, m))
  {
    match m
    case Grant(lock) => GrantKeepsExclusion(s, lock);
    case Let(p) => LetKeepsExclusion(s, p);
    case _ => SameGuardsExclude(s, Next(s, m));
  }

  ghost predicate Runnable(s: System, run: seq<Move>)
    decreases run
  {
    run == [] || (Enabled(s, run[0]) && Runnable(Next(s, run[0]), run[1..]))
  }

  function After(s: System, run: seq<Move>): System
    requires Runnable(s, run)
    decreases run
  {
    if run == [] then s else After(Next(s, run[0]), run[1..])
  }

  lemma {:induction false} EveryRunKeepsInv(s: System, run: seq<Move>)
    requires Inv(s) && Runnable(s, run)
    ensures Inv(After(s, run))
    decreases run
  {
    if run != [] {
      StepKeepsDiscipline(s, run[0]);
      StepKeepsQueues(s, run[0]);
      StepKeepsExclusion(s, run[0]);
      EveryRunKeepsInv(Next(s, run[0]), run[1..]);
    }
  }

  // ----- no circle of waiting processes

  predicate Waits(s: System, p: nat) {
    p in s.processes && s.processes[p].waiting && Asks(s.processes[p])
  }

  function LockOf(s: System, p: nat): Lock
    requires Waits(s, p)
  {
    s.processes[p].todo[0].guard.lock
  }

  predicate Holds(s: System, p: nat, lock: Lock) {
    p in s.processes && exists g :: g in s.processes[p].held && g.lock == lock
  }

  /** `p` cannot go on before `q` does: `q` holds the lock, or asked first. */
  predicate WaitsFor(s: System, p: nat, q: nat) {
    Waits(s, p) &&
    (Holds(s, q, LockOf(s, p))
     || (Waits(s, q) && LockOf(s, q) == LockOf(s, p)
         && IndexOf(Queue(s, LockOf(s, p)), q) < IndexOf(Queue(s, LockOf(s, p)), p)))
  }

  predicate RewritesTabs(s: System, p: nat) {
    p in s.processes && Guard(Tabs, Write) in s.processes[p].held
  }

  /** Which order counts now: the writer's while someone is rewriting the tabs. */
  function Rank(s: System, lock: Lock): nat {
    if exists p :: p in s.processes && RewritesTabs(s, p) then WriteRank(lock) else ReadRank(lock)
  }

  lemma HeldBelowAsked(s: System, p: nat, g: Guard)
    requires Inv(s) && Waits(s, p) && g in s.processes[p].held
    ensures Rank(s, g.lock) < Rank(s, LockOf(s, p))
  {
    var held := s.processes[p].held;
    assert MayAsk(held, LockOf(s, p));
    if w :| w in s.processes && RewritesTabs(s, w) {
      assert w != p ==> Apart(held, s.processes[w].held);
      assert Guard(Tabs, Read) !in held;
    } else {
      assert !RewritesTabs(s, p);
    }
  }

  predicate Before(s: System, p: nat, q: nat) {
    && Waits(s, p) && Waits(s, q)
    && (Rank(s, LockOf(s, p)) < Rank(s, LockOf(s, q))
        || (LockOf(s, q) == LockOf(s, p)
            && IndexOf(Queue(s, LockOf(s, p)), q) < IndexOf(Queue(s, LockOf(s, p)), p)))
  }

  lemma WaitingGoesUp(s: System, p: nat, q: nat)
    requires Inv(s) && WaitsFor(s, p, q) && Waits(s, q)
    ensures Before(s, p, q)
  {
    if Holds(s, q, LockOf(s, p)) {
      var g :| g in s.processes[q].held && g.lock == LockOf(s, p);
      HeldBelowAsked(s, q, g);
    }
  }

  /** Each process of the circle waits for the next, the last for the first. */
  predicate WaitsInACircle(s: System, circle: seq<nat>) {
    circle != [] && forall i :: 0 <= i < |circle| ==>
      WaitsFor(s, circle[i], circle[if i + 1 < |circle| then i + 1 else 0])
  }

  lemma {:induction false} AlongTheCircle(s: System, circle: seq<nat>, k: nat)
    requires Inv(s) && WaitsInACircle(s, circle) && 0 < k < |circle|
    ensures Before(s, circle[0], circle[k])
  {
    assert WaitsFor(s, circle[k - 1], circle[k]);
    assert WaitsFor(s, circle[k], circle[if k + 1 < |circle| then k + 1 else 0]);
    WaitingGoesUp(s, circle[k - 1], circle[k]);
    if k > 1 {
      AlongTheCircle(s, circle, k - 1);
    }
  }

  lemma NoCircle(s: System, circle: seq<nat>)
    requires Inv(s)
    ensures !WaitsInACircle(s, circle)
  {
    if WaitsInACircle(s, circle) {
      var last := |circle| - 1;
      assert WaitsFor(s, circle[last], circle[0]);
      assert WaitsFor(s, circle[0], circle[if 1 < |circle| then 1 else 0]);
      WaitingGoesUp(s, circle[last], circle[0]);
      if last > 0 {
        AlongTheCircle(s, circle, last);
      }
      assert false;
    }
  }

  /** Over every run of any number of these commands, no processes wait for each
      other in a circle. */
  lemma NoRunWaitsInACircle(run: seq<Move>, circle: seq<nat>)
    requires Runnable(IDLE, run)
    ensures !WaitsInACircle(After(IDLE, run), circle)
  {
    assert Inv(IDLE);
    EveryRunKeepsInv(IDLE, run);
    NoCircle(After(IDLE, run), circle);
  }

  // ----- somebody can always go on

  lemma {:induction false} HighestWaiting(s: System, ids: set<nat>) returns (top: nat)
    requires ids != {} && forall p :: p in ids ==> Waits(s, p)
    ensures top in ids && forall p :: p in ids ==> Rank(s, LockOf(s, p)) <= Rank(s, LockOf(s, top))
    decreases |ids|
  {
    var p :| p in ids;
    if ids == {p} {
      top := p;
    } else {
      var rest := HighestWaiting(s, ids - {p});
      top := if Rank(s, LockOf(s, rest)) < Rank(s, LockOf(s, p)) then p else rest;
      assert forall q :: q in ids ==> q == p || q in ids - {p};
    }
  }

  /** When every process waits, the first in the queue of some lock gets it. */
  lemma SomebodyGoesOn(run: seq<Move>)
    requires Runnable(IDLE, run) && After(IDLE, run).processes != map[]
    ensures var s := After(IDLE, run);
            (exists p :: p in s.processes && !s.processes[p].waiting) || (exists lock :: CanGrant(s, lock))
  {
    var s := After(IDLE, run);
    assert Inv(IDLE);
    EveryRunKeepsInv(IDLE, run);
    if forall p :: p in s.processes ==> s.processes[p].waiting {
      assert s.processes.Keys != {};
      var top := HighestWaiting(s, s.processes.Keys);
      HeadOfTheHighestQueue(s, top);
    }
  }

  lemma HeadOfTheHighestQueue(s: System, top: nat)
    requires Inv(s) && Waits(s, top)
    requires forall p :: p in s.processes ==> Waits(s, p) && Rank(s, LockOf(s, p)) <= Rank(s, LockOf(s, top))
    ensures CanGrant(s, LockOf(s, top))
  {
    var lock := LockOf(s, top);
    assert top in Queue(s, lock);
    assert IsQueuedFor(s, Queue(s, lock)[0], lock);
    forall p, h | p in s.processes && h in s.processes[p].held && h.lock == lock ensures false {
      HeldBelowAsked(s, p, h);
    }
  }
}
