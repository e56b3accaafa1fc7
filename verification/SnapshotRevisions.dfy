/** Workspace snapshots and their revisions.

    A snapshot takes its revision and reads the components of the workspace one
    by one under the snapshot lock; other commands write the components in
    between. A consumer gets the finished snapshots in any order and drops those
    that are older than the latest it applied. */
module SnapshotRevisions {
  import opened Wrappers

  type TabId = string

  const MAX_U64: nat := 0xFFFF_FFFF_FFFF_FFFF

  /** In the order in which a snapshot reads them. */
  datatype Component = Tabs | ActiveTab | Sessions | SessionRevisions | Transfers | ActivePanes

  const ORDER := [Tabs, ActiveTab, Sessions, SessionRevisions, Transfers, ActivePanes]

  /** `seen[k]` says how many writes of the `k`th component the snapshot shows. */
  datatype SnapshotOf = SnapshotOf(revision: nat, seen: seq<nat>)

  /** `writes` counts the writes of each component; `reading` is the snapshot
      that holds the lock; `shown` is what the consumer last applied. */
  datatype State = State(
    writes: map<Component, nat>,
    counter: nat,
    reading: Option<SnapshotOf>,
    finished: seq<SnapshotOf>,
    shown: Option<SnapshotOf>)

  datatype Command =
    | WriteTo(component: Component)
    | Take
    | ReadNext
    | Finish
    | Fail
    | Deliver(index: nat)

  function Written(s: State, c: Component): nat {
    if c in s.writes then s.writes[c] else 0
  }

  /** `fetch_add` wraps around, the revision made from its result saturates. */
  function IssuedRevision(counter: nat): nat {
    if counter + 1 <= MAX_U64 then counter + 1 else MAX_U64
  }

  predicate Enabled(s: State, c: Command) {
    match c
    case WriteTo(_) => true
    case Take => s.reading.None?
    case ReadNext => s.reading.Some? && |s.reading.value.seen| < |ORDER|
    case Finish => s.reading.Some? && |s.reading.value.seen| == |ORDER|
    case Fail => s.reading.Some? && |s.reading.value.seen| == |ORDER|
    case Deliver(i) => i < |s.finished|
  }

  /** `applySnapshot`. */
  function Applied(shown: Option<SnapshotOf>, incoming: SnapshotOf): Option<SnapshotOf> {
    if shown.Some? && incoming.revision < shown.value.revision then shown else Some(incoming)
  }

  function Next(s: State, c: Command): State
    requires Enabled(s, c)
  {
    match c
    case WriteTo(k) => s.(writes := s.writes[k := Written(s, k) + 1])
    case Take =>
      s.(counter := (s.counter + 1) % (MAX_U64 + 1), reading := Some(SnapshotOf(IssuedRevision(s.counter), [])))
    case ReadNext =>
      var r := s.reading.value;
      s.(reading := Some(r.(seen := r.seen + [Written(s, ORDER[|r.seen|])])))
    case Finish => s.(reading := None, finished := s.finished + [s.reading.value])
    case Fail => s.(reading := None)
    case Deliver(i) => s.(shown := Applied(s.shown, s.finished[i]))
  }

  const INITIAL := State(map[], 0, None, [], None)

  // ----- what every step keeps

  /** `a` shows every component as it was no later than `b` does. */
  predicate NoLater(a: SnapshotOf, b: SnapshotOf) {
    forall k :: 0 <= k < |a.seen| && k < |b.seen| ==> a.seen[k] <= b.seen[k]
  }

  predicate UpToNow(s: State, a: SnapshotOf) {
    |a.seen| <= |ORDER| && forall k :: 0 <= k < |a.seen| ==> a.seen[k] <= Written(s, ORDER[k])
  }

  /** Finished snapshots carry growing revisions and show growing states. */
  predicate InOrder(finished: seq<SnapshotOf>) {
    forall i, j :: 0 <= i < j < |finished| ==>
      finished[i].revision < finished[j].revision && NoLater(finished[i], finished[j])
  }

  predicate Inv(s: State) {
    && InOrder(s.finished)
    && (forall i :: 0 <= i < |s.finished| ==> IsFinished(s, s.finished[i]))
    && (s.reading.Some? ==>
          && UpToNow(s, s.reading.value)
          && s.reading.value.revision == s.counter
          && forall i :: 0 <= i < |s.finished| ==>
               s.finished[i].revision < s.counter && NoLater(s.finished[i], s.reading.value))
    && (s.shown.Some? ==> s.shown.value in s.finished)
  }

  predicate IsFinished(s: State, a: SnapshotOf) {
    |a.seen| == |ORDER| && UpToNow(s, a) && a.revision <= s.counter
  }

  /** The counter has not wrapped around. */
  predicate BeforeWrap(s: State, c: Command) {
    c.Take? ==> s.counter < MAX_U64
  }

  lemma WriteKeepsInv(s: State, c: Component)
    requires Inv(s)
    ensures Inv(Next(s, WriteTo(c)))
  {
  }

  lemma TakeKeepsInv(s: State)
    requires Inv(s) && s.reading.None? && s.counter < MAX_U64
    ensures Inv(Next(s, Take))
  {
    var next := Next(s, Take);
    assert next.counter == s.counter + 1;
    forall i | 0 <= i < |s.finished| ensures IsFinished(next, s.finished[i]) && s.finished[i].revision < next.counter {
      assert IsFinished(s, s.finished[i]);
    }
  }

  lemma ReadKeepsInv(s: State)
    requires Inv(s) && Enabled(s, ReadNext)
    ensures Inv(Next(s, ReadNext))
  {
    var next := Next(s, ReadNext);
    forall i | 0 <= i < |s.finished|
      ensures IsFinished(next, s.finished[i]) && NoLater(s.finished[i], next.reading.value)
    {
      assert IsFinished(s, s.finished[i]);
    }
  }

  lemma FinishKeepsInv(s: State)
    requires Inv(s) && Enabled(s, Finish)
    ensures Inv(Next(s, Finish))
  {
  }

  lemma StepKeepsInv(s: State, c: Command)
    requires Inv(s) && Enabled(s, c) && BeforeWrap(s, c)
    ensures Inv(Next(s, c))
  {
    match c
    case WriteTo(k) => WriteKeepsInv(s, k);
    case Take => TakeKeepsInv(s);
    case ReadNext => ReadKeepsInv(s);
    case Finish => FinishKeepsInv(s);
    case Fail =>
    case Deliver(_) =>
  }

  // ----- every run

  ghost predicate Runnable(s: State, run: seq<Command>)
    decreases run
  {
    run == [] || (Enabled(s, run[0]) && BeforeWrap(s, run[0]) && Runnable(Next(s, run[0]), run[1..]))
  }

  function After(s: State, run: seq<Command>): State
    requires Runnable(s, run)
    decreases run
  {
    if run == [] then s else After(Next(s, run[0]), run[1..])
  }

  lemma {:induction false} EveryRunKeepsInv(s: State, run: seq<Command>)
    requires Inv(s) && Runnable(s, run)
    ensures Inv(After(s, run))
    decreases run
  {
    if run != [] {
      StepKeepsInv(s, run[0]);
      EveryRunKeepsInv(Next(s, run[0]), run[1..]);
    }
  }

  lemma RevisionsOrder(finished: seq<SnapshotOf>, a: nat, b: nat)
    requires InOrder(finished) && a < |finished| && b < |finished|
    ensures finished[a].revision == finished[b].revision <==> a == b
    ensures finished[a].revision <= finished[b].revision ==> NoLater(finished[a], finished[b])
  {
  }

  /** Whatever is written between the reads of a snapshot: two finished snapshots
      have different revisions, and the one with the higher revision shows no
      component as it was before the other's. */
  lemma RevisionsOrderTheSnapshots(run: seq<Command>, a: nat, b: nat)
    requires Runnable(INITIAL, run)
    requires a < |After(INITIAL, run).finished| && b < |After(INITIAL, run).finished|
    ensures var finished := After(INITIAL, run).finished;
            && (finished[a].revision == finished[b].revision <==> a == b)
            && (finished[a].revision <= finished[b].revision ==> NoLater(finished[a], finished[b]))
            && |finished[a].seen| == |ORDER|
  {
    EveryRunKeepsInv(INITIAL, run);
    var finished := After(INITIAL, run).finished;
    assert IsFinished(After(INITIAL, run), finished[a]);
    RevisionsOrder(finished, a, b);
  }

  lemma {:induction false} ShownNeverGoesBack(s: State, run: seq<Command>)
    requires Inv(s) && Runnable(s, run) && s.shown.Some?
    ensures var end := After(s, run);
            end.shown.Some? && s.shown.value.revision <= end.shown.value.revision
    decreases run
  {
    if run != [] {
      StepKeepsInv(s, run[0]);
      ShownNeverGoesBack(Next(s, run[0]), run[1..]);
    }
  }

  lemma {:induction false} FinishedStays(s: State, run: seq<Command>)
    requires Runnable(s, run)
    ensures s.finished <= After(s, run).finished
    decreases run
  {
    if run != [] {
      FinishedStays(Next(s, run[0]), run[1..]);
    }
  }

  /** In whatever order the snapshots arrive, however often, the consumer never
      sees a component go back in time. */
  lemma TheConsumerNeverGoesBack(s: State, run: seq<Command>)
    requires Inv(s) && Runnable(s, run) && s.shown.Some?
    ensures var end := After(s, run);
            end.shown.Some? && |end.shown.value.seen| == |s.shown.value.seen| == |ORDER|
            && NoLater(s.shown.value, end.shown.value)
  {
    var end := After(s, run);
    EveryRunKeepsInv(s, run);
    ShownNeverGoesBack(s, run);
    FinishedStays(s, run);
    var i :| 0 <= i < |s.finished| && s.finished[i] == s.shown.value;
    var j :| 0 <= j < |end.finished| && end.finished[j] == end.shown.value;
    assert end.finished[i] == s.shown.value;
    assert IsFinished(end, end.finished[i]) && IsFinished(end, end.finished[j]);
    RevisionsOrder(end.finished, i, j);
  }

  /** The state after a snapshot taken without anything in between. */
  function Uninterrupted(s: State, left: nat): State
    requires s.reading.Some?
    decreases left
  {
    if left == 0 || |s.reading.value.seen| >= |ORDER| then s else Uninterrupted(Next(s, ReadNext), left - 1)
  }

  lemma {:induction false} ReadsComplete(s: State, left: nat)
    requires s.reading.Some? && |s.reading.value.seen| + left == |ORDER|
    ensures var end := Uninterrupted(s, left);
            && end == s.(reading := end.reading) && end.reading.Some?
            && end.reading.value.revision == s.reading.value.revision
            && |end.reading.value.seen| == |ORDER|
    decreases left
  {
    if left > 0 {
      ReadsComplete(Next(s, ReadNext), left - 1);
    }
  }

  /** The revisions stay unique and ordered exactly until the counter reaches its
      largest value: the snapshot taken then repeats the last revision. */
  lemma RevisionsStayInOrderIff(s: State)
    requires Inv(s) && s.reading.None? && s.counter <= MAX_U64
    requires s.finished != [] && s.finished[|s.finished| - 1].revision == s.counter
    ensures var read := Uninterrupted(Next(s, Take), |ORDER|);
            && Enabled(read, Finish)
            && (InOrder(Next(read, Finish).finished) <==> s.counter < MAX_U64)
  {
    var taken := Next(s, Take);
    ReadsComplete(taken, |ORDER|);
    var read := Uninterrupted(taken, |ORDER|);
    if s.counter < MAX_U64 {
      TakeKeepsInv(s);
      UninterruptedKeepsInv(taken, |ORDER|);
      FinishKeepsInv(read);
    } else {
      var finished := Next(read, Finish).finished;
      assert finished[|s.finished|].revision == MAX_U64 == finished[|s.finished| - 1].revision;
    }
  }

  lemma {:induction false} UninterruptedKeepsInv(s: State, left: nat)
    requires Inv(s) && s.reading.Some?
    ensures Inv(Uninterrupted(s, left))
    decreases left
  {
    if left > 0 && |s.reading.value.seen| < |ORDER| {
      ReadKeepsInv(s);
      UninterruptedKeepsInv(Next(s, ReadNext), left - 1);
    }
  }

  // ----- the revision of each session

  datatype Session = Session(connected: bool, revision: nat)

  /** The loop that writes each session's revision into the snapshot. */
  method FillRevisions(sessions: map<TabId, Session>, revisions: map<TabId, nat>) returns (filled: map<TabId, Session>)
    ensures filled.Keys == sessions.Keys
    ensures forall id :: id in sessions ==>
              filled[id].connected == sessions[id].connected
              && filled[id].revision == if id in revisions then revisions[id] else 0
  {
    filled := sessions;
    var todo := sessions.Keys;
    while todo != {}
      invariant todo <= sessions.Keys && filled.Keys == sessions.Keys
      invariant forall id :: id in todo ==> filled[id] == sessions[id]
      invariant forall id :: id in sessions && id !in todo ==>
                  filled[id] == sessions[id].(revision := if id in revisions then revisions[id] else 0)
      decreases |todo|
    {
      var id :| id in todo;
      filled := filled[id := filled[id].(revision := if id in revisions then revisions[id] else 0)];
      todo := todo - {id};
    }
  }
}
