/** Closing file editors and quitting (lib/state.rs, commands/window_commands.rs).

    The registry remembers which editors have been asked to close and who waits
    for the answer. The quit command asks every editor behind a gate that lets
    one attempt through at a time. */
module EditorClose {
  import opened Wrappers
  import opened Sequences

  type Label = string

  /** What reached the receiver of a waiter. A waiter is named by the number of
      the call that registered it. */
  datatype Answer = Answer(waiter: nat, approved: bool)

  datatype Registry = Registry(pending: set<Label>, waiters: map<Label, seq<nat>>, calls: nat, answers: seq<Answer>)

  datatype Event =
    | Request(window: Label)
    | RequestAndWait(window: Label)
    | Resolve(window: Label, approved: bool)

  const EMPTY := Registry({}, map[], 0, [])

  function WaitersOf(r: Registry, window: Label): seq<nat> {
    if window in r.waiters then r.waiters[window] else []
  }

  function Answers(waiters: seq<nat>, approved: bool): (answers: seq<Answer>)
    ensures |answers| == |waiters|
    ensures forall k :: 0 <= k < |waiters| ==> answers[k] == Answer(waiters[k], approved)
  {
    seq(|waiters|, k requires 0 <= k < |waiters| => Answer(waiters[k], approved))
  }

  function Step(r: Registry, e: Event): Registry {
    match e
    case Request(l) => r.(pending := r.pending + {l}, calls := r.calls + 1)
    case RequestAndWait(l) =>
      Registry(r.pending + {l}, r.waiters[l := WaitersOf(r, l) + [r.calls]], r.calls + 1, r.answers)
    case Resolve(l, approved) =>
      Registry(r.pending - {l}, r.waiters - {l}, r.calls + 1, r.answers + Answers(WaitersOf(r, l), approved))
  }

  /** The caller is told to show the close dialog. */
  predicate Emits(r: Registry, e: Event) {
    !e.Resolve? && e.window !in r.pending
  }

  class FileEditorCloseRegistry {
    var pendingLabels: set<Label>
    var waiters: map<Label, seq<nat>>
    var calls: nat
    var answers: seq<Answer>

    function Value(): Registry
      reads this
    {
      Registry(pendingLabels, waiters, calls, answers)
    }

    constructor ()
      ensures Value() == EMPTY
    {
      pendingLabels, waiters, calls, answers := {}, map[], 0, [];
    }

    method RequestClose(window: Label) returns (emit: bool)
      modifies this
      ensures Value() == Step(old(Value()), Request(window))
      ensures emit == Emits(old(Value()), Request(window))
    {
      emit := window !in pendingLabels;
      pendingLabels := pendingLabels + {window};
      calls := calls + 1;
    }

    /** The caller becomes the last waiter of the window and is told to show the
        dialog exactly when nobody had asked before. Nobody is answered and no other
        window is touched. */
    method RequestCloseAndWait(window: Label) returns (emit: bool, receiver: nat)
      modifies this
      ensures window in pendingLabels && (emit <==> window !in old(pendingLabels))
      ensures WaitersOf(Value(), window) == WaitersOf(old(Value()), window) + [receiver]
      ensures forall other :: other != window ==>
                && (other in pendingLabels <==> other in old(pendingLabels))
                && WaitersOf(Value(), other) == WaitersOf(old(Value()), other)
      ensures answers == old(answers)
      ensures Value() == Step(old(Value()), RequestAndWait(window))
      ensures emit == Emits(old(Value()), RequestAndWait(window)) && receiver == old(calls)
    {
      receiver := calls;
      emit := window !in pendingLabels;
      pendingLabels := pendingLabels + {window};
      waiters := waiters[window := (if window in waiters then waiters[window] else []) + [receiver]];
      calls := calls + 1;
    }

    /** Takes the waiters out first and answers them one by one. */
    method ResolveClose(window: Label, approved: bool)
      modifies this
      ensures Value() == Step(old(Value()), Resolve(window, approved))
    {
      var taken := if window in waiters then waiters[window] else [];
      pendingLabels := pendingLabels - {window};
      waiters := waiters - {window};
      calls := calls + 1;
      var k := 0;
      while k < |taken|
        invariant k <= |taken|
        invariant Value() == Step(old(Value()), Resolve(window, approved)).(answers := old(answers) + Answers(taken[..k], approved))
      {
        answers := answers + [Answer(taken[k], approved)];
        assert Answers(taken[..k + 1], approved) == Answers(taken[..k], approved) + [Answer(taken[k], approved)];
        k := k + 1;
      }
      assert taken[..k] == taken;
    }
  }

  // ----- runs

  /** The registry after the first `n` calls of a run. */
  function After(run: seq<Event>, n: nat): Registry
    requires n <= |run|
  {
    if n == 0 then EMPTY else Step(After(run, n - 1), run[n - 1])
  }

  predicate Resolves(e: Event, window: Label) {
    e.Resolve? && e.window == window
  }

  /** No call after `i` and before `n` resolves the window of call `i`. */
  predicate StillOpen(run: seq<Event>, i: nat, n: nat)
    requires i < n <= |run|
  {
    !run[i].Resolve? && forall k :: i < k < n ==> !Resolves(run[k], run[i].window)
  }

  predicate OpenRequest(run: seq<Event>, n: nat, window: Label)
    requires n <= |run|
  {
    exists i :: 0 <= i < n && run[i].window == window && StillOpen(run, i, n)
  }

  predicate WaitsAt(run: seq<Event>, i: nat, n: nat, window: Label)
    requires n <= |run|
  {
    i < n && run[i] == RequestAndWait(window) && StillOpen(run, i, n)
  }

  /** Call `j` is the first to resolve the window after the waiter of call `i`
      registered. */
  predicate AnsweredBy(run: seq<Event>, i: nat, j: nat)
    requires j < |run|
  {
    i < j && run[i].RequestAndWait? && StillOpen(run, i, j) && Resolves(run[j], run[i].window)
  }

  predicate AnsweredWith(run: seq<Event>, n: nat, i: nat, approved: bool)
    requires n <= |run|
  {
    exists j :: 0 <= j < n && AnsweredBy(run, i, j) && run[j].approved == approved
  }

  lemma {:induction false} PendingIffRequested(run: seq<Event>, n: nat, window: Label)
    requires n <= |run|
    ensures window in After(run, n).pending <==> OpenRequest(run, n, window)
  {
    if n > 0 {
      PendingIffRequested(run, n - 1, window);
      var e := run[n - 1];
      if OpenRequest(run, n - 1, window) {
        var i :| 0 <= i < n - 1 && run[i].window == window && StillOpen(run, i, n - 1);
        assert !Resolves(e, window) ==> StillOpen(run, i, n);
      }
      if e.window == window && !e.Resolve? {
        assert StillOpen(run, n - 1, n);
      }
      if OpenRequest(run, n, window) {
        var i :| 0 <= i < n && run[i].window == window && StillOpen(run, i, n);
        assert i < n - 1 ==> StillOpen(run, i, n - 1);
      }
    }
  }

  /** A call is told to show the dialog exactly when it is the first request for
      its window since the last time that window was resolved. */
  lemma EmitsIffFirst(run: seq<Event>, n: nat)
    requires n < |run|
    ensures Emits(After(run, n), run[n]) <==> !run[n].Resolve? && !OpenRequest(run, n, run[n].window)
  {
    PendingIffRequested(run, n, run[n].window);
  }

  /** Between two resolves of a window exactly one request is told to emit: every
      open request goes back to one that was, and no two of them were. */
  lemma {:induction false} SomeRequestEmitted(run: seq<Event>, n: nat, window: Label) returns (i: nat)
    requires n <= |run| && OpenRequest(run, n, window)
    ensures i < n && run[i].window == window && StillOpen(run, i, n) && Emits(After(run, i), run[i])
    decreases n
  {
    i :| 0 <= i < n && run[i].window == window && StillOpen(run, i, n);
    EmitsIffFirst(run, i);
    if OpenRequest(run, i, window) {
      var k := SomeRequestEmitted(run, i, window);
      assert StillOpen(run, k, n);
      i := k;
    }
  }

  lemma NothingEmittedLater(run: seq<Event>, i: nat, j: nat, n: nat)
    requires i < n <= |run| && j < n && run[i].window == run[j].window
    requires StillOpen(run, i, n) && Emits(After(run, j), run[j])
    ensures j <= i
  {
    if i < j {
      assert StillOpen(run, i, j);
      EmitsIffFirst(run, j);
    }
  }

  lemma OneRequestEmitted(run: seq<Event>, i: nat, j: nat, n: nat)
    requires i < n <= |run| && j < n && run[i].window == run[j].window
    requires StillOpen(run, i, n) && StillOpen(run, j, n)
    requires Emits(After(run, i), run[i]) && Emits(After(run, j), run[j])
    ensures i == j
  {
    NothingEmittedLater(run, i, j, n);
    NothingEmittedLater(run, j, i, n);
  }

  lemma {:induction false} CallsAreCounted(run: seq<Event>, n: nat)
    requires n <= |run|
    ensures After(run, n).calls == n
  {
    if n > 0 {
      CallsAreCounted(run, n - 1);
    }
  }

  lemma WaitsGrow(run: seq<Event>, n: nat, i: nat, window: Label)
    requires 0 < n <= |run|
    ensures WaitsAt(run, i, n, window)
            <==> (WaitsAt(run, i, n - 1, window) && !Resolves(run[n - 1], window))
                 || (i == n - 1 && run[i] == RequestAndWait(window))
  {
  }

  lemma WaitersAfterStep(r: Registry, e: Event, window: Label)
    ensures WaitersOf(Step(r, e), window)
            == if Resolves(e, window) then []
               else if e == RequestAndWait(window) then WaitersOf(r, window) + [r.calls]
               else WaitersOf(r, window)
  {
  }

  lemma {:induction false} WaiterIsAnOpenWait(run: seq<Event>, n: nat, window: Label, i: nat)
    requires n <= |run|
    ensures i in WaitersOf(After(run, n), window) <==> WaitsAt(run, i, n, window)
  {
    if n > 0 {
      WaiterIsAnOpenWait(run, n - 1, window, i);
      CallsAreCounted(run, n - 1);
      WaitersAfterStep(After(run, n - 1), run[n - 1], window);
      WaitsGrow(run, n, i, window);
    }
  }

  lemma {:induction false} WaitersAreDistinct(run: seq<Event>, n: nat, window: Label)
    requires n <= |run|
    ensures Distinct(WaitersOf(After(run, n), window))
    ensures forall k :: 0 <= k < |WaitersOf(After(run, n), window)| ==> WaitersOf(After(run, n), window)[k] < n
  {
    if n > 0 {
      WaitersAreDistinct(run, n - 1, window);
      CallsAreCounted(run, n - 1);
      WaitersAfterStep(After(run, n - 1), run[n - 1], window);
    }
  }

  /** The waiters of a window are the waits not resolved yet, each once. */
  lemma WaitersAreTheOpenWaits(run: seq<Event>, n: nat, window: Label)
    requires n <= |run|
    ensures forall i: nat :: i in WaitersOf(After(run, n), window) <==> WaitsAt(run, i, n, window)
    ensures Distinct(WaitersOf(After(run, n), window))
  {
    WaitersAreDistinct(run, n, window);
    forall i: nat ensures i in WaitersOf(After(run, n), window) <==> WaitsAt(run, i, n, window) {
      WaiterIsAnOpenWait(run, n, window, i);
    }
  }

  /** A window somebody waits for is pending. */
  lemma WaitersArePending(run: seq<Event>, window: Label)
    requires WaitersOf(After(run, |run|), window) != []
    ensures window in After(run, |run|).pending
  {
    WaitersAreTheOpenWaits(run, |run|, window);
    var i := WaitersOf(After(run, |run|), window)[0];
    assert WaitsAt(run, i, |run|, window);
    PendingIffRequested(run, |run|, window);
  }

  lemma AnswerGrows(run: seq<Event>, n: nat, i: nat, approved: bool)
    requires 0 < n <= |run|
    ensures AnsweredWith(run, n, i, approved)
            <==> AnsweredWith(run, n - 1, i, approved)
                 || (AnsweredBy(run, i, n - 1) && run[n - 1].approved == approved)
  {
  }

  lemma AnsweredByWaits(run: seq<Event>, i: nat, j: nat)
    requires j < |run| && run[j].Resolve?
    ensures AnsweredBy(run, i, j) <==> WaitsAt(run, i, j, run[j].window)
  {
  }

  /** The answers given are exactly those of the first resolve after each wait. */
  lemma {:induction false} AnswersComeFromTheFirstResolve(run: seq<Event>, n: nat, i: nat, approved: bool)
    requires n <= |run|
    ensures Answer(i, approved) in After(run, n).answers <==> AnsweredWith(run, n, i, approved)
  {
    if n > 0 {
      AnswersComeFromTheFirstResolve(run, n - 1, i, approved);
      AnswerGrows(run, n, i, approved);
      var e := run[n - 1];
      if e.Resolve? {
        var taken := WaitersOf(After(run, n - 1), e.window);
        WaitersAreTheOpenWaits(run, n - 1, e.window);
        AnsweredByWaits(run, i, n - 1);
        AnswersContain(taken, e.approved, i, approved);
      }
    }
  }

  lemma AnswersContain(waiters: seq<nat>, given: bool, i: nat, approved: bool)
    ensures Answer(i, approved) in Answers(waiters, given) <==> i in waiters && approved == given
  {
  }

  predicate EachOnce(answers: seq<Answer>) {
    forall a, b :: 0 <= a < b < |answers| ==> answers[a].waiter != answers[b].waiter
  }

  lemma JoinedOnce(before: seq<Answer>, taken: seq<nat>, approved: bool)
    requires EachOnce(before) && Distinct(taken)
    requires forall a :: 0 <= a < |before| ==> before[a].waiter !in taken
    ensures EachOnce(before + Answers(taken, approved))
  {
  }

  /** No waiter is answered twice. */
  lemma {:induction false} AnsweredOnce(run: seq<Event>, n: nat)
    requires n <= |run|
    ensures EachOnce(After(run, n).answers)
  {
    if n > 0 {
      AnsweredOnce(run, n - 1);
      var e := run[n - 1];
      if e.Resolve? {
        var before := After(run, n - 1).answers;
        var taken := WaitersOf(After(run, n - 1), e.window);
        WaitersAreTheOpenWaits(run, n - 1, e.window);
        forall a | 0 <= a < |before| ensures before[a].waiter !in taken {
          AnsweredNoLongerWaits(run, n - 1, before[a], e.window);
        }
        JoinedOnce(before, taken, e.approved);
      }
    }
  }

  lemma AnsweredNoLongerWaits(run: seq<Event>, n: nat, answer: Answer, window: Label)
    requires n <= |run| && answer in After(run, n).answers
    ensures !WaitsAt(run, answer.waiter, n, window)
  {
    AnswersComeFromTheFirstResolve(run, n, answer.waiter, answer.approved);
    var j :| 0 <= j < n && AnsweredBy(run, answer.waiter, j) && run[j].approved == answer.approved;
    assert Resolves(run[j], run[answer.waiter].window);
  }

  /** A request whose event cannot be sent is resolved at once: the window is not
      pending and has no waiter, all who waited for it are refused, the caller
      last, and no other window is touched. */
  lemma AFailedSendIsTakenBack(r: Registry, window: Label, other: Label)
    ensures var after := Step(Step(r, RequestAndWait(window)), Resolve(window, false));
            && window !in after.pending && WaitersOf(after, window) == []
            && after.answers == r.answers + Answers(WaitersOf(r, window), false) + [Answer(r.calls, false)]
            && (other != window ==>
                  (other in after.pending <==> other in r.pending) && WaitersOf(after, other) == WaitersOf(r, other))
  {
    var asked := Step(r, RequestAndWait(window));
    WaitersAfterStep(r, RequestAndWait(window), window);
    WaitersAfterStep(r, RequestAndWait(window), other);
    WaitersAfterStep(asked, Resolve(window, false), window);
    WaitersAfterStep(asked, Resolve(window, false), other);
    assert Answers(WaitersOf(r, window) + [r.calls], false) == Answers(WaitersOf(r, window), false) + [Answer(r.calls, false)];
  }

  // ----- asking every editor before quitting

  /** What becomes of one editor: its window is gone, the request cannot be sent,
      it answers, or its answer is lost while the window is gone or still open. */
  datatype Reply = Gone | NotSent | Answered(approved: bool) | LostWithWindow | Lost

  datatype QuitError = SendFailed(window: Label) | NoDecision(window: Label) | TransfersFailed

  predicate LetsGo(reply: Reply) {
    reply.Gone? || reply == Answered(true) || reply.LostWithWindow?
  }

  /** The first editor that does not let the quit go on, or the number of editors. */
  function FirstObjection(replies: seq<Reply>): (i: nat)
    ensures i <= |replies|
    ensures i < |replies| ==> !LetsGo(replies[i])
    ensures forall k :: 0 <= k < i ==> LetsGo(replies[k])
  {
    if replies == [] then 0 else if !LetsGo(replies[0]) then 0 else 1 + FirstObjection(replies[1..])
  }

  /** Asks one editor after the other and stops at the first objection. */
  method AskEditors(windows: seq<Label>, replies: seq<Reply>) returns (result: Result<bool, QuitError>)
    requires |windows| == |replies|
    ensures result == Success(true) <==> forall k :: 0 <= k < |replies| ==> LetsGo(replies[k])
    ensures result == Success(false) <==>
              FirstObjection(replies) < |replies| && replies[FirstObjection(replies)] == Answered(false)
    ensures result.Failure? ==>
              var i := FirstObjection(replies);
              && i < |replies|
              && result.error == if replies[i].NotSent? then SendFailed(windows[i]) else NoDecision(windows[i])
  {
    var k := 0;
    while k < |windows|
      invariant k <= FirstObjection(replies)
    {
      assert !LetsGo(replies[k]) ==> FirstObjection(replies) == k;
      match replies[k] {
        case Gone =>
        case NotSent => return Failure(SendFailed(windows[k]));
        case Answered(approved) =>
          if !approved {
            return Success(false);
          }
        case LostWithWindow =>
        case Lost => return Failure(NoDecision(windows[k]));
      }
      k := k + 1;
    }
    return Success(true);
  }

  class QuitPreparation {
    var inProgress: bool

    constructor ()
      ensures !inProgress
    {
      inProgress := false;
    }

    method TryBegin() returns (won: bool)
      modifies this
      ensures won == !old(inProgress) && inProgress
    {
      won := !inProgress;
      inProgress := true;
    }

    method Cancel()
      modifies this
      ensures !inProgress
    {
      inProgress := false;
    }

    /** The quit command. It exits only when it got through the gate, every editor
        let it go and the transfers were stored; otherwise the gate is left as it
        was found. */
    method Quit(windows: seq<Label>, replies: seq<Reply>, transfersStored: bool)
      returns (exited: bool, result: Result<(), QuitError>)
      requires |windows| == |replies|
      modifies this
      ensures exited <==> !old(inProgress) && transfersStored && forall k :: 0 <= k < |replies| ==> LetsGo(replies[k])
      ensures exited ==> inProgress && result == Success(())
      ensures !exited ==> inProgress == old(inProgress)
      ensures result.Failure? ==> !old(inProgress) && !exited
    {
      var won := TryBegin();
      if !won {
        return false, Success(());
      }
      var asked := AskEditors(windows, replies);
      match asked {
        case Failure(error) =>
          Cancel();
          return false, Failure(error);
        case Success(approved) =>
          if !approved {
            Cancel();
            return false, Success(());
          }
      }
      if !transfersStored {
        Cancel();
        return false, Failure(TransfersFailed);
      }
      return true, Success(());
    }
  }

  // ----- quit attempts side by side

  datatype Attempt = Asking | Storing | Exiting

  datatype Gate = Gate(closed: bool, attempts: map<nat, Attempt>)

  datatype GateStep =
    | Begin(attempt: nat)
    | EditorsDone(asking: nat, approved: bool)
    | TransfersDone(storing: nat, stored: bool)

  predicate CanStep(g: Gate, s: GateStep) {
    match s
    case Begin(a) => a !in g.attempts
    case EditorsDone(a, _) => a in g.attempts && g.attempts[a].Asking?
    case TransfersDone(a, _) => a in g.attempts && g.attempts[a].Storing?
  }

  function NextGate(g: Gate, s: GateStep): Gate
    requires CanStep(g, s)
  {
    match s
    case Begin(a) => if g.closed then g else Gate(true, g.attempts[a := Asking])
    case EditorsDone(a, approved) =>
      if approved then g.(attempts := g.attempts[a := Storing]) else Gate(false, g.attempts - {a})
    case TransfersDone(a, stored) =>
      if stored then g.(attempts := g.attempts[a := Exiting]) else Gate(false, g.attempts - {a})
  }

  ghost predicate CanRun(g: Gate, run: seq<GateStep>)
    decreases run
  {
    run == [] || (CanStep(g, run[0]) && CanRun(NextGate(g, run[0]), run[1..]))
  }

  function GateAfter(g: Gate, run: seq<GateStep>): Gate
    requires CanRun(g, run)
    decreases run
  {
    if run == [] then g else GateAfter(NextGate(g, run[0]), run[1..])
  }

  predicate OneAttempt(g: Gate) {
    && (g.closed <==> g.attempts != map[])
    && (forall a, b :: a in g.attempts && b in g.attempts ==> a == b)
  }

  /** However quit attempts overlap, at most one is under way, and the gate is
      closed exactly while it is: an attempt that ends without exiting lets the
      next one through. */
  lemma {:induction false} TheGateIsClosedForOneAttempt(g: Gate, run: seq<GateStep>)
    requires OneAttempt(g) && CanRun(g, run)
    ensures OneAttempt(GateAfter(g, run))
    decreases run
  {
    if run != [] {
      StepKeepsOneAttempt(g, run[0]);
      TheGateIsClosedForOneAttempt(NextGate(g, run[0]), run[1..]);
    }
  }

  lemma StepKeepsOneAttempt(g: Gate, s: GateStep)
    requires OneAttempt(g) && CanStep(g, s)
    ensures OneAttempt(NextGate(g, s))
  {
  }
}
