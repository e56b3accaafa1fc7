/** The AI chat bridge of the renderer (src/bridge/tauri-api.ts).

    Each chat call has a channel for its events and a promise for its request id;
    they settle in any order. Hiding the page cancels what is active, once. */
module AiChatBridge {
  type Channel = nat
  type RequestId = string

  /** `requestIds` and `terminals` are the variables each call closes over. */
  datatype Bridge = Bridge(
    pending: set<Channel>,
    active: map<RequestId, Channel>,
    unloading: bool,
    requestIds: map<Channel, RequestId>,
    terminals: set<Channel>,
    cancelled: multiset<RequestId>)

  const EMPTY := Bridge({}, map[], false, map[], {}, multiset{})

  datatype Event =
    | Invoke(channel: Channel)
    | Message(channel: Channel, terminal: bool)
    | Resolve(channel: Channel, request: RequestId)
    | Reject(channel: Channel)
    | PageHide

  function OnMessage(b: Bridge, c: Channel, terminal: bool): Bridge {
    if !terminal then b
    else b.(terminals := b.terminals + {c},
            active := if c in b.requestIds && b.requestIds[c] != "" then b.active - {b.requestIds[c]} else b.active)
  }

  function OnResolve(b: Bridge, c: Channel, request: RequestId): Bridge {
    var settled := b.(requestIds := b.requestIds[c := request], pending := b.pending - {c});
    if b.unloading then settled.(cancelled := b.cancelled + multiset{request})
    else if c !in b.terminals then settled.(active := b.active[request := c])
    else settled
  }

  /** The listener is registered for one event only. */
  function OnPageHide(b: Bridge): Bridge {
    if b.unloading then b
    else b.(unloading := true, active := map[], pending := {}, cancelled := b.cancelled + multiset(b.active.Keys))
  }

  function Step(b: Bridge, e: Event): Bridge {
    match e
    case Invoke(c) => b.(pending := b.pending + {c})
    case Message(c, terminal) => OnMessage(b, c, terminal)
    case Resolve(c, request) => OnResolve(b, c, request)
    case Reject(c) => b.(pending := b.pending - {c})
    case PageHide => OnPageHide(b)
  }

  class ChatBridge {
    var pending: set<Channel>
    var active: map<RequestId, Channel>
    var unloading: bool
    var requestIds: map<Channel, RequestId>
    var terminals: set<Channel>
    var cancelled: multiset<RequestId>

    function Value(): Bridge
      reads this
    {
      Bridge(pending, active, unloading, requestIds, terminals, cancelled)
    }

    constructor ()
      ensures Value() == EMPTY
    {
      pending, active, unloading, requestIds, terminals, cancelled := {}, map[], false, map[], {}, multiset{};
    }

    method InvokeChat(c: Channel)
      modifies this
      ensures Value() == Step(old(Value()), Invoke(c))
    {
      pending := pending + {c};
    }

    method Receive(c: Channel, terminal: bool)
      modifies this
      ensures Value() == Step(old(Value()), Message(c, terminal))
    {
      if terminal {
        terminals := terminals + {c};
        if c in requestIds && requestIds[c] != "" {
          active := active - {requestIds[c]};
        }
      }
    }

    /** The call is pending no longer, and its request meets exactly one of three
        ends: cancelled because the page is hidden, nothing because its last message
        came first, or active. No other request is touched. */
    method Fulfilled(c: Channel, request: RequestId)
      modifies this
      ensures Value() == Step(old(Value()), Resolve(c, request))
      ensures c !in pending && forall other :: other != c ==> (other in pending <==> other in old(pending))
      ensures cancelled[request] == old(cancelled)[request] + if old(unloading) then 1 else 0
      ensures !old(unloading) && c !in old(terminals) ==> request in active && active[request] == c
      ensures old(unloading) || c in old(terminals) ==> active == old(active)
      ensures forall other :: other != request ==>
                && cancelled[other] == old(cancelled)[other]
                && (other in active <==> other in old(active))
                && (other in active ==> active[other] == old(active)[other])
    {
      requestIds := requestIds[c := request];
      pending := pending - {c};
      if unloading {
        cancelled := cancelled + multiset{request};
      } else if c !in terminals {
        active := active[request := c];
      }
    }

    method Rejected(c: Channel)
      modifies this
      ensures Value() == Step(old(Value()), Reject(c))
    {
      pending := pending - {c};
    }

    method CancelEach(requests: set<RequestId>)
      modifies `cancelled
      ensures cancelled == old(cancelled) + multiset(requests)
    {
      var todo := requests;
      while todo != {}
        invariant todo <= requests
        invariant cancelled == old(cancelled) + multiset(requests - todo)
        decreases |todo|
      {
        var request :| request in todo;
        assert requests - (todo - {request}) == requests - todo + {request};
        cancelled := cancelled + multiset{request};
        todo := todo - {request};
      }
      assert requests - {} == requests;
    }

    /** Empties both collections, then cancels every request that was active. */
    method HidePage()
      modifies this
      ensures Value() == Step(old(Value()), PageHide)
    {
      if unloading {
        return;
      }
      unloading := true;
      var requests := active.Keys;
      active, pending := map[], {};
      CancelEach(requests);
    }
  }

  // ----- runs

  /** Each call settles once, and the backend gives no request id twice. */
  predicate WellFormed(run: seq<Event>) {
    && (forall i, j :: 0 <= i < j < |run| && run[i].Resolve? && run[j].Resolve? ==>
          run[i].channel != run[j].channel && run[i].request != run[j].request)
    && (forall i :: 0 <= i < |run| && run[i].Resolve? ==> run[i].request != "")
  }

  function After(run: seq<Event>, n: nat): Bridge
    requires n <= |run|
  {
    if n == 0 then EMPTY else Step(After(run, n - 1), run[n - 1])
  }

  predicate ResolvedAs(run: seq<Event>, n: nat, c: Channel, request: RequestId)
    requires n <= |run|
  {
    exists i :: 0 <= i < n && run[i] == Resolve(c, request)
  }

  predicate Terminated(run: seq<Event>, n: nat, c: Channel)
    requires n <= |run|
  {
    exists i :: 0 <= i < n && run[i] == Message(c, true)
  }

  predicate Hidden(run: seq<Event>, n: nat)
    requires n <= |run|
  {
    exists i :: 0 <= i < n && run[i] == PageHide
  }

  lemma {:induction false} UnloadingIffHidden(run: seq<Event>, n: nat)
    requires n <= |run|
    ensures After(run, n).unloading <==> Hidden(run, n)
  {
    if n > 0 {
      UnloadingIffHidden(run, n - 1);
      assert Hidden(run, n) <==> Hidden(run, n - 1) || run[n - 1] == PageHide;
    }
  }

  lemma {:induction false} TerminalsAreTerminated(run: seq<Event>, n: nat, c: Channel)
    requires n <= |run|
    ensures c in After(run, n).terminals <==> Terminated(run, n, c)
  {
    if n > 0 {
      TerminalsAreTerminated(run, n - 1, c);
      assert Terminated(run, n, c) <==> Terminated(run, n - 1, c) || run[n - 1] == Message(c, true);
    }
  }

  predicate Maps<K, V(==)>(m: map<K, V>, k: K, v: V) {
    k in m && m[k] == v
  }

  lemma ResolvedGrows(run: seq<Event>, n: nat, c: Channel, request: RequestId)
    requires 0 < n <= |run|
    ensures ResolvedAs(run, n, c, request) <==> ResolvedAs(run, n - 1, c, request) || run[n - 1] == Resolve(c, request)
  {
  }

  lemma {:induction false} RequestIdsAreResolved(run: seq<Event>, n: nat, c: Channel, request: RequestId)
    requires WellFormed(run) && n <= |run|
    ensures Maps(After(run, n).requestIds, c, request) <==> ResolvedAs(run, n, c, request)
  {
    if n > 0 {
      RequestIdsAreResolved(run, n - 1, c, request);
      ResolvedGrows(run, n, c, request);
    }
  }

  predicate Live(run: seq<Event>, n: nat, c: Channel, request: RequestId)
    requires n <= |run|
  {
    ResolvedAs(run, n, c, request) && !Terminated(run, n, c)
  }

  lemma ActiveAfterMessage(run: seq<Event>, n: nat, c: Channel, request: RequestId)
    requires WellFormed(run) && 0 < n <= |run| && run[n - 1].Message?
    requires Maps(After(run, n - 1).active, request, c) <==> Live(run, n - 1, c, request)
    ensures Maps(After(run, n).active, request, c) <==> Live(run, n, c, request)
  {
    var before, e := After(run, n - 1), run[n - 1];
    ResolvedGrows(run, n, c, request);
    TerminatedGrows(run, n, c);
    RequestIdsAreResolved(run, n - 1, c, request);
    if e.terminal && e.channel in before.requestIds {
      var ended := before.requestIds[e.channel];
      RequestIdsAreResolved(run, n - 1, e.channel, ended);
      OneChannelPerRequest(run, n - 1, e.channel, c, ended);
      OneRequestPerChannel(run, n - 1, c, ended, request);
    }
  }

  lemma TerminatedGrows(run: seq<Event>, n: nat, c: Channel)
    requires 0 < n <= |run|
    ensures Terminated(run, n, c) <==> Terminated(run, n - 1, c) || run[n - 1] == Message(c, true)
  {
  }

  lemma ActiveAfterResolve(run: seq<Event>, n: nat, c: Channel, request: RequestId)
    requires WellFormed(run) && 0 < n <= |run| && run[n - 1].Resolve? && !After(run, n - 1).unloading
    requires Maps(After(run, n - 1).active, request, c) <==> Live(run, n - 1, c, request)
    ensures Maps(After(run, n).active, request, c) <==> Live(run, n, c, request)
  {
    ResolvedGrows(run, n, c, request);
    TerminatedGrows(run, n, c);
    TerminalsAreTerminated(run, n - 1, run[n - 1].channel);
    NewRequest(run, n, c, request);
  }

  /** Until the page is hidden, the active map holds exactly the calls that have
      resolved and not yet ended, also when the end came before the resolve. */
  lemma {:induction false} ActiveIsLive(run: seq<Event>, n: nat, c: Channel, request: RequestId)
    requires WellFormed(run) && n <= |run| && !Hidden(run, n)
    ensures Maps(After(run, n).active, request, c) <==> Live(run, n, c, request)
  {
    if n > 0 {
      assert !Hidden(run, n - 1) && run[n - 1] != PageHide;
      ActiveIsLive(run, n - 1, c, request);
      UnloadingIffHidden(run, n - 1);
      match run[n - 1]
      case Message(_, _) => ActiveAfterMessage(run, n, c, request);
      case Resolve(_, _) => ActiveAfterResolve(run, n, c, request);
      case _ =>
        ResolvedGrows(run, n, c, request);
        TerminatedGrows(run, n, c);
    }
  }

  /** A call resolves for the first time, with a request id of its own. */
  lemma NewRequest(run: seq<Event>, n: nat, c: Channel, request: RequestId)
    requires WellFormed(run) && 0 < n <= |run| && run[n - 1].Resolve?
    ensures !ResolvedAs(run, n - 1, c, run[n - 1].request)
    ensures !ResolvedAs(run, n - 1, run[n - 1].channel, request)
  {
  }

  lemma OneChannelPerRequest(run: seq<Event>, n: nat, a: Channel, b: Channel, request: RequestId)
    requires WellFormed(run) && n <= |run|
    ensures ResolvedAs(run, n, a, request) && ResolvedAs(run, n, b, request) ==> a == b
  {
  }

  lemma OneRequestPerChannel(run: seq<Event>, n: nat, c: Channel, a: RequestId, b: RequestId)
    requires WellFormed(run) && n <= |run|
    ensures ResolvedAs(run, n, c, a) && ResolvedAs(run, n, c, b) ==> a == b
  {
  }

  // ----- after the page is hidden

  predicate FirstHide(run: seq<Event>, h: nat) {
    h < |run| && run[h] == PageHide && !Hidden(run, h)
  }

  /** The request was active when the page was hidden, or resolved after that. */
  ghost predicate ToCancel(run: seq<Event>, h: nat, n: nat, request: RequestId)
    requires h < n <= |run|
  {
    (exists c :: Live(run, h, c, request)) || ResolvedSince(run, h, n, request)
  }

  predicate ResolvedSince(run: seq<Event>, h: nat, n: nat, request: RequestId)
    requires h < n <= |run|
  {
    exists i :: h < i < n && run[i].Resolve? && run[i].request == request
  }

  /** After the page is hidden nothing is active any more, and each request that
      was, or that resolves later, is cancelled exactly once; no other is. */
  lemma {:induction false} HiddenPageCancelsOnce(run: seq<Event>, h: nat, n: nat, request: RequestId)
    requires WellFormed(run) && FirstHide(run, h) && h < n <= |run|
    ensures After(run, n).unloading && After(run, n).active == map[]
    ensures After(run, n).cancelled[request] == if ToCancel(run, h, n, request) then 1 else 0
    decreases n
  {
    UnloadingIffHidden(run, h);
    if n == h + 1 {
      NothingCancelledBefore(run, h);
      ActiveAtHide(run, h, request);
      assert !ResolvedSince(run, h, n, request);
    } else {
      HiddenPageCancelsOnce(run, h, n - 1, request);
      HiddenStep(After(run, n - 1), run[n - 1], request);
      ToCancelGrows(run, h, n, request);
    }
  }

  lemma HiddenStep(b: Bridge, e: Event, request: RequestId)
    requires b.unloading && b.active == map[]
    ensures Step(b, e).unloading && Step(b, e).active == map[]
    ensures Step(b, e).cancelled[request]
            == b.cancelled[request] + if e.Resolve? && e.request == request then 1 else 0
  {
  }

  lemma ToCancelGrows(run: seq<Event>, h: nat, n: nat, request: RequestId)
    requires WellFormed(run) && h + 1 < n <= |run|
    ensures ToCancel(run, h, n, request)
            <==> ToCancel(run, h, n - 1, request) || (run[n - 1].Resolve? && run[n - 1].request == request)
    ensures run[n - 1].Resolve? && run[n - 1].request == request ==> !ToCancel(run, h, n - 1, request)
  {
  }

  lemma {:induction false} NothingCancelledBefore(run: seq<Event>, n: nat)
    requires n <= |run| && !Hidden(run, n)
    ensures After(run, n).cancelled == multiset{}
  {
    if n > 0 {
      assert !Hidden(run, n - 1);
      NothingCancelledBefore(run, n - 1);
      UnloadingIffHidden(run, n - 1);
    }
  }

  lemma ActiveAtHide(run: seq<Event>, h: nat, request: RequestId)
    requires WellFormed(run) && FirstHide(run, h)
    ensures request in After(run, h).active <==> exists c :: Live(run, h, c, request)
  {
    var active := After(run, h).active;
    if request in active {
      ActiveIsLive(run, h, active[request], request);
    }
    if c :| Live(run, h, c, request) {
      ActiveIsLive(run, h, c, request);
    }
  }
}
