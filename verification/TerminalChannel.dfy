/** The terminal data channel of the renderer (src/bridge/tauri-api.ts).

    The first subscriber registers a channel; a failed registration is retried
    after a delay that doubles up to a cap. A registration settles in two steps:
    its outcome is handled, then the reference to it is cleared. */
module TerminalChannel {
  import opened Wrappers

  const FIRST_DELAY: nat := 1000
  const MAX_DELAY: nat := 30_000

  datatype Registration = Idle | InFlight | Settling

  /** `timer` is the delay of the pending retry. `started` says that somebody has
      asked for the channel; `failures` counts them since the last success. */
  datatype Bridge = Bridge(
    hasChannel: bool,
    registration: Registration,
    timer: Option<nat>,
    backoff: nat,
    started: bool,
    failures: nat)

  const INITIAL := Bridge(false, Idle, None, FIRST_DELAY, false, 0)

  datatype Event = Subscribe | Succeed | Fail | Settle | TimerFires

  function Ensure(b: Bridge): Bridge {
    var asked := b.(started := true);
    if b.hasChannel || b.registration != Idle then asked
    else asked.(hasChannel := true, registration := InFlight)
  }

  function Doubled(delay: nat): nat {
    if delay * 2 < MAX_DELAY then delay * 2 else MAX_DELAY
  }

  /** Handlers of a promise run before any timer does. */
  predicate Enabled(b: Bridge, e: Event) {
    match e
    case Subscribe => true
    case Succeed => b.registration == InFlight
    case Fail => b.registration == InFlight
    case Settle => b.registration == Settling
    case TimerFires => b.timer.Some? && b.registration != Settling
  }

  function Step(b: Bridge, e: Event): Bridge {
    match e
    case Subscribe => Ensure(b)
    case Succeed => b.(backoff := FIRST_DELAY, timer := None, registration := Settling, failures := 0)
    case Fail =>
      b.(hasChannel := false, timer := Some(b.backoff), backoff := Doubled(b.backoff), registration := Settling,
         failures := b.failures + 1)
    case Settle => b.(registration := Idle)
    case TimerFires => Ensure(b.(timer := None))
  }

  class TerminalData {
    var hasChannel: bool
    var registration: Registration
    var timer: Option<nat>
    var backoff: nat
    ghost var started: bool
    ghost var failures: nat

    ghost function Value(): Bridge
      reads this
    {
      Bridge(hasChannel, registration, timer, backoff, started, failures)
    }

    constructor ()
      ensures Value() == INITIAL
    {
      hasChannel, registration, timer, backoff, started, failures := false, Idle, None, FIRST_DELAY, false, 0;
    }

    method EnsureChannel()
      modifies this
      ensures Value() == Ensure(old(Value()))
    {
      started := true;
      if hasChannel || registration != Idle {
        return;
      }
      hasChannel, registration := true, InFlight;
    }

    method Registered()
      modifies this
      ensures Value() == Step(old(Value()), Succeed)
    {
      backoff := FIRST_DELAY;
      timer := None;
      registration := Settling;
      failures := 0;
    }

    method ScheduleRetry()
      modifies `timer, `backoff
      ensures timer == Some(old(backoff)) && backoff == Doubled(old(backoff))
    {
      var delay := backoff;
      backoff := if backoff * 2 < MAX_DELAY then backoff * 2 else MAX_DELAY;
      timer := Some(delay);
    }

    /** A failed registration leaves no channel and one retry, due after a delay that
        is fixed by the number of failures in a row before it; the one after that
        will wait twice as long, up to the cap. */
    method RegistrationFailed()
      modifies this
      ensures Value() == Step(old(Value()), Fail)
      ensures Inv(old(Value())) && old(registration) == InFlight ==>
                && Inv(Value()) && !hasChannel && registration != InFlight
                && timer == Some(CappedDelay(old(failures)))
                && backoff == CappedDelay(old(failures) + 1)
    {
      DelaysDouble(failures);
      DelaysDouble(failures + 1);
      hasChannel := false;
      ScheduleRetry();
      registration := Settling;
      failures := failures + 1;
    }

    /** When its timer fires, the retry is gone and there is a channel. It starts a
        registration exactly when there was none; the delay of the next retry is
        not touched. */
    method Retry()
      modifies this
      ensures Value() == Step(old(Value()), TimerFires)
      ensures Inv(old(Value())) && Enabled(old(Value()), TimerFires) ==>
                && Inv(Value()) && timer.None? && hasChannel && backoff == old(backoff)
                && (registration != old(registration) <==> !old(hasChannel))
                && (registration != old(registration) ==> old(registration) == Idle && registration == InFlight)
    {
      timer := None;
      EnsureChannel();
    }
  }

  // ----- runs

  ghost predicate Runnable(b: Bridge, run: seq<Event>)
    decreases run
  {
    run == [] || (Enabled(b, run[0]) && Runnable(Step(b, run[0]), run[1..]))
  }

  function After(b: Bridge, run: seq<Event>): Bridge
    decreases run
  {
    if run == [] then b else After(Step(b, run[0]), run[1..])
  }

  /** The delay after this many failures in a row. */
  function DelayAfter(failures: nat): nat {
    if failures == 0 then FIRST_DELAY else Doubled(DelayAfter(failures - 1))
  }

  predicate Inv(b: Bridge) {
    && (b.started ==> b.hasChannel || b.timer.Some?)
    && (b.registration != Idle ==> b.started) && (b.registration == InFlight ==> b.hasChannel)
    && b.backoff == DelayAfter(b.failures)
    && (b.timer.Some? ==> b.failures > 0 && b.timer.value == DelayAfter(b.failures - 1))
  }

  lemma {:induction false} EveryRunKeepsInv(b: Bridge, run: seq<Event>)
    requires Inv(b) && Runnable(b, run)
    ensures Inv(After(b, run))
    decreases run
  {
    if run != [] {
      EveryRunKeepsInv(Step(b, run[0]), run[1..]);
    }
  }

  /** Once somebody has subscribed the terminal never stays blank: in every run the
      channel is registered or being registered, or a retry is pending. */
  lemma NeverStaysBlank(run: seq<Event>)
    requires Runnable(INITIAL, run) && After(INITIAL, run).started
    ensures var b := After(INITIAL, run); b.hasChannel || b.timer.Some?
  {
    EveryRunKeepsInv(INITIAL, run);
  }

  function Power(n: nat): nat {
    if n == 0 then 1 else 2 * Power(n - 1)
  }

  /** The first delay, doubled `n` times, within the cap. */
  function CappedDelay(n: nat): nat {
    if FIRST_DELAY * Power(n) < MAX_DELAY then FIRST_DELAY * Power(n) else MAX_DELAY
  }

  /** Each retry in a row waits twice as long as the one before, up to the cap. */
  lemma {:induction false} DelaysDouble(failures: nat)
    ensures DelayAfter(failures) == CappedDelay(failures)
  {
    if failures > 0 {
      DelaysDouble(failures - 1);
    }
  }

  lemma RetriesBackOff(run: seq<Event>)
    requires Runnable(INITIAL, run) && After(INITIAL, run).timer.Some?
    ensures var b := After(INITIAL, run);
            b.failures > 0 && b.timer.value == CappedDelay(b.failures - 1)
  {
    EveryRunKeepsInv(INITIAL, run);
    DelaysDouble(After(INITIAL, run).failures - 1);
  }

  /** Were a timer to fire between the two steps in which a failed registration
      settles, the channel would be lost for good: nothing would be pending. */
  lemma ATimerInBetweenWouldLoseTheChannel()
    ensures var failed := Step(Step(INITIAL, Subscribe), Fail);
            var lost := Step(Step(failed, TimerFires), Settle);
            lost.started && !lost.hasChannel && lost.registration == Idle && lost.timer.None?
  {
  }
}
