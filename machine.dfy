/** The life of one `captureSessionToken` call as a state machine.  JavaScript
    runs every callback to completion, so a capture is a sequence of discrete
    steps: a debugger event arrives, a body fetch completes, or the timer fires.
    An arbitrary sequence of steps stands for any interleaving of them. */
module Machine {
  import opened Wrappers
  import opened Json
  import opened Matcher

  /** The delay, in milliseconds, after which an unresolved capture gives up. */
  const TimeoutMs: nat := 10000

  /** The Promise returned by `captureSessionToken`: it resolves at most once. */
  datatype Slot = Pending | Resolved(value: Option<Json>)

  /** One callback run to completion.  `BodyArrives(i, …)` completes the `i`-th
      body fetch still in flight, the reply being the arguments of the
      `Network.getResponseBody` callback. */
  datatype Step =
    | EventArrives(event: Event)
    | BodyArrives(index: nat, lastError: bool, result: Option<BodyResult>)
    | TimerFires

  /** The closure state of one capture: the tab, whether the timeout is still
      armed, whether `onEvent` is still registered, the request ids whose body
      fetches are in flight, and the result slot. */
  datatype CaptureState = CaptureState(
    tabId: int,
    timerArmed: bool,
    listening: bool,
    inFlight: seq<string>,
    slot: Slot)

  /** The state right after the Promise executor ran: timer armed, listener
      added, nothing fetched, nothing resolved. */
  function Start(tabId: int): CaptureState {
    CaptureState(tabId, true, true, [], Pending)
  }

  /** The invariant every reachable state keeps: the timer is armed exactly
      while the result is pending, and the listener is registered while it is
      pending. */
  ghost predicate Inv(s: CaptureState) {
    (s.timerArmed <==> s.slot.Pending?) && (s.slot.Pending? ==> s.listening)
  }

  /** `resolve(v)`: the first call settles the Promise, later calls do nothing. */
  function Settle(slot: Slot, v: Option<Json>): Slot {
    if slot.Pending? then Resolved(v) else slot
  }

  /** The token that a completed fetch yields. */
  function TokenOf(decode: Decoder, lastError: bool, result: Option<BodyResult>): Option<Json> {
    ExtractToken(decode, BodyOf(lastError, result))
  }

  /** The effect of one step.  A step that is not enabled (an event after the
      listener was removed, a fetch that is not in flight, a timer that is no
      longer armed) changes nothing. */
  function Next(decode: Decoder, s: CaptureState, step: Step): (t: CaptureState)
    ensures t.tabId == s.tabId
    ensures Inv(s) ==> Inv(t)
    // the result slot is written at most once
    ensures s.slot.Resolved? ==> t.slot == s.slot
    // the listener is never added back, and the timer never re-armed
    ensures !s.listening ==> !t.listening
    ensures !s.timerArmed ==> !t.timerArmed
    // an event fetches exactly when it passes the filter while the listener is registered
    ensures step.EventArrives? ==>
      if s.listening && FetchRequest(s.tabId, step.event).Some?
      then t == s.(inFlight := s.inFlight + [step.event.requestId])
      else t == s
    // a fetch whose body yields a token resolves, clears the timer and removes the listener at once
    ensures step.BodyArrives? && step.index < |s.inFlight| &&
            TokenOf(decode, step.lastError, step.result).Some? ==>
      !t.timerArmed && !t.listening &&
      t.slot == (if s.slot.Pending? then Resolved(TokenOf(decode, step.lastError, step.result)) else s.slot)
    // a fetch yielding no token only retires that fetch
    ensures step.BodyArrives? && step.index < |s.inFlight| &&
            TokenOf(decode, step.lastError, step.result).None? ==>
      t == s.(inFlight := s.inFlight[..step.index] + s.inFlight[step.index + 1..])
    // the timeout resolves to null and leaves the listener registered
    ensures step.TimerFires? && s.timerArmed ==>
      t == s.(timerArmed := false, slot := Settle(s.slot, None)) && t.listening == s.listening
    // the result only ever changes to a token yielded by this step's body, or to the timeout's null
    ensures t.slot != s.slot ==>
      s.slot.Pending? &&
      ((step.BodyArrives? && t.slot == Resolved(TokenOf(decode, step.lastError, step.result)) &&
        t.slot.value.Some?) ||
       (step.TimerFires? && t.slot == Resolved(None)))
  {
    match step
    case EventArrives(e) =>
      if s.listening && FetchRequest(s.tabId, e).Some?
      then s.(inFlight := s.inFlight + [e.requestId])
      else s
    case BodyArrives(i, lastError, result) =>
      if i < |s.inFlight| then
        var rest := s.inFlight[..i] + s.inFlight[i + 1..];
        var token := TokenOf(decode, lastError, result);
        if token.Some?
        then s.(inFlight := rest, timerArmed := false, listening := false, slot := Settle(s.slot, token))
        else s.(inFlight := rest)
      else s
    case TimerFires =>
      if s.timerArmed then s.(timerArmed := false, slot := Settle(s.slot, None)) else s
  }

  /** The state after a whole sequence of steps. */
  function Run(decode: Decoder, s: CaptureState, steps: seq<Step>): CaptureState
    decreases |steps|
  {
    if steps == [] then s else Run(decode, Next(decode, s, steps[0]), steps[1..])
  }

  /** What `await this.captureSessionToken(tabId)` observes: the steps are taken
      until the Promise settles; if the schedule runs out first, the remaining
      wait ends with the timer firing. */
  function Await(decode: Decoder, s: CaptureState, schedule: seq<Step>): CaptureState
    decreases |schedule|
  {
    if s.slot.Resolved? then s
    else if schedule == [] then Next(decode, s, TimerFires)
    else Await(decode, Next(decode, s, schedule[0]), schedule[1..])
  }
}
