/** The closure that one `captureSessionToken` call builds: the timer handle,
    the `onEvent` listener, the body fetches it has started, and the Promise's
    result slot.  Each method is one callback run to completion. */
module Closure {
  import opened Wrappers
  import opened Json
  import opened Matcher
  import opened Machine

  class Capture {
    const tabId: int
    const decode: Decoder
    /** The delay passed to `setTimeout`. */
    const delayMs: nat
    var timerArmed: bool
    var listening: bool
    var inFlight: seq<string>
    var slot: Slot

    ghost function State(): CaptureState
      reads this
    {
      CaptureState(tabId, timerArmed, listening, inFlight, slot)
    }

    ghost predicate Valid()
      reads this
    {
      Inv(State())
    }

    /** The Promise executor: arms the timeout and adds the listener. */
    constructor (tabId: int, decode: Decoder)
      ensures Valid() && State() == Start(tabId)
      ensures this.decode == decode && delayMs == TimeoutMs
    {
      this.tabId := tabId;
      this.decode := decode;
      delayMs := TimeoutMs;
      timerArmed := true;
      listening := true;
      inFlight := [];
      slot := Pending;
    }

    /** `resolve(v)`: only the first call has an effect. */
    method Resolve(v: Option<Json>)
      modifies this`slot
      ensures slot == Settle(old(slot), v)
      ensures old(slot).Resolved? ==> slot == old(slot)
    {
      if slot.Pending? {
        slot := Resolved(v);
      }
    }

    /** `onEvent`, invoked by the debugger's event dispatch while it is
        registered: starts a body fetch for a relevant response of this tab. */
    method OnEvent(e: Event)
      requires Valid()
      modifies this
      ensures Valid() && State() == Next(decode, old(State()), EventArrives(e))
      ensures e.sourceTabId != Some(tabId) ==> State() == old(State())
    {
      if !listening {
        return;
      }
      var request := FetchRequest(tabId, e);
      if request.Some? {
        inFlight := inFlight + [request.value];
      }
    }

    /** The `.then` callback of the `index`-th fetch still in flight. */
    method OnBodyReply(index: nat, lastError: bool, result: Option<BodyResult>)
      requires Valid()
      modifies this
      ensures Valid() && State() == Next(decode, old(State()), BodyArrives(index, lastError, result))
      ensures old(slot).Resolved? ==> slot == old(slot)
    {
      if index >= |inFlight| {
        return;
      }
      inFlight := inFlight[..index] + inFlight[index + 1..];
      var body := BodyOf(lastError, result);
      var token := ExtractToken(decode, body);
      if token.Some? {
        timerArmed := false;   // clearTimeout(timeout)
        listening := false;    // chrome.debugger.onEvent.removeListener(onEvent)
        Resolve(token);
      }
    }

    /** The `setTimeout` callback, run only if the timer was not cleared. */
    method OnTimer()
      requires Valid()
      modifies this
      ensures Valid() && State() == Next(decode, old(State()), TimerFires)
      ensures old(slot).Pending? ==> slot == Resolved(None) && listening == old(listening)
    {
      if !timerArmed {
        return;
      }
      timerArmed := false;
      Resolve(None);
    }

    /** Runs whichever callback `step` stands for. */
    method Take(step: Step)
      requires Valid()
      modifies this
      ensures Valid() && State() == Next(decode, old(State()), step)
    {
      match step
      case EventArrives(e) => OnEvent(e);
      case BodyArrives(i, lastError, result) => OnBodyReply(i, lastError, result);
      case TimerFires => OnTimer();
    }
  }
}
