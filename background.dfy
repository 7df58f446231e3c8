/** The `TokenCapture` service of src/background.ts: the `getToken` message
    handler and `handleGetToken`, which attaches the debugger, awaits the
    capture and detaches again. */
module Background {
  import opened Wrappers
  import opened Json
  import opened Matcher
  import opened Machine
  import opened Closure

  /** A `chrome.runtime` message. */
  datatype Request = Request(action: string, tabId: int)

  /** The object passed to `sendResponse`. */
  datatype Reply = Reply(token: Option<Json>)

  /** How the Promise returned by `handleGetToken` settles. */
  datatype Outcome = Fulfilled(value: Option<Json>) | Rejected

  const GetTokenAction: string := "getToken"

  /** The `.then` / `.catch` pair of the message handler: a fulfilled outcome
      is answered with its token, a rejection with a null token. */
  function ReplyTo(outcome: Outcome): (r: Reply)
    ensures outcome.Rejected? ==> r.token.None?
    ensures outcome.Fulfilled? ==> r.token == outcome.value
  {
    match outcome
    case Fulfilled(v) => Reply(v)
    case Rejected => Reply(None)
  }

  class TokenCapture {
    /** `JSON.parse`. */
    const decode: Decoder
    var activeTabId: Option<int>
    /** Whether the debugger is attached to the tab of the running capture. */
    var attached: bool
    /** How many times `detachDebugger` was called. */
    ghost var detachCalls: nat
    /** How many captures were started. */
    ghost var capturesStarted: nat
    /** How many captures settled with their `onEvent` listener still in the
        debugger's process-wide event dispatch.  A fetch completing after the
        settlement can still remove such a listener, so this bounds from above
        the listeners left behind. */
    ghost var leftListeners: nat

    constructor (decode: Decoder)
      ensures this.decode == decode && activeTabId.None? && !attached
      ensures detachCalls == 0 && capturesStarted == 0 && leftListeners == 0
    {
      this.decode := decode;
      activeTabId := None;
      attached := false;
      detachCalls := 0;
      capturesStarted := 0;
      leftListeners := 0;
    }

    /** `attachDebugger`: `lastError` is whether `chrome.runtime.lastError` was
        set in the attach callback; the Promise rejects exactly then. */
    method AttachDebugger(tabId: int, lastError: bool) returns (ok: bool)
      modifies this`attached
      ensures ok == !lastError
      ensures attached == (old(attached) || ok)
    {
      ok := !lastError;
      if ok {
        attached := true;
      }
    }

    /** `detachDebugger`: always resolves, whatever the attachment state. */
    method DetachDebugger(tabId: int)
      modifies this`attached, this`detachCalls
      ensures !attached && detachCalls == old(detachCalls) + 1
    {
      attached := false;
      detachCalls := detachCalls + 1;
    }

    /** `captureSessionToken`, awaited: the callbacks of `schedule` run in
        order until the Promise settles; if the schedule runs out first, the
        armed timer fires.  The result is the settled value; `stillListening`
        tells whether `onEvent` is still registered at that moment. */
    method CaptureSessionToken(tabId: int, schedule: seq<Step>) returns (token: Option<Json>, stillListening: bool)
      ensures Await(decode, Start(tabId), schedule).slot == Resolved(token)
      ensures stillListening == Await(decode, Start(tabId), schedule).listening
    {
      var capture := new Capture(tabId, decode);
      var i := 0;
      while i < |schedule| && capture.slot.Pending?
        invariant 0 <= i <= |schedule|
        invariant capture.Valid() && capture.decode == decode
        invariant Await(decode, Start(tabId), schedule) == Await(decode, capture.State(), schedule[i..])
      {
        assert schedule[i..][0] == schedule[i] && schedule[i..][1..] == schedule[i + 1..];
        capture.Take(schedule[i]);
        i := i + 1;
      }
      if capture.slot.Pending? {
        assert schedule[i..] == [];
        capture.OnTimer();
      }
      token, stillListening := capture.slot.value, capture.listening;
    }

    /** `handleGetToken`: attaches, captures and detaches.  A failed attach
        skips the capture and yields null; on every path the debugger is
        detached exactly once. */
    method HandleGetToken(tabId: int, attachError: bool, schedule: seq<Step>) returns (token: Option<Json>)
      modifies this
      ensures activeTabId == Some(tabId)
      ensures detachCalls == old(detachCalls) + 1 && !attached
      ensures attachError ==> token.None?
      ensures !attachError ==> Await(decode, Start(tabId), schedule).slot == Resolved(token)
      // a failed attach never starts the capture
      ensures capturesStarted == old(capturesStarted) + (if attachError then 0 else 1)
      // counted exactly when the listener was still registered as the capture settled
      ensures leftListeners == old(leftListeners) +
        (if !attachError && Await(decode, Start(tabId), schedule).listening then 1 else 0)
    {
      activeTabId := Some(tabId);
      var ok := AttachDebugger(tabId, attachError);
      if !ok {
        DetachDebugger(tabId);
        return None;
      }
      capturesStarted := capturesStarted + 1;
      var stillListening;
      token, stillListening := CaptureSessionToken(tabId, schedule);
      if stillListening {
        leftListeners := leftListeners + 1;
      }
      DetachDebugger(tabId);
    }

    /** The `chrome.runtime.onMessage` listener: a `getToken` request keeps the
        channel open and is answered once with the capture's token; any other
        request is not answered and changes nothing. */
    method OnMessage(request: Request, attachError: bool, schedule: seq<Step>)
      returns (keepOpen: bool, reply: Option<Reply>)
      modifies this
      ensures keepOpen <==> request.action == GetTokenAction
      ensures reply.Some? <==> keepOpen
      ensures !keepOpen ==> unchanged(this)
      ensures keepOpen ==> activeTabId == Some(request.tabId)
      ensures keepOpen ==> detachCalls == old(detachCalls) + 1 && !attached
      ensures keepOpen ==> capturesStarted == old(capturesStarted) + (if attachError then 0 else 1)
      ensures keepOpen ==>
        leftListeners == old(leftListeners) +
          (if !attachError && Await(decode, Start(request.tabId), schedule).listening then 1 else 0)
      ensures keepOpen && attachError ==> reply.value.token.None?
      ensures keepOpen && !attachError ==>
        Await(decode, Start(request.tabId), schedule).slot == Resolved(reply.value.token)
    {
      if request.action != GetTokenAction {
        return false, None;
      }
      var token := HandleGetToken(request.tabId, attachError, schedule);
      return true, Some(ReplyTo(Fulfilled(token)));
    }
  }
}
