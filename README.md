# Token capture engine, modelled in Dafny

This project models the `TokenCapture` class of `src/background.ts`, the
background script of a browser extension. It reads an authentication token
out of a network response of a browser tab:

1. it attaches the Chrome debugger to the tab;
2. it listens for `Network.responseReceived` events whose response URL contains
   `session`;
3. it fetches each such response body and reads its `accessToken` field;
4. it settles with the first token found, or with `null` after a 10000 ms
   timeout;
5. it detaches the debugger and answers the `getToken` message with
   `{token}`.

The model has two layers.

- **Pure decisions** (`Matcher`): the `onEvent` filter (`FetchRequest`), the
  mapping done by the `Network.getResponseBody` callback (`BodyOf`), and
  `extractTokenFromResponse` (`ExtractToken`). Decoded JSON is the `Json`
  datatype. JavaScript's truthiness on it is `Truthy`. `JSON.parse` is a
  parameter `decode: string -> Option<Json>`, and `None` stands for the parse
  throwing.
- **The capture lifecycle**. One `captureSessionToken` call is a state machine
  (`Machine.CaptureState`). Its state is:
  - the timer is armed or not;
  - the listener is registered or not;
  - the body fetches still in flight;
  - a single-assignment result slot, because a Promise settles once.

  Every callback runs to completion, so a capture is a sequence of `Step`s:
  an event arrives, a fetch completes, or the timer fires. Any such sequence
  stands for one interleaving. `Machine.Next` is the effect of one step and
  `Machine.Run` the effect of a sequence. `Machine.Await` is what
  `await captureSessionToken(...)` observes: steps run until the slot settles,
  and if the schedule runs out first the armed timer fires.

  The imperative side follows the source's own shape:
  - `Closure.Capture` is the closure itself. It has one method per callback.
    Each method is proved to change the state exactly as `Next` says.
  - `Background.TokenCapture` is the service object. Its `HandleGetToken`
    sequences attach, capture and detach. `OnMessage` is the
    `chrome.runtime.onMessage` listener.

The browser is represented by inputs:
- whether `chrome.runtime.lastError` was set on attach;
- the debugger events;
- the `getResponseBody` replies;
- the timer firing.

Notable behaviour of the source:
- an attach failure gives `null`, not a distinct failure value;
- the `Network.enable` outcome is ignored rather than being fatal;
- the timeout resolves to `null` but does **not** remove the `onEvent`
  listener. `Properties.NullResultKeepsListener` proves this.
  `TokenCapture.leftListeners` counts the listeners still registered when
  their capture settles. This is an upper bound, because a fetch that
  completes later can still remove one;
- `detachDebugger` is called even when attaching failed.

At run time `accessToken` may be any truthy JSON value, not only a string,
because `data.accessToken || null` returns it unchanged. Tokens are therefore
`Json` values.

## Model

| member | source | states |
|---|---|---|
| `Matcher.Includes` | src/background.ts:87 | `url.includes(marker)` is true exactly when the marker occurs in the URL at some index (substring search, not a URL parse) |
| `Matcher.FetchRequest` | src/background.ts:82-88 | an event leads to a body fetch exactly when it has the capture's tab, the method `Network.responseReceived` and a URL containing `session`; the fetch is for the event's request id |
| `Matcher.BodyOf` | src/background.ts:116-121 | the body mapping is total: a protocol error or missing result gives null, a result without `body` gives `"error"`, anything else gives the body text |
| `Matcher.ExtractToken` | src/background.ts:127-137 | null for a null or empty body and for a body that fails to decode; otherwise a token exactly when the decoded value is an object whose `accessToken` is truthy, and then it is that value (an empty-string token gives null) |
| `Machine.Next` | src/background.ts:78-99 | one callback keeps the tab and the invariant; the slot is never rewritten once settled; listener and timer never come back; an event fetches exactly when it passes the filter while the listener is registered; a token win clears the timer, removes the listener and settles in the same step; the timer settles to null and leaves the listener; the slot changes only to a token yielded by this step's body or to the timeout's null |
| `Properties.RunKeepsInv` | src/background.ts:76-107 | over any interleaving the timer stays armed exactly while the result is pending, and the listener stays registered while it is pending |
| `Properties.ResolvedIsFinal` | src/background.ts:78-95 | once settled (token or timeout), no later event, fetch completion or timer firing changes the result |
| `Properties.RemovedListenerStaysRemoved` | src/background.ts:91-94 | after a token win has removed the listener, the listener never returns and the fetches in flight form a sub-multiset of those before, so no later event starts a fetch |
| `Properties.OtherTabsIgnored` | src/background.ts:83 | dropping every event of another tab from any schedule leaves the capture's whole state the same |
| `Properties.AwaitResolves` | src/background.ts:76-80 | the awaited capture always settles, whatever events arrive or do not |
| `Properties.AwaitAgreesWithRun` | src/background.ts:45-47 | the value `await` observes equals the slot after the whole schedule followed by the timer: steps after settlement do not matter |
| `Properties.TokenComesFromAFetch` | src/background.ts:88-95 | a token result is the token yielded by a step that completed a fetch then in flight |
| `Properties.NoTokenMeansNull` | src/background.ts:78-80 | if no completed fetch yields a token, the capture resolves to null |
| `Properties.NoRelevantEventMeansNull` | src/background.ts:82-99 | if no event passes the filter, nothing is fetched and the capture resolves to null |
| `Properties.NullResultKeepsListener` | src/background.ts:78-80 | a capture that settles with null never removed its listener |
| `Properties.SingleTokenResponse` | src/background.ts:85-95 | one relevant response whose body decodes to `{accessToken: v}` with `v` truthy resolves the capture to `v` |
| `Properties.MalformedThenValid` | src/background.ts:127-137 | a body that fails to decode is skipped and a later relevant body's token still wins |
| `Properties.FirstCompletionWins` | src/background.ts:88-95 | of two token-yielding fetches, the first to complete decides the result and the later one is discarded, whatever follows |
| `Closure.Capture.constructor` | src/background.ts:77-101 | the executor arms a 10000 ms timer, registers the listener, has nothing in flight and leaves the result pending |
| `Closure.Capture.Resolve` | src/background.ts:79 | `resolve` settles a pending slot and leaves a settled one unchanged |
| `Closure.Capture.OnEvent` | src/background.ts:82-99 | the listener changes the closure state exactly as `Next` does for the event, and an event of another tab changes nothing |
| `Closure.Capture.OnBodyReply` | src/background.ts:89-96 | a fetch completion changes the closure state exactly as `Next` does, and never rewrites a settled result |
| `Closure.Capture.OnTimer` | src/background.ts:78-80 | the timeout changes the closure state as `Next` does: a pending result becomes null and the listener is untouched |
| `Closure.Capture.Take` | src/background.ts:82-99 | dispatching any step to its callback changes the state as `Next` does |
| `Background.ReplyTo` | src/background.ts:33-34 | a fulfilled outcome is answered with `{token}`, a rejection with `{token: null}` |
| `Background.TokenCapture.constructor` | src/background.ts:21-27 | a new service has no active tab, no attachment and no captures |
| `Background.TokenCapture.AttachDebugger` | src/background.ts:56-66 | attaching succeeds exactly when no `lastError` is reported, and only then marks the tab attached |
| `Background.TokenCapture.DetachDebugger` | src/background.ts:68-74 | detaching always completes and leaves the tab detached, whatever the previous state |
| `Background.TokenCapture.CaptureSessionToken` | src/background.ts:76-108 | running the callbacks until settlement yields exactly the value `Await` settles to, and whether the listener was left registered |
| `Background.TokenCapture.HandleGetToken` | src/background.ts:40-54 | sets the active tab, detaches exactly once on every path; a failed attach returns null without starting a capture; otherwise returns the settled capture value and counts the listener when it is still registered at settlement (an upper bound of the listeners left behind) |
| `Background.TokenCapture.OnMessage` | src/background.ts:30-37 | a `getToken` request keeps the channel open and is answered exactly once with the captured token (null after a failed attach); it sets the active tab, detaches once, starts a capture only after a successful attach and counts the listener as `HandleGetToken` does; any other request gets no answer and changes nothing |

## Left out

- `src/popup.ts`: DOM updates, tab lookup, clipboard and a status timer, with no logic of the capture.
- `chrome.debugger`, `chrome.runtime` and `chrome.runtime.lastError`: these become inputs. The attach outcome is a flag, events and body replies are `Step`s. The Chrome API is not modelled beyond the callback arguments the source reads.
- `JSON.parse`: a parameter `decode`. The model does not know which strings decode, so "error" and other non-JSON bodies are covered only through it.
- Wall-clock time: the 10000 ms delay is recorded (`Capture.delayMs`), but the timeout is a discrete `TimerFires` step. It is enabled while the timer is armed.
- `Network.enable` (src/background.ts:104-106): the source ignores its outcome, so the model leaves it out.
- `console.error` logging, the unused `capturedRequests` map and the `NetworkRequest` interface.
- A synchronous exception thrown by a Chrome API inside the Promise executor. It would make `captureSessionToken` reject. `handleGetToken` catches that (src/background.ts:49-52), detaches and returns `null`. The model does not include this path.
- A rejection of `detachDebugger`. It is the only way `handleGetToken` itself could reject, and then line 51 would call detach a second time. Its Promise always resolves, so the model has `HandleGetToken` never reject and `OnMessage` always answers with `ReplyTo(Fulfilled(...))`.
- Concurrent `getToken` requests. The source does not serialise them, and they share `activeTabId`, which is written and never read. One capture runs at a time here. A listener a timed-out capture leaves behind is counted, but the model does not track its effect on a later capture of the same tab. That effect would be extra body fetches and a no-op `resolve`.
- `Background.TokenCapture.CaptureSessionToken`: the steps that run after the Promise settles, while `detachDebugger` is pending, are not taken, since `Properties.ResolvedIsFinal` shows they cannot change the result.
- `Background.TokenCapture.HandleGetToken`: the listener count records the state at settlement. After a timeout, a fetch that completes while `detachDebugger` is pending, or later, can still run `removeListener` (src/background.ts:93) and remove a listener that was counted. `leftListeners` is therefore an upper bound, not the exact number of listeners left behind.
- `Matcher.Includes`: compares Dafny characters, not UTF-16 code units as JavaScript does.
