/** The pure decisions of the capture: which debugger events lead to a body
    fetch, how the reply of `Network.getResponseBody` becomes a body, and how a
    body becomes a token (src/background.ts, `onEvent`, `getResponseBody` and
    `extractTokenFromResponse`). */
module Matcher {
  import opened Wrappers
  import opened Json

  /** The only debugger event the capture reacts to. */
  const ResponseReceived: string := "Network.responseReceived"
  /** The substring a response URL must contain for its body to be fetched. */
  const SessionMarker: string := "session"
  /** The field of the decoded body that holds the token. */
  const TokenField: string := "accessToken"
  /** The body reported for a reply that carries a result but no `body`. */
  const MissingBody: string := "error"

  /** A `chrome.debugger.onEvent` notification: the debuggee's tab (absent for
      debuggees that are not tabs), the protocol method, and the two fields of
      its parameters that the capture reads.  `requestId` and `url` are only
      looked at when `protocolMethod` is `Network.responseReceived`. */
  datatype Event = Event(sourceTabId: Option<int>, protocolMethod: string, requestId: string, url: string)

  /** The `result` argument of the `Network.getResponseBody` callback. */
  datatype BodyResult = BodyResult(body: Option<string>)

  /** `sub` occurs in `s` starting at index `i`. */
  predicate OccursAt(s: string, sub: string, i: int) {
    0 <= i && i + |sub| <= |s| && s[i..i + |sub|] == sub
  }

  lemma OccursShift(s: string, sub: string, i: int)
    requires |s| >= 1 && i >= 0
    ensures OccursAt(s, sub, i + 1) <==> OccursAt(s[1..], sub, i)
  {
  }

  /** `String.prototype.includes`: a plain substring search, not a URL parse. */
  function Includes(s: string, sub: string): (r: bool)
    ensures r <==> exists i :: OccursAt(s, sub, i)
    decreases |s|
  {
    if |s| < |sub| then false
    else if s[..|sub|] == sub then
      assert OccursAt(s, sub, 0);
      true
    else
      IncludesStep(s, sub);
      Includes(s[1..], sub)
  }

  lemma IncludesStep(s: string, sub: string)
    requires |s| >= |sub| && s[..|sub|] != sub
    ensures (exists i :: OccursAt(s, sub, i)) <==> (exists j :: OccursAt(s[1..], sub, j))
  {
    if exists i :: OccursAt(s, sub, i) {
      var i :| OccursAt(s, sub, i);
      assert i != 0;
      OccursShift(s, sub, i - 1);
    }
    if exists j :: OccursAt(s[1..], sub, j) {
      var j :| OccursAt(s[1..], sub, j);
      OccursShift(s, sub, j);
    }
  }

  /** The `onEvent` filter of `captureSessionToken`: the request whose body is
      to be fetched, if any.  An event of another tab, of another method, or of
      a response whose URL lacks the marker leads to no fetch. */
  function FetchRequest(tabId: int, e: Event): (r: Option<string>)
    ensures r.Some? <==>
      e.sourceTabId == Some(tabId) && e.protocolMethod == ResponseReceived &&
      exists i :: OccursAt(e.url, SessionMarker, i)
    ensures r.Some? ==> r.value == e.requestId
  {
    if e.sourceTabId != Some(tabId) then None
    else if e.protocolMethod != ResponseReceived then None
    else if !Includes(e.url, SessionMarker) then None
    else Some(e.requestId)
  }

  /** The mapping done by the `Network.getResponseBody` callback: `null` when
      the command failed or produced no result, the literal "error" when the
      result has no `body`, and the body text otherwise. */
  function BodyOf(lastError: bool, result: Option<BodyResult>): (r: Option<string>)
    ensures r.None? <==> lastError || result.None?
    ensures r.Some? ==>
      result.Some? && r.value == (if result.value.body.Some? then result.value.body.value else MissingBody)
  {
    if lastError || result.None? then None
    else match result.value.body
      case Some(b) => Some(b)
      case None => Some(MissingBody)
  }

  /** What reading `data.accessToken` gives: a TypeError for `null`, an own
      field of an object, or `undefined` for every other value (no prototype of
      a JSON value has an `accessToken` property). */
  datatype Access = Thrown | Undefined | Value(v: Json)

  function AccessToken(data: Json): Access {
    match data
    case JNull => Thrown
    case JObject(fields) => if TokenField in fields then Value(fields[TokenField]) else Undefined
    case _ => Undefined
  }

  /** The token a decoded body carries, if any. */
  ghost predicate CarriesToken(data: Json) {
    data.JObject? && TokenField in data.fields && Truthy(data.fields[TokenField])
  }

  /** `extractTokenFromResponse`: `null` for a missing or empty body, for a
      body that does not decode (the exception is caught), and for a decoded
      value whose `accessToken` is absent or falsy (`data.accessToken || null`);
      otherwise the value of `accessToken`, whatever its JSON type. */
  function ExtractToken(decode: Decoder, body: Option<string>): (r: Option<Json>)
    ensures body.None? || body == Some("") ==> r.None?
    ensures body.Some? && body.value != "" && decode(body.value).None? ==> r.None?
    ensures r.Some? <==>
      body.Some? && body.value != "" && decode(body.value).Some? && CarriesToken(decode(body.value).value)
    ensures r.Some? ==> Truthy(r.value) && r.value == decode(body.value).value.fields[TokenField]
  {
    if body.None? || body.value == "" then None
    else match decode(body.value)
      case None => None
      case Some(data) =>
        match AccessToken(data)
        case Thrown => None
        case Undefined => None
        case Value(v) => if Truthy(v) then Some(v) else None
  }
}
