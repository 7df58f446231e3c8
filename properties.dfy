/** What holds of every sequence of steps a capture can take. */
module Properties {
  import opened Wrappers
  import opened Json
  import opened Matcher
  import opened Machine

  /** The schedule with every event of another tab dropped. */
  function OwnTab(tabId: int, steps: seq<Step>): seq<Step>
    decreases |steps|
  {
    if steps == [] then []
    else if steps[0].EventArrives? && steps[0].event.sourceTabId != Some(tabId) then OwnTab(tabId, steps[1..])
    else [steps[0]] + OwnTab(tabId, steps[1..])
  }

  lemma {:induction false} RunKeepsInv(decode: Decoder, s: CaptureState, steps: seq<Step>)
    requires Inv(s)
    ensures Inv(Run(decode, s, steps)) && Run(decode, s, steps).tabId == s.tabId
    decreases |steps|
  {
    if steps != [] {
      RunKeepsInv(decode, Next(decode, s, steps[0]), steps[1..]);
    }
  }

  /** Once the Promise has settled, with a token or with the timeout's null, no
      later event, fetch completion or timer firing changes the result. */
  lemma {:induction false} ResolvedIsFinal(decode: Decoder, s: CaptureState, steps: seq<Step>)
    requires s.slot.Resolved?
    ensures Run(decode, s, steps).slot == s.slot
    decreases |steps|
  {
    if steps != [] {
      ResolvedIsFinal(decode, Next(decode, s, steps[0]), steps[1..]);
    }
  }

  /** After a token win has removed the listener, no later event can start a
      fetch: the listener stays removed and the fetches in flight only retire. */
  lemma {:induction false} RemovedListenerStaysRemoved(decode: Decoder, s: CaptureState, steps: seq<Step>)
    requires !s.listening
    ensures !Run(decode, s, steps).listening
    ensures multiset(Run(decode, s, steps).inFlight) <= multiset(s.inFlight)
    decreases |steps|
  {
    if steps != [] {
      var s' := Next(decode, s, steps[0]);
      if steps[0].BodyArrives? && steps[0].index < |s.inFlight| {
        var i := steps[0].index;
        assert s.inFlight == s.inFlight[..i] + [s.inFlight[i]] + s.inFlight[i + 1..];
      }
      assert multiset(s'.inFlight) <= multiset(s.inFlight);
      RemovedListenerStaysRemoved(decode, s', steps[1..]);
    }
  }

  /** Events of other tabs are ignored: dropping them from any schedule leaves
      the whole outcome of the capture the same. */
  lemma {:induction false} OtherTabsIgnored(decode: Decoder, s: CaptureState, steps: seq<Step>)
    ensures Run(decode, s, steps) == Run(decode, s, OwnTab(s.tabId, steps))
    decreases |steps|
  {
    if steps != [] {
      var s' := Next(decode, s, steps[0]);
      OtherTabsIgnored(decode, s', steps[1..]);
      if steps[0].EventArrives? && steps[0].event.sourceTabId != Some(s.tabId) {
        assert s' == s;
      } else {
        var own := [steps[0]] + OwnTab(s.tabId, steps[1..]);
        assert own[0] == steps[0] && own[1..] == OwnTab(s.tabId, steps[1..]);
      }
    }
  }

  /** The capture always settles: when the schedule runs out the armed timer
      fires. */
  lemma {:induction false} AwaitResolves(decode: Decoder, s: CaptureState, schedule: seq<Step>)
    requires Inv(s)
    ensures Await(decode, s, schedule).slot.Resolved?
    decreases |schedule|
  {
    if s.slot.Pending? && schedule != [] {
      AwaitResolves(decode, Next(decode, s, schedule[0]), schedule[1..]);
    }
  }

  /** The value `await` observes is the value the slot holds after the whole
      schedule followed by the timer: steps after the settlement do not matter. */
  lemma {:induction false} AwaitAgreesWithRun(decode: Decoder, s: CaptureState, schedule: seq<Step>)
    requires Inv(s)
    ensures Await(decode, s, schedule).slot == Run(decode, s, schedule + [TimerFires]).slot
    decreases |schedule|
  {
    if s.slot.Resolved? {
      ResolvedIsFinal(decode, s, schedule + [TimerFires]);
    } else if schedule == [] {
      assert schedule + [TimerFires] == [TimerFires];
    } else {
      AwaitAgreesWithRun(decode, Next(decode, s, schedule[0]), schedule[1..]);
      var full := schedule + [TimerFires];
      assert full[0] == schedule[0] && full[1..] == schedule[1..] + [TimerFires];
    }
  }

  /** A token result is never invented: it is the token of a body whose fetch
      was in flight when the step that completed it ran. */
  lemma {:induction false} TokenComesFromAFetch(decode: Decoder, s: CaptureState, schedule: seq<Step>, v: Json)
    requires s.slot.Pending?
    requires Await(decode, s, schedule).slot == Resolved(Some(v))
    ensures exists k ::
      0 <= k < |schedule| && schedule[k].BodyArrives? &&
      schedule[k].index < |Run(decode, s, schedule[..k]).inFlight| &&
      TokenOf(decode, schedule[k].lastError, schedule[k].result) == Some(v)
    decreases |schedule|
  {
    assert schedule != [];
    var s' := Next(decode, s, schedule[0]);
    if s'.slot.Resolved? {
      assert s'.slot != s.slot;
      assert schedule[0].BodyArrives? && schedule[0].index < |s.inFlight|;
      assert schedule[..0] == [];
    } else {
      TokenComesFromAFetch(decode, s', schedule[1..], v);
      var k :| 0 <= k < |schedule[1..]| && schedule[1..][k].BodyArrives? &&
        schedule[1..][k].index < |Run(decode, s', schedule[1..][..k]).inFlight| &&
        TokenOf(decode, schedule[1..][k].lastError, schedule[1..][k].result) == Some(v);
      assert schedule[k + 1] == schedule[1..][k];
      var prefix := schedule[..k + 1];
      assert prefix[0] == schedule[0] && prefix[1..] == schedule[1..][..k];
      assert Run(decode, s, prefix) == Run(decode, s', schedule[1..][..k]);
    }
  }

  /** If no completed fetch yields a token, the capture resolves to null. */
  lemma {:induction false} NoTokenMeansNull(decode: Decoder, s: CaptureState, schedule: seq<Step>)
    requires Inv(s) && s.slot.Pending?
    requires forall k :: 0 <= k < |schedule| && schedule[k].BodyArrives? ==>
      TokenOf(decode, schedule[k].lastError, schedule[k].result).None?
    ensures Await(decode, s, schedule).slot == Resolved(None)
  {
    AwaitResolves(decode, s, schedule);
    if Await(decode, s, schedule).slot.value.Some? {
      TokenComesFromAFetch(decode, s, schedule, Await(decode, s, schedule).slot.value.value);
    }
  }

  /** If no event of the schedule passes the filter, nothing is ever fetched
      and the capture resolves to null. */
  lemma {:induction false} NoRelevantEventMeansNull(decode: Decoder, s: CaptureState, schedule: seq<Step>)
    requires Inv(s) && s.slot.Pending? && s.inFlight == []
    requires forall k :: 0 <= k < |schedule| && schedule[k].EventArrives? ==>
      FetchRequest(s.tabId, schedule[k].event).None?
    ensures Await(decode, s, schedule).slot == Resolved(None)
    ensures Await(decode, s, schedule).inFlight == []
    decreases |schedule|
  {
    if schedule != [] {
      if !schedule[0].TimerFires? {
        var s' := Next(decode, s, schedule[0]);
        assert s' == s;
        assert forall k :: 0 <= k < |schedule[1..]| ==> schedule[1..][k] == schedule[k + 1];
        NoRelevantEventMeansNull(decode, s', schedule[1..]);
      }
    }
  }

  /** The timeout path leaves the listener registered: a capture that settles
      with null never removed `onEvent`. */
  lemma {:induction false} NullResultKeepsListener(decode: Decoder, s: CaptureState, schedule: seq<Step>)
    requires Inv(s) && s.slot.Pending?
    requires Await(decode, s, schedule).slot == Resolved(None)
    ensures Await(decode, s, schedule).listening
    decreases |schedule|
  {
    if schedule != [] {
      var s' := Next(decode, s, schedule[0]);
      if s'.slot.Pending? {
        NullResultKeepsListener(decode, s', schedule[1..]);
      } else {
        assert s'.slot != s.slot;
      }
    }
  }

  /** One relevant response whose body decodes to an object with a truthy
      `accessToken` resolves the capture to that value. */
  lemma SingleTokenResponse(decode: Decoder, tabId: int, e: Event, token: Json, body: string)
    requires FetchRequest(tabId, e).Some?
    requires body != "" && decode(body) == Some(JObject(map[TokenField := token])) && Truthy(token)
    ensures Await(decode, Start(tabId), [EventArrives(e), BodyArrives(0, false, Some(BodyResult(Some(body))))]).slot
      == Resolved(Some(token))
  {
    var fetched := BodyArrives(0, false, Some(BodyResult(Some(body))));
    var schedule := [EventArrives(e), fetched];
    var s1 := Next(decode, Start(tabId), EventArrives(e));
    assert s1.inFlight == [e.requestId];
    assert TokenOf(decode, false, Some(BodyResult(Some(body)))) == Some(token);
    var s2 := Next(decode, s1, fetched);
    assert s2.slot == Resolved(Some(token));
    assert schedule[1..] == [fetched];
    assert Await(decode, Start(tabId), schedule) == Await(decode, s1, [fetched]);
    assert Await(decode, s1, [fetched]) == Await(decode, s2, []);
  }

  /** A malformed body is skipped and a later relevant response still yields
      its token. */
  lemma MalformedThenValid(decode: Decoder, tabId: int, e1: Event, e2: Event, bad: string, good: string, token: Json)
    requires FetchRequest(tabId, e1).Some? && FetchRequest(tabId, e2).Some?
    requires decode(bad).None?
    requires good != "" && decode(good) == Some(JObject(map[TokenField := token])) && Truthy(token)
    ensures Await(decode, Start(tabId),
      [EventArrives(e1), BodyArrives(0, false, Some(BodyResult(Some(bad)))),
       EventArrives(e2), BodyArrives(0, false, Some(BodyResult(Some(good))))]).slot
      == Resolved(Some(token))
  {
    var schedule := [EventArrives(e1), BodyArrives(0, false, Some(BodyResult(Some(bad)))),
       EventArrives(e2), BodyArrives(0, false, Some(BodyResult(Some(good))))];
    var s1 := Next(decode, Start(tabId), schedule[0]);
    assert TokenOf(decode, false, Some(BodyResult(Some(bad)))) == None;
    var s2 := Next(decode, s1, schedule[1]);
    assert s2.inFlight == [] && s2.slot.Pending?;
    var s3 := Next(decode, s2, schedule[2]);
    assert s3.inFlight == [e2.requestId];
    assert TokenOf(decode, false, Some(BodyResult(Some(good)))) == Some(token);
    var s4 := Next(decode, s3, schedule[3]);
    assert s4.slot == Resolved(Some(token));
    assert Await(decode, Start(tabId), schedule) == Await(decode, s1, schedule[1..]);
    assert Await(decode, s1, schedule[1..]) == Await(decode, s2, schedule[2..]);
    assert Await(decode, s2, schedule[2..]) == Await(decode, s3, schedule[3..]);
    assert Await(decode, s3, schedule[3..]) == Await(decode, s4, []);
  }

  /** Fetches may complete out of order: the first completion that yields a
      token wins, and a later one is discarded. */
  lemma FirstCompletionWins(decode: Decoder, tabId: int, e1: Event, e2: Event,
                            r1: BodyResult, r2: BodyResult, tail: seq<Step>)
    requires FetchRequest(tabId, e1).Some? && FetchRequest(tabId, e2).Some?
    requires TokenOf(decode, false, Some(r1)).Some? && TokenOf(decode, false, Some(r2)).Some?
    ensures Run(decode, Start(tabId),
      [EventArrives(e1), EventArrives(e2), BodyArrives(1, false, Some(r2)), BodyArrives(0, false, Some(r1))] + tail).slot
      == Resolved(TokenOf(decode, false, Some(r2)))
  {
    var prefix := [EventArrives(e1), EventArrives(e2), BodyArrives(1, false, Some(r2))];
    var s1 := Next(decode, Start(tabId), prefix[0]);
    var s2 := Next(decode, s1, prefix[1]);
    assert s2.inFlight == [e1.requestId, e2.requestId];
    var s3 := Next(decode, s2, prefix[2]);
    assert s3.slot == Resolved(TokenOf(decode, false, Some(r2)));
    assert Run(decode, Start(tabId), prefix) == Run(decode, s1, prefix[1..]);
    assert Run(decode, s1, prefix[1..]) == Run(decode, s2, prefix[2..]);
    assert Run(decode, s2, prefix[2..]) == Run(decode, s3, []);
    RunAppend(decode, Start(tabId), prefix, [BodyArrives(0, false, Some(r1))] + tail);
    assert prefix + ([BodyArrives(0, false, Some(r1))] + tail) ==
      [EventArrives(e1), EventArrives(e2), BodyArrives(1, false, Some(r2)), BodyArrives(0, false, Some(r1))] + tail;
    assert Run(decode, Start(tabId), prefix) == s3;
    ResolvedIsFinal(decode, s3, [BodyArrives(0, false, Some(r1))] + tail);
  }

  lemma {:induction false} RunAppend(decode: Decoder, s: CaptureState, a: seq<Step>, b: seq<Step>)
    ensures Run(decode, s, a + b) == Run(decode, Run(decode, s, a), b)
    decreases |a|
  {
    if a == [] {
      assert a + b == b;
    } else {
      RunAppend(decode, Next(decode, s, a[0]), a[1..], b);
      assert (a + b)[0] == a[0] && (a + b)[1..] == a[1..] + b;
    }
  }
}
