/** ProcessNetworkEvents: a state machine per request id over the four Resource* events,
    building `self.networks`. */
module Network {
  import opened Wrappers
  import opened Events
  import opened Dicts

  /** `self.networks[requestId]`; a field is None until an event sets it. Times are in
      milliseconds from the trace start. */
  datatype NetRecord = NetRecord(
    url: Option<string>,
    startTime: Option<real>,
    fromScript: Option<string>,
    statusCode: Option<int>,
    responseReceivedTime: Option<real>,
    mimeType: Option<string>,
    transferSize: Option<int>,
    endTime: Option<real>)

  const EmptyRecord := NetRecord(None, None, None, None, None, None, None, None)

  /** The `fromScript` value of a request without a stack trace. */
  const NoScript: string := "Null"

  type Networks = Dict<string, NetRecord>

  /** The request id of an event, when it has one. */
  function RequestId(ev: TraceEvent): Option<string> {
    if DataOf(ev).Some? then DataOf(ev).value.requestId else None
  }

  /** The record of `id` before an event: the stored one, or the empty dict the loop
      registers for a new id. */
  function Prior(d: Networks, id: string): NetRecord {
    if id in d.vals then d.vals[id] else EmptyRecord
  }

  /** When an event with a request id raises: a key the event's kind reads is missing, a
      time must be converted while the trace start is unknown, the stack trace is empty,
      or the name is not one of the four. */
  predicate StepFails(name: string, data: Data, start: Option<int>) {
    if name == "ResourceSendRequest" then
      data.url.None? || start.None? || data.stackTrace == Some([])
    else if name == "ResourceReceiveResponse" then
      data.statusCode.None? || data.mimeType.None? || start.None?
    else if name == "ResourceReceivedData" then
      data.encodedDataLength.None?
    else if name == "ResourceFinish" then
      data.didFail.None? || (data.didFail == Some(false) && start.None?)
    else true
  }

  /** One event of ProcessNetworkEvents. The request id is registered (empty) first; then
      ResourceSendRequest sets url, start and triggering script, ResourceReceiveResponse the
      status, response time and mime type, ResourceReceivedData overwrites the transfer
      size, and ResourceFinish sets the end or, for a failed request, removes the id. A
      missing key or any other event name is an error, and so is a time to convert before
      the trace start is known (`start` is None). */
  function NetStep(d: Networks, ev: TraceEvent, start: Option<int>): (r: Result<Networks>)
    requires Valid(d)
    ensures r.Ok? ==> Valid(r.value) && RequestId(ev).Some?
    ensures r.Ok? ==> forall k :: k != RequestId(ev).value ==>
      (k in r.value.vals <==> k in d.vals) && (k in d.vals ==> r.value.vals[k] == d.vals[k])
    ensures ev.name !in NetworkNames ==> r.Err?
    ensures r.Ok? && ev.name == "ResourceFinish" && DataOf(ev).value.didFail == Some(true) ==>
      RequestId(ev).value !in r.value.vals
    ensures r.Ok? && !(ev.name == "ResourceFinish" && DataOf(ev).value.didFail == Some(true)) ==>
      RequestId(ev).value in r.value.vals
    ensures r.Err? <==> RequestId(ev).None? || StepFails(ev.name, DataOf(ev).value, start)
    ensures r.Ok? && ev.name == "ResourceSendRequest" ==>
      var data := DataOf(ev).value;
      start.Some? && data.stackTrace != Some([])
      && r.value.vals[RequestId(ev).value] == Prior(d, RequestId(ev).value).(
           url := data.url,
           startTime := Some(Ms(ev.ts, start.value)),
           fromScript := Some(if data.stackTrace.Some? then data.stackTrace.value[0] else NoScript))
    ensures r.Ok? && ev.name == "ResourceReceiveResponse" ==>
      var data := DataOf(ev).value;
      start.Some?
      && r.value.vals[RequestId(ev).value] == Prior(d, RequestId(ev).value).(
           statusCode := data.statusCode,
           responseReceivedTime := Some(Ms(ev.ts, start.value)),
           mimeType := data.mimeType)
    ensures r.Ok? && ev.name == "ResourceReceivedData" ==>
      r.value.vals[RequestId(ev).value] ==
        Prior(d, RequestId(ev).value).(transferSize := DataOf(ev).value.encodedDataLength)
    ensures r.Ok? && ev.name == "ResourceFinish" && DataOf(ev).value.didFail == Some(false) ==>
      start.Some?
      && r.value.vals[RequestId(ev).value] ==
           Prior(d, RequestId(ev).value).(endTime := Some(Ms(ev.ts, start.value)))
  {
    if RequestId(ev).None? then Err("KeyError: requestId")
    else
      var id := RequestId(ev).value;
      var data := DataOf(ev).value;
      var d1 := if id in d.vals then d else Set(d, id, EmptyRecord);
      var rec := d1.vals[id];
      if ev.name == "ResourceSendRequest" then
        if data.url.None? then Err("KeyError: url")
        else if start.None? then Err("TypeError: start_time is None")
        else if data.stackTrace.Some? && |data.stackTrace.value| == 0 then Err("IndexError: stackTrace")
        else
          var script := if data.stackTrace.Some? then data.stackTrace.value[0] else NoScript;
          Ok(Set(d1, id, rec.(url := data.url, startTime := Some(Ms(ev.ts, start.value)),
                              fromScript := Some(script))))
      else if ev.name == "ResourceReceiveResponse" then
        if data.statusCode.None? || data.mimeType.None? then Err("KeyError: statusCode/mimeType")
        else if start.None? then Err("TypeError: start_time is None")
        else
          Ok(Set(d1, id, rec.(statusCode := data.statusCode,
                              responseReceivedTime := Some(Ms(ev.ts, start.value)),
                              mimeType := data.mimeType)))
      else if ev.name == "ResourceReceivedData" then
        if data.encodedDataLength.None? then Err("KeyError: encodedDataLength")
        else Ok(Set(d1, id, rec.(transferSize := data.encodedDataLength)))
      else if ev.name == "ResourceFinish" then
        if data.didFail.None? then Err("KeyError: didFail")
        else if !data.didFail.value then
          if start.None? then Err("TypeError: start_time is None")
          else Ok(Set(d1, id, rec.(endTime := Some(Ms(ev.ts, start.value)))))
        else Ok(Remove(d1, id))
      else Err("Unknown network name in net_trace")
  }

  /** The networks after a sequence of events, or the first error. */
  function NetFold(d: Networks, events: seq<TraceEvent>, start: Option<int>): (r: Result<Networks>)
    requires Valid(d)
    ensures r.Ok? ==> Valid(r.value)
  {
    if events == [] then Ok(d)
    else
      match NetFold(d, events[..|events| - 1], start)
      case Err(e) => Err(e)
      case Ok(d') => NetStep(d', events[|events| - 1], start)
  }

  /** A record whose start is known also has its url and triggering script: the three are
      set together, and nothing unsets them. sort_by_startTime reads all three. */
  ghost predicate Started(d: Networks) {
    forall k :: k in d.vals && d.vals[k].startTime.Some? ==>
      d.vals[k].url.Some? && d.vals[k].fromScript.Some?
  }

  lemma StepKeepsStarted(d: Networks, ev: TraceEvent, start: Option<int>)
    requires Valid(d) && Started(d)
    requires NetStep(d, ev, start).Ok?
    ensures Started(NetStep(d, ev, start).value)
  {
    var r := NetStep(d, ev, start).value;
    var id := RequestId(ev).value;
    if id in r.vals {
      StepOwnStarted(d, ev, start);
    }
  }

  /** The record of the event's own request id keeps its url and script beside its start. */
  lemma StepOwnStarted(d: Networks, ev: TraceEvent, start: Option<int>)
    requires Valid(d) && Started(d)
    requires NetStep(d, ev, start).Ok? && RequestId(ev).value in NetStep(d, ev, start).value.vals
    ensures var rec := NetStep(d, ev, start).value.vals[RequestId(ev).value];
      rec.startTime.Some? ==> rec.url.Some? && rec.fromScript.Some?
  {
    var id := RequestId(ev).value;
    var before := if id in d.vals then d.vals[id] else EmptyRecord;
    assert before.startTime.Some? ==> before.url.Some? && before.fromScript.Some?;
  }

  lemma {:induction false} FoldKeepsStarted(d: Networks, events: seq<TraceEvent>, start: Option<int>)
    requires Valid(d) && Started(d)
    requires NetFold(d, events, start).Ok?
    ensures Started(NetFold(d, events, start).value)
  {
    if events != [] {
      FoldKeepsStarted(d, events[..|events| - 1], start);
      StepKeepsStarted(NetFold(d, events[..|events| - 1], start).value, events[|events| - 1], start);
    }
  }

  /** Every request id after the fold was there before or is the id of one of the events. */
  lemma {:induction false} FoldKeysFromEvents(d: Networks, events: seq<TraceEvent>, start: Option<int>)
    requires Valid(d)
    requires NetFold(d, events, start).Ok?
    ensures forall k :: k in NetFold(d, events, start).value.vals ==>
      k in d.vals || exists i :: 0 <= i < |events| && RequestId(events[i]) == Some(k)
  {
    if events != [] {
      var n := |events| - 1;
      var init := events[..n];
      FoldKeysFromEvents(d, init, start);
      var prev := NetFold(d, init, start).value;
      assert NetFold(d, events, start) == NetStep(prev, events[n], start);
      KeysExtend(d, events, n, init, prev, NetStep(prev, events[n], start).value);
    }
  }

  /** One more event adds at most its own request id. */
  lemma KeysExtend(d: Networks, events: seq<TraceEvent>, n: nat, init: seq<TraceEvent>, prev: Networks, next: Networks)
    requires n + 1 == |events| && init == events[..n]
    requires forall k :: k in prev.vals ==>
      k in d.vals || exists i :: 0 <= i < |init| && RequestId(init[i]) == Some(k)
    requires RequestId(events[n]).Some?
    requires forall k :: k != RequestId(events[n]).value ==> (k in next.vals <==> k in prev.vals)
    ensures forall k :: k in next.vals ==>
      k in d.vals || exists i :: 0 <= i < |events| && RequestId(events[i]) == Some(k)
  {
    forall k | k in next.vals
      ensures k in d.vals || exists i :: 0 <= i < |events| && RequestId(events[i]) == Some(k)
    {
      if k == RequestId(events[n]).value {
        assert RequestId(events[n]) == Some(k);
      } else if k !in d.vals {
        var i :| 0 <= i < |init| && RequestId(init[i]) == Some(k);
        assert events[i] == init[i];
      }
    }
  }

  /** `self.networks` and ProcessNetworkEvents. */
  class Requests {
    var networks: Networks

    ghost predicate Valid()
      reads this
    {
      Dicts.Valid(networks) && Started(networks)
    }

    constructor ()
      ensures Valid() && networks == Empty()
    {
      networks := Empty();
    }

    /** Applies the events in order; on the first error the analysis stops, with the
        requests updated up to the failing event. */
    method ProcessNetworkEvents(events: seq<TraceEvent>, start: Option<int>) returns (failure: Option<string>)
      requires Valid()
      modifies this
      ensures Valid()
      ensures failure.None? <==> NetFold(old(networks), events, start).Ok?
      ensures failure.None? ==> networks == NetFold(old(networks), events, start).value
    {
      ghost var d0 := networks;
      for i := 0 to |events|
        invariant Valid()
        invariant NetFold(d0, events[..i], start) == Ok(networks)
      {
        assert events[..i + 1][..i] == events[..i];
        var next := NetStep(networks, events[i], start);
        if next.Err? {
          assert NetFold(d0, events[..i + 1], start).Err?;
          FoldErrStays(d0, events, i + 1, start);
          assert events[..|events|] == events;
          return Some(next.error);
        }
        StepKeepsStarted(networks, events[i], start);
        networks := next.value;
      }
      assert events[..|events|] == events;
      failure := None;
    }
  }

  /** An error in a prefix is an error of the whole fold. */
  lemma {:induction false} FoldErrStays(d: Networks, events: seq<TraceEvent>, n: nat, start: Option<int>)
    requires Valid(d)
    requires n <= |events|
    requires NetFold(d, events[..n], start).Err?
    ensures NetFold(d, events, start).Err?
    decreases |events| - n
  {
    if n < |events| {
      assert events[..n + 1][..n] == events[..n];
      FoldErrStays(d, events, n + 1, start);
    } else {
      assert events[..n] == events;
    }
  }
}
