/** The loading, painting and rendering activities of ProcessLoadingEvents,
    ProcessPaintingEvents and ProcessRenderingEvents: one activity per group of the
    Begin/End grouping, numbered by the group's position. */
module Activities {
  import opened Wrappers
  import opened Events
  import opened Grouping

  /** `self.loading['Loading_i']`; times in milliseconds from the trace start. */
  datatype Loading = Loading(
    name: string,
    startTime: real,
    endTime: real,
    url: Option<string>,
    fromScript: Option<string>,
    styleSheetUrl: Option<string>)

  /** The `layerTreeId` entry of a painting activity: absent when the begin event has no
      args, None when the args lack the id. */
  datatype LayerTree = NoEntry | NullId | TreeId(id: int)

  /** A painting or rendering activity. */
  datatype Span = Span(name: string, startTime: real, endTime: real, layerTree: LayerTree)

  /** The activity of one loading group. A pair group takes the page url from its begin
      event's `beginData` and the triggering script from the first stack frame; a complete
      event (a style sheet parse) takes its end from its duration and its style sheet url
      from `data`. A missing key, or an empty stack trace, is an error. */
  function LoadingOf(g: Group, start: int): (r: Result<Loading>)
    ensures r.Ok? ==> r.value.startTime == Ms(FirstEvent(g).ts, start)
    ensures r.Ok? ==> r.value.name == FirstEvent(g).name
    ensures g.Pair? ==>
      (r.Ok? <==> BeginUrl(g.first).Some? && StackNonEmpty(g.first))
    ensures g.Pair? && r.Ok? ==>
      r.value.endTime == Ms(g.last.ts, start) && r.value.url == BeginUrl(g.first)
      && r.value.styleSheetUrl.None?
    ensures g.Single? && r.Ok? ==>
      g.ev.dur.Some? && r.value.endTime == r.value.startTime + g.ev.dur.value as real / 1000.0
      && r.value.url.None? && r.value.fromScript.None?
    ensures g.Single? && g.ev.dur.None? ==> r.Err?
  {
    match g
    case Pair(first, last, _) =>
      if BeginUrl(first).None? then Err("KeyError: beginData.url")
      else
        var stack := first.args.value.beginData.value.stackTrace;
        if stack.Some? && |stack.value| == 0 then Err("IndexError: stackTrace")
        else
          Ok(Loading(first.name, Ms(first.ts, start), Ms(last.ts, start), BeginUrl(first),
                     if stack.Some? then Some(stack.value[0]) else None, None))
    case Single(ev) =>
      if ev.dur.None? then Err("KeyError: dur")
      else if ev.args.None? then Err("KeyError: args")
      else
        var data := ev.args.value.data;
        if data.Some? && data.value.styleSheetUrl.None? then Err("KeyError: styleSheetUrl")
        else
          var s := Ms(ev.ts, start);
          Ok(Loading(ev.name, s, s + ev.dur.value as real / 1000.0, None, None,
                     if data.Some? then data.value.styleSheetUrl else None))
  }

  function FirstEvent(g: Group): TraceEvent {
    if g.Pair? then g.first else g.ev
  }

  /** `args.beginData.url`, when present. */
  function BeginUrl(ev: TraceEvent): Option<string> {
    if ev.args.Some? && ev.args.value.beginData.Some? then ev.args.value.beginData.value.url
    else None
  }

  /** A `beginData.stackTrace`, when present, has a first frame. */
  predicate StackNonEmpty(ev: TraceEvent)
    requires BeginUrl(ev).Some?
  {
    var st := ev.args.value.beginData.value.stackTrace;
    st.None? || |st.value| > 0
  }

  /** ProcessLoadingEvents: the activities of the loading groups in group order; the index
      of an activity is its id `Loading_<index>`. Converting the first event's time before
      the trace start is known (`start` is None) ends the program. */
  method ProcessLoadingEvents(events: seq<TraceEvent>, start: Option<int>) returns (r: Result<seq<Loading>>)
    ensures start.None? ==> (r.Err? <==> |events| > 0)
    ensures start.None? && |events| == 0 ==> r == Ok([])
    ensures start.Some? ==> var groups := GroupsOf(events, false).0;
      r.Ok? <==> forall j :: 0 <= j < |groups| ==> LoadingOf(groups[j], start.value).Ok?
    ensures start.Some? ==> var groups := GroupsOf(events, false).0;
      r.Ok? ==>
        |r.value| == |groups|
        && forall j :: 0 <= j < |groups| ==> LoadingOf(groups[j], start.value) == Ok(r.value[j])
  {
    if start.None? {
      if |events| > 0 {
        return Err("exit: start_time is None");
      }
      return Ok([]);
    }
    var groups, _ := GroupBeginEnd(events, false);
    r := LoadingsOf(groups, start.value);
  }

  /** The loop of ProcessLoadingEvents over the groups: the first group whose activity
      cannot be built stops it. */
  method LoadingsOf(groups: seq<Group>, start: int) returns (r: Result<seq<Loading>>)
    ensures r.Ok? <==> forall j :: 0 <= j < |groups| ==> LoadingOf(groups[j], start).Ok?
    ensures r.Ok? ==>
      |r.value| == |groups|
      && forall j :: 0 <= j < |groups| ==> LoadingOf(groups[j], start) == Ok(r.value[j])
  {
    var loading: seq<Loading> := [];
    for i := 0 to |groups|
      invariant |loading| == i
      invariant forall j :: 0 <= j < i ==> LoadingOf(groups[j], start) == Ok(loading[j])
    {
      var a := LoadingOf(groups[i], start);
      if a.Err? {
        return Err(a.error);
      }
      loading := loading + [a.value];
    }
    r := Ok(loading);
  }

  /** The activity of one painting or rendering group. Painting records the begin event's
      layer tree id and gives a complete event without duration zero length; the rendering
      grouping has already dropped such events. */
  function SpanOf(g: Group, start: int, painting: bool): (r: Span)
    ensures r.startTime == Ms(FirstEvent(g).ts, start) && r.name == FirstEvent(g).name
    ensures g.Pair? ==> r.endTime == Ms(g.last.ts, start)
    ensures g.Single? ==>
      r.endTime == r.startTime + (if g.ev.dur.Some? then g.ev.dur.value else 0) as real / 1000.0
    ensures !painting || g.Single? ==> r.layerTree == NoEntry
  {
    match g
    case Pair(first, last, _) =>
      var layer :=
        if !painting || first.args.None? then NoEntry
        else if first.args.value.layerTreeId.None? then NullId
        else TreeId(first.args.value.layerTreeId.value);
      Span(first.name, Ms(first.ts, start), Ms(last.ts, start), layer)
    case Single(ev) =>
      var s := Ms(ev.ts, start);
      Span(ev.name, s, s + (if ev.dur.Some? then ev.dur.value else 0) as real / 1000.0, NoEntry)
  }

  /** ProcessPaintingEvents (`painting`) and ProcessRenderingEvents: one activity per group,
      `Painting_<index>` or `Rendering_<index>`. */
  method ProcessSpanEvents(events: seq<TraceEvent>, start: int, painting: bool) returns (r: seq<Span>)
    ensures var groups := GroupsOf(events, !painting).0;
      |r| == |groups| && forall j :: 0 <= j < |r| ==> r[j] == SpanOf(groups[j], start, painting)
  {
    var groups, _ := GroupBeginEnd(events, !painting);
    r := SpansOf(groups, start, painting);
  }

  /** The loop of the painting and rendering extractors over the groups. */
  method SpansOf(groups: seq<Group>, start: int, painting: bool) returns (r: seq<Span>)
    ensures |r| == |groups| && forall j :: 0 <= j < |r| ==> r[j] == SpanOf(groups[j], start, painting)
  {
    r := [];
    for i := 0 to |groups|
      invariant |r| == i
      invariant forall j :: 0 <= j < i ==> r[j] == SpanOf(groups[j], start, painting)
    {
      r := r + [SpanOf(groups[i], start, painting)];
    }
  }

  /** The one-event groups hold events of the input. */
  lemma {:induction false} SingleEventsFromInput(events: seq<TraceEvent>, needDur: bool)
    ensures forall g :: g in GroupsOf(events, needDur).0 && g.Single? ==> g.ev in events
  {
    var groups := GroupsOf(events, needDur).0;
    GroupsOfInv(events, needDur, false);
    forall g | g in groups && g.Single?
      ensures g.ev in events
    {
      SingleInSingleEvents(groups, g);
      CompletesFromInput(events, needDur);
    }
  }

  lemma {:induction false} SingleInSingleEvents(groups: seq<Group>, g: Group)
    requires g in groups && g.Single?
    ensures g.ev in SingleEvents(groups)
  {
    var last := groups[|groups| - 1];
    if last != g {
      assert g in groups[..|groups| - 1];
      SingleInSingleEvents(groups[..|groups| - 1], g);
    }
  }

  lemma {:induction false} CompletesFromInput(s: seq<TraceEvent>, needDur: bool)
    ensures forall e :: e in Completes(s, needDur) ==> e in s
  {
    if s != [] {
      CompletesFromInput(s[..|s| - 1], needDur);
      assert forall e :: e in s[..|s| - 1] ==> e in s;
    }
  }

  /** On time-ordered input with non-negative durations, every activity ends no earlier
      than it starts. */
  lemma ActivitiesEndAfterStart(events: seq<TraceEvent>, start: int)
    requires TsSorted(events)
    requires forall ev :: ev in events && ev.dur.Some? ==> ev.dur.value >= 0
    ensures forall g :: g in GroupsOf(events, false).0 && LoadingOf(g, start).Ok? ==>
      LoadingOf(g, start).value.startTime <= LoadingOf(g, start).value.endTime
    ensures forall painting: bool, g :: g in GroupsOf(events, !painting).0 ==>
      SpanOf(g, start, painting).startTime <= SpanOf(g, start, painting).endTime
  {
    forall needDur: bool
      ensures forall g :: g in GroupsOf(events, needDur).0 && g.Pair? ==> g.first.ts <= g.last.ts
      ensures forall g :: g in GroupsOf(events, needDur).0 && g.Single? ==> g.ev in events
    {
      GroupsOfInv(events, needDur, true);
      SingleEventsFromInput(events, needDur);
    }
  }
}
