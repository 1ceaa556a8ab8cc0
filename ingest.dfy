/** Selecting and ordering the trace events: FilterTraceEvent and ProcessTraceEvent for the
    timeline pass, the category and name tests that split the second pass into the loading,
    network and netlog streams, and convertIdtoHex on the netlog stream. */
module Ingest {
  import opened Wrappers
  import opened Events
  import opened Sorting

  const TimelineCat: string := "devtools.timeline"

  /** `cat == 'devtools.timeline' or cat.find('devtools.timeline') >= 0`. */
  predicate IsTimelineCat(cat: string) {
    cat == TimelineCat || Contains(cat, TimelineCat)
  }

  /** FilterTraceEvent: top-level events are dropped; timeline, feature-usage and
      user-timing events are kept. */
  predicate KeepEvent(ev: TraceEvent) {
    ev.cat != "toplevel" && ev.cat != "ipc,toplevel"
    && (IsTimelineCat(ev.cat) || Contains(ev.cat, "blink.feature_usage")
        || Contains(ev.cat, "blink.user_timing"))
  }

  /** The sort key of every trace-event list: the timestamp. */
  function Ts(ev: TraceEvent): real {
    ev.ts as real
  }

  /** Where ProcessTraceEvent sends a kept event. */
  datatype Route = ToTimeline | ToUserTiming | Ignored

  function RouteOf(ev: TraceEvent): (r: Route)
    ensures r == ToTimeline <==> IsTimelineCat(ev.cat)
    ensures r == ToUserTiming <==> !IsTimelineCat(ev.cat) && Contains(ev.cat, "blink.user_timing")
  {
    if IsTimelineCat(ev.cat) then ToTimeline
    else if Contains(ev.cat, "blink.user_timing") then ToUserTiming
    else Ignored
  }

  /** Process and ProcessTraceEvents: the kept events, stably sorted by timestamp, in the
      order the timeline pass sees them. */
  function TimelineInput(events: seq<TraceEvent>): seq<TraceEvent> {
    SortBy(Filter(events, KeepEvent), Ts)
  }

  lemma TimelineInputSpec(events: seq<TraceEvent>)
    ensures SortedBy(TimelineInput(events), Ts)
    ensures multiset(TimelineInput(events)) == multiset(Filter(events, KeepEvent))
    ensures forall ev :: ev in TimelineInput(events) ==> ev in events && KeepEvent(ev)
    ensures forall ev :: ev in events && KeepEvent(ev) ==> ev in TimelineInput(events)
  {
    SortBySortsAndPermutes(Filter(events, KeepEvent), Ts);
    forall ev | ev in TimelineInput(events)
      ensures ev in Filter(events, KeepEvent)
    {
      assert ev in multiset(TimelineInput(events));
    }
    forall ev | ev in Filter(events, KeepEvent)
      ensures ev in TimelineInput(events)
    {
      assert ev in multiset(Filter(events, KeepEvent));
    }
  }

  /** The loading stream: ParseHTML of the timeline category and ParseAuthorStyleSheet of
      the blink timeline category. */
  predicate IsLoadingEvent(ev: TraceEvent) {
    (ev.cat == TimelineCat && ev.name == "ParseHTML")
    || (ev.cat == "blink,devtools.timeline" && ev.name == "ParseAuthorStyleSheet")
  }

  predicate IsNetworkEvent(ev: TraceEvent) {
    ev.cat == TimelineCat && ev.name in NetworkNames
  }

  predicate IsNetlogEvent(ev: TraceEvent) {
    ev.cat == "netlog"
  }

  /** The streams of Process_Loading_Render_Painting_Network, each sorted by timestamp. The
      rendering and painting selections are disabled in the source, so those streams are
      always empty. */
  datatype Streams = Streams(
    loading: seq<TraceEvent>,
    network: seq<TraceEvent>,
    netlog: seq<TraceEvent>,
    rendering: seq<TraceEvent>,
    painting: seq<TraceEvent>)

  /** Process_Loading_Render_Painting_Network: the streams, or the error that converting
      the netlog stream raises. */
  function Classify(events: seq<TraceEvent>): (r: Result<Streams>)
    ensures r.Ok? ==> r.value.rendering == [] && r.value.painting == []
    ensures r.Ok? <==> ConvertIdToHex(SortBy(Filter(events, IsNetlogEvent), Ts)).Ok?
  {
    var netlog := ConvertIdToHex(SortBy(Filter(events, IsNetlogEvent), Ts));
    if netlog.Err? then Err(netlog.error)
    else
      Ok(Streams(
        SortBy(Filter(events, IsLoadingEvent), Ts),
        SortBy(Filter(events, IsNetworkEvent), Ts),
        netlog.value,
        [], []))
  }

  /** The streams come out exactly when every netlog event's dependency id converts. Each
      stream then holds exactly the events of its kind, in timestamp order; a network event
      keeps the order it had in the trace among its equals; the netlog stream is the sorted
      netlog events, each converted. */
  lemma ClassifySpec(events: seq<TraceEvent>)
    ensures Classify(events).Ok? <==> forall ev :: ev in events && IsNetlogEvent(ev) ==> ConvertEvent(ev).Ok?
    ensures var r := Classify(events); r.Ok? ==>
      && SortedBy(r.value.loading, Ts) && SortedBy(r.value.network, Ts) && SortedBy(r.value.netlog, Ts)
      && multiset(r.value.loading) == multiset(Filter(events, IsLoadingEvent))
      && multiset(r.value.network) == multiset(Filter(events, IsNetworkEvent))
      && (forall k :: WithKey(r.value.network, Ts, k) == WithKey(Filter(events, IsNetworkEvent), Ts, k))
      && |r.value.netlog| == |Filter(events, IsNetlogEvent)|
      && forall i :: 0 <= i < |r.value.netlog| ==>
           ConvertEvent(SortBy(Filter(events, IsNetlogEvent), Ts)[i]) == Ok(r.value.netlog[i])
  {
    var nl := Filter(events, IsNetlogEvent);
    var sorted := SortBy(nl, Ts);
    SortBySortsAndPermutes(Filter(events, IsLoadingEvent), Ts);
    SortBySortsAndPermutes(Filter(events, IsNetworkEvent), Ts);
    SortBySortsAndPermutes(nl, Ts);
    forall k
      ensures WithKey(SortBy(Filter(events, IsNetworkEvent), Ts), Ts, k) == WithKey(Filter(events, IsNetworkEvent), Ts, k)
    {
      SortByStable(Filter(events, IsNetworkEvent), Ts, k);
    }
    assert (forall ev :: ev in sorted ==> ConvertEvent(ev).Ok?)
       <==> (forall ev :: ev in events && IsNetlogEvent(ev) ==> ConvertEvent(ev).Ok?) by {
      forall ev | ev in sorted ensures ev in events && IsNetlogEvent(ev) {
        assert ev in multiset(sorted);
      }
      forall ev | ev in events && IsNetlogEvent(ev) ensures ev in sorted {
        assert ev in multiset(nl);
      }
    }
    var r := ConvertIdToHex(sorted);
    if r.Ok? {
      assert |sorted| == |nl| by { assert |multiset(sorted)| == |multiset(nl)|; }
      forall i, j | 0 <= i < j < |r.value| ensures Ts(r.value[i]) <= Ts(r.value[j]) {
        assert ConvertEvent(sorted[i]) == Ok(r.value[i]) && ConvertEvent(sorted[j]) == Ok(r.value[j]);
      }
    }
  }

  // convertIdtoHex

  /** The lower-case hexadecimal digit of `d`. */
  function HexDigit(d: nat): char
    requires d < 16
  {
    if d < 10 then ('0' as int + d) as char else ('a' as int + d - 10) as char
  }

  /** The value of a lower-case hexadecimal digit. */
  function DigitValue(c: char): Option<nat> {
    if '0' <= c <= '9' then Some(c as int - '0' as int)
    else if 'a' <= c <= 'f' then Some(c as int - 'a' as int + 10)
    else None
  }

  /** `'%x' % n` for a non-negative `n`: lower-case digits, no leading zero. */
  function Hex(n: nat): (r: string)
    ensures |r| > 0
    ensures n > 0 ==> r[0] != '0'
    ensures forall c :: c in r ==> DigitValue(c).Some?
  {
    if n < 16 then [HexDigit(n)] else Hex(n / 16) + [HexDigit(n % 16)]
  }

  /** The number a nonempty string of hexadecimal digits denotes. */
  function ParseHex(s: string): Option<nat>
    requires |s| > 0
  {
    var last := DigitValue(s[|s| - 1]);
    if last.None? then None
    else if |s| == 1 then last
    else
      match ParseHex(s[..|s| - 1])
      case None => None
      case Some(v) => Some(v * 16 + last.value)
  }

  lemma {:induction false} HexRoundTrip(n: nat)
    ensures ParseHex(Hex(n)) == Some(n)
  {
    if n >= 16 {
      HexRoundTrip(n / 16);
      var s := Hex(n);
      assert s[..|s| - 1] == Hex(n / 16);
    }
  }

  /** `'0x%x' % n`: Python writes the sign of a negative number after the prefix. */
  function HexId(n: int): string {
    "0x" + (if n < 0 then "-" + Hex(-n) else Hex(n))
  }

  /** The inverse of HexId. */
  function ParseHexId(s: string): Option<int> {
    if |s| < 3 || s[..2] != "0x" then None
    else if s[2] == '-' then
      if |s| == 3 then None
      else match ParseHex(s[3..]) case None => None case Some(v) => Some(-(v as int))
    else ParseHex(s[2..])
  }

  /** The rewritten id denotes the original number: no two ids collide. */
  lemma HexIdRoundTrip(n: int)
    ensures ParseHexId(HexId(n)) == Some(n)
  {
    var s := HexId(n);
    if n < 0 {
      HexRoundTrip(-n);
      assert s[3..] == Hex(-n);
    } else {
      HexRoundTrip(n);
      assert s[2..] == Hex(n);
      assert DigitValue('-').None?;
    }
  }

  /** The guard of convertIdtoHex: args, an id and a source type, and a source dependency
      id in the params. */
  predicate HasDependencyId(ev: TraceEvent) {
    ev.args.Some? && ev.id.Some? && ev.args.value.sourceType.Some?
    && ev.args.value.params.Some? && ev.args.value.params.value.sourceDependencyId.Some?
  }

  /** The value of a decimal digit. */
  function DecimalValue(c: char): Option<nat> {
    if '0' <= c <= '9' then Some(c as int - '0' as int) else None
  }

  /** The number a nonempty string of decimal digits denotes. */
  function ParseDecimal(s: string): (r: Option<nat>)
    requires |s| > 0
    ensures r.Some? ==> forall j :: 0 <= j < |s| ==> DecimalValue(s[j]).Some?
  {
    var last := DecimalValue(s[|s| - 1]);
    if last.None? then None
    else if |s| == 1 then last
    else
      match ParseDecimal(s[..|s| - 1])
      case None => None
      case Some(v) => Some(v * 10 + last.value)
  }

  /** `str(n)` for a non-negative `n`: decimal digits, no leading zero. */
  function Decimal(n: nat): (r: string)
    ensures |r| > 0
  {
    if n < 10 then [('0' as int + n) as char] else Decimal(n / 10) + [('0' as int + n % 10) as char]
  }

  lemma {:induction false} DecimalRoundTrip(n: nat)
    ensures ParseDecimal(Decimal(n)) == Some(n)
  {
    if n >= 10 {
      DecimalRoundTrip(n / 10);
      var s := Decimal(n);
      assert s[..|s| - 1] == Decimal(n / 10);
    }
  }

  /** Python's `int()` of a string: an optional sign, then decimal digits. */
  function ParseInt(s: string): Option<int> {
    if |s| == 0 then None
    else if s[0] == '-' || s[0] == '+' then
      if |s| == 1 then None
      else match ParseDecimal(s[1..]) case None => None case Some(v) => Some(if s[0] == '-' then -(v as int) else v)
    else ParseDecimal(s)
  }

  /** `int(str(n)) == n`: the decimal text of a number reads back as that number. */
  lemma ParseIntDecimal(n: int)
    ensures ParseInt(if n < 0 then "-" + Decimal(-n) else Decimal(n)) == Some(n)
  {
    if n < 0 {
      DecimalRoundTrip(-n);
      assert ("-" + Decimal(-n))[1..] == Decimal(-n);
    } else {
      DecimalRoundTrip(n);
      DecimalDigits(n);
      assert DecimalValue(Decimal(n)[0]).Some?;
    }
  }

  /** Every character of `str(n)` is a decimal digit. */
  lemma {:induction false} DecimalDigits(n: nat)
    ensures forall j :: 0 <= j < |Decimal(n)| ==> DecimalValue(Decimal(n)[j]).Some?
  {
    DecimalRoundTrip(n);
  }

  /** `int()` refuses a `0x…` id: its second character is not a digit. */
  lemma HexIdNotInt(n: int)
    ensures ParseInt(HexId(n)) == None
  {
    var s := HexId(n);
    assert s[0] == '0' && s[1] == 'x';
    assert DecimalValue(s[1]).None?;
  }

  /** `int(id)` of the dependency id: a number is itself; a text is read as a decimal
      integer, and anything else raises ValueError (None). */
  function IntOf(d: DependencyId): Option<int> {
    match d
    case DepNumber(n) => Some(n)
    case DepText(t) => ParseInt(t)
  }

  /** The body of convertIdtoHex for one event: under the guard, the id becomes the `0x…`
      text of its number, a text that denotes that number; an id `int()` cannot read
      raises ValueError. */
  function ConvertEvent(ev: TraceEvent): (r: Result<TraceEvent>)
    ensures !HasDependencyId(ev) ==> r == Ok(ev)
    ensures HasDependencyId(ev) ==> (r.Err? <==> IntOf(ev.args.value.params.value.sourceDependencyId.value).None?)
    ensures r.Ok? ==> r.value.(args := ev.args) == ev
    ensures r.Ok? && HasDependencyId(ev) ==>
      && HasDependencyId(r.value)
      && r.value.args.value.(params := ev.args.value.params) == ev.args.value
      && r.value.args.value.params.value.(sourceDependencyId := ev.args.value.params.value.sourceDependencyId)
         == ev.args.value.params.value
      && r.value.args.value.params.value.sourceDependencyId.value.DepText?
      && ParseHexId(r.value.args.value.params.value.sourceDependencyId.value.text)
         == IntOf(ev.args.value.params.value.sourceDependencyId.value)
  {
    if HasDependencyId(ev) then
      var a := ev.args.value;
      var p := a.params.value;
      match IntOf(p.sourceDependencyId.value)
      case None => Err("ValueError: invalid literal for int()")
      case Some(n) =>
        HexIdRoundTrip(n);
        Ok(ev.(args := Some(a.(params := Some(p.(sourceDependencyId := Some(DepText(HexId(n)))))))))
    else Ok(ev)
  }

  /** convertIdtoHex: every netlog event with a dependency id gets it as `0x…` text; the
      first id that cannot be read raises, and the analysis stops. */
  function ConvertIdToHex(events: seq<TraceEvent>): (r: Result<seq<TraceEvent>>)
    ensures r.Ok? <==> forall i :: 0 <= i < |events| ==> ConvertEvent(events[i]).Ok?
    ensures r.Ok? ==> |r.value| == |events| && forall i :: 0 <= i < |events| ==> ConvertEvent(events[i]) == Ok(r.value[i])
  {
    if events == [] then Ok([])
    else
      match ConvertEvent(events[0])
      case Err(e) => Err(e)
      case Ok(first) =>
        match ConvertIdToHex(events[1..])
        case Err(e) => Err(e)
        case Ok(rest) => Ok([first] + rest)
  }

  /** The conversion is not repeatable: a rewritten id is `0x…` text, which `int()`
      refuses, so converting an event a second time raises. */
  lemma ConvertTwiceRaises(ev: TraceEvent)
    requires HasDependencyId(ev) && ConvertEvent(ev).Ok?
    ensures ConvertEvent(ConvertEvent(ev).value).Err?
  {
    var n := IntOf(ev.args.value.params.value.sourceDependencyId.value).value;
    HexIdNotInt(n);
  }
}
