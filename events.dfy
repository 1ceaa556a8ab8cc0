/** Decoded browser trace events, the input of the analysis. Each field the source reads
    with `in` or with a subscript that may fail is optional here. */
module Events {
  import opened Wrappers

  /** The `pid:tid` pair that names a thread. */
  datatype Thread = Thread(pid: int, tid: int)

  /** `ph`: 'B', 'E', 'X', the netlog nestable 'b' and 'e', and any other phase. */
  datatype Phase = Begin | End | Complete | NestableBegin | NestableEnd | OtherPhase

  /** `args.data` of timeline and network events; a stack trace is the list of its frames' urls. */
  datatype Data = Data(
    url: Option<string>,
    scriptName: Option<string>,
    requestId: Option<string>,
    statusCode: Option<int>,
    mimeType: Option<string>,
    encodedDataLength: Option<int>,
    didFail: Option<bool>,
    stackTrace: Option<seq<string>>,
    styleSheetUrl: Option<string>)

  /** `args.beginData` of a ParseHTML begin event. */
  datatype BeginData = BeginData(url: Option<string>, stackTrace: Option<seq<string>>)

  /** `args.params.source_dependency.id` of a netlog event: a number, or a text (the trace
      may carry either, and the `0x…` rewrite is a text). */
  datatype DependencyId = DepNumber(n: int) | DepText(text: string)

  /** `args.params` of a netlog event. */
  datatype Params = Params(
    hostname: Option<string>,
    netError: Option<int>,
    byteCount: Option<int>,
    sourceDependencyId: Option<DependencyId>)

  datatype Args = Args(
    data: Option<Data>,
    beginData: Option<BeginData>,
    layerTreeId: Option<int>,
    sourceType: Option<string>,
    params: Option<Params>)

  /** One trace event: `ts` and `dur` are in microseconds. */
  datatype TraceEvent = TraceEvent(
    cat: string,
    name: string,
    ph: Phase,
    ts: int,
    pid: int,
    tid: int,
    dur: Option<int>,
    args: Option<Args>,
    id: Option<string>)

  /** The names of the network events. */
  const NetworkNames: set<string> :=
    {"ResourceSendRequest", "ResourceReceiveResponse", "ResourceReceivedData", "ResourceFinish"}

  function ThreadOf(ev: TraceEvent): Thread {
    Thread(ev.pid, ev.tid)
  }

  /** `args.data`, when the event has one. */
  function DataOf(ev: TraceEvent): Option<Data> {
    if ev.args.Some? then ev.args.value.data else None
  }

  /** `args.data.url`, when present. */
  function DataUrl(ev: TraceEvent): Option<string> {
    if DataOf(ev).Some? then DataOf(ev).value.url else None
  }

  /** Trace timestamps become milliseconds relative to the trace's zero point. */
  function Ms(ts: int, start: int): real {
    (ts - start) as real / 1000.0
  }

  lemma MsMonotone(a: int, b: int, start: int)
    requires a <= b
    ensures Ms(a, start) <= Ms(b, start)
  {
  }

  predicate StartsWith(s: string, prefix: string) {
    |prefix| <= |s| && s[..|prefix|] == prefix
  }

  /** `sub` occurs in `s` at position `i`. */
  predicate OccursAt(s: string, sub: string, i: int) {
    0 <= i <= |s| - |sub| && s[i..i + |sub|] == sub
  }

  /** Python's `sub in s` (and `s.find(sub) >= 0`). */
  predicate Contains(s: string, sub: string) {
    exists i | 0 <= i <= |s| - |sub| :: OccursAt(s, sub, i)
  }
}
