# WProfX trace analysis, modelled in Dafny

This project models the `Trace` analysis engine of WProfX (`trace_parser.py`). The engine
takes the events of one Chrome page-load trace and derives the following:

- **Call trees and CPU slices.** It builds per-thread call trees of timeline frames on an
  explicit stack per thread, and detects the main thread as the one issuing the first
  non-replay `ResourceSendRequest`. It then cuts the trace into time slices whose width is a
  power of ten, and spreads every frame's time over the slices of its thread's table. A
  child's time is taken back from its parent's row, and totals are clamped to one slice.
  Script-evaluation periods are recorded, skipping any period that lies inside one already
  recorded.
- **Typed activities.**
  - Network activities come from a per-request-id state machine over
    `ResourceSendRequest`, `ResourceReceiveResponse`, `ResourceReceivedData` and
    `ResourceFinish`.
  - Loading, painting and rendering activities come from a Begin/End grouping with
    `is_balanced` and `merge_events`, or from single complete (`X`) events.
- **Netlog counters.** These are the DNS transaction table and the total DNS time, and the
  per-socket and total byte counters of plain and SSL sockets. Netlog dependency ids are
  rewritten to `0x…` hexadecimal text.
- **A numbered activity index.** `sort_by_startTime` keeps the activities with non-negative
  start and end times and sorts them stably by start. It numbers networks and script
  evaluations `Networking_i` and `Scripting_i` in that order, and fills the url lookup tables.
  Each table is keyed by the url as Python's `urldefrag` returns it, with
  `localhost.localdomain/` removed. A url without `#` is kept as it is. A url with `#` loses
  its fragment and is rebuilt by `urlparse`/`urlunparse`, which lowercases the scheme and
  drops an empty `?` query and an empty `;` parameter section. The table
  keeps the last id seen for a url. The step also computes the merged list, the start-time
  table and the latest activity of each kind.
- **Dependency edges.** `find_download0` finds the first html download and its parse.
  `dependency` then adds guarded edges (network → parse, script → network, download →
  script, download → stylesheet, download or script → parse), each timed by `edge_start`.
  Every edge is mirrored in the `deps_parent` parent lists.
- **The output list.** `order_layout` groups the activities by url and sorts the groups by
  their first activity's start. `WriteOutputlog` assembles one entry per url group, then the
  Rendering, Painting, Deps and Netlog entries.

The model has one Dafny module per stage:

| module | stage |
|---|---|
| `Wrappers`, `Dicts` | `Option`/`Result`, and insertion-ordered dictionaries |
| `Events` | trace-event records |
| `Urls` | the url keys |
| `Sorting` | a stable sort |
| `Ingest` | filtering, classification, `convertIdtoHex` |
| `Timeline` | `ProcessTimelineTraceEvent`, class `TraceTimeline` |
| `Slices`, `Accounting`, `Cpu` | CPU slices, class `CpuProfile` |
| `Network` | class `Requests` |
| `Netlog` | class `NetlogState` |
| `Grouping`, `Activities` | the Begin/End grouping and the extractors |
| `Index` | `sort_by_startTime` |
| `Dependency` | class `DependencyGraph` |
| `Layout` | `order_layout` and `WriteOutputlog` |

Stages that update `Trace` fields in place are classes. Their methods carry field-granular
`modifies` clauses and are proved against pure step and fold functions. Stages that build a
field once from scratch are methods returning values, proved against functions.

Representation choices:

- Python dictionaries become `Dicts.Dict`, a key sequence plus a map, because iteration order
  feeds the stable sorts and the group order.
- Activity ids are `ActivityId(kind, index)`.
- Exceptions that escape the analysis (`KeyError`, `exit()`, the unknown network event) are
  `Result` errors.
- Trace timestamps are integer microseconds. Activity times are reals in milliseconds.

## Model

| member | source | states |
|---|---|---|
| Events.MsMonotone | trace_parser.py:535 | converting timestamps to milliseconds from the trace start preserves their order |
| Urls.Defrag | trace_parser.py:945 | `urldefrag(url)[0]`: a url without `#` comes back unchanged; any other result contains no `#` |
| Urls.Parse | trace_parser.py:945 | `urlparse` with the fragment dropped: no part it returns contains `#` |
| Urls.Unparse | trace_parser.py:945 | `urlunparse` of parts without `#` writes a url without `#` |
| Urls.DefragIdempotent | trace_parser.py:1022-1024 | defragmenting a defragmented url changes nothing |
| Urls.RejoinedDropsOnlyEmpty | trace_parser.py:945 | splitting the `;` parameters off the path and writing them back returns the path, or the path less a final `;` |
| Urls.DefragOfHierarchical | trace_parser.py:945 | for `scheme://host/path?query#fragment`, the result is the lowercased scheme, `://`, the host, the path with its parameters written back, and `?query` only when the query is not empty |
| Urls.DefragCutsCleanUrl | trace_parser.py:945 | with a lowercase scheme, no empty query and a path that does not end with `;`, the result is the url cut at its `#` |
| Urls.DefragDropsEmptyQuery | trace_parser.py:945 | `https://a.com/p?#x` gives `https://a.com/p` |
| Urls.DefragDropsEmptyParams | trace_parser.py:945 | `https://a.com/a;#x` gives `https://a.com/a` |
| Urls.DefragLowersScheme | trace_parser.py:945 | `HTTPS://a.com/p#x` gives `https://a.com/p` |
| Urls.RemoveAll | trace_parser.py:947 | removing every occurrence of a pattern never lengthens the string and introduces no new character |
| Urls.RemoveAllAbsent | trace_parser.py:946-947 | removing a pattern that does not occur leaves the string unchanged |
| Urls.LookupKey | trace_parser.py:945-948 | a lookup key never contains `#` |
| Urls.LookupKeyRemovesLocalPrefix | trace_parser.py:945-947 | the key is always the defragmented url with every `localhost.localdomain/` removed; the guard on the host name adds nothing |
| Urls.LookupKeyOfPlainUrl | trace_parser.py:945-948 | a url without fragment and without the local prefix is its own key |
| Ingest.RouteOf | trace_parser.py:319-326 | an event goes to the timeline handler exactly when its category names devtools.timeline, and to the user timings exactly when it is not timeline but names blink.user_timing |
| Ingest.TimelineInputSpec | trace_parser.py:298-313 | the events the timeline pass sees are sorted by timestamp, are a permutation of the kept events, and contain exactly the input events that the filter keeps |
| Ingest.Classify | trace_parser.py:219-247 | the streams come out exactly when the netlog stream converts; the rendering and painting streams are then empty, since their classification is disabled |
| Ingest.ClassifySpec | trace_parser.py:219-247 | the streams come out exactly when every netlog event converts; the loading and network streams are then timestamp-sorted permutations of the events of their kind, with equal-timestamp network events in trace order; the netlog stream is the timestamp-sorted netlog events, each converted |
| Ingest.Hex | trace_parser.py:257 | `'%x'` gives a nonempty string of lower-case hex digits with no leading zero |
| Ingest.HexRoundTrip | trace_parser.py:257 | reading the hex text back gives the number |
| Ingest.HexIdRoundTrip | trace_parser.py:257 | the `0x…` id, with its sign, denotes the original number, so no two ids collide |
| Ingest.ParseDecimal | trace_parser.py:256 | a string `int()` reads as a number holds only decimal digits |
| Ingest.DecimalRoundTrip | trace_parser.py:256 | reading a number's decimal text gives the number |
| Ingest.ParseIntDecimal | trace_parser.py:256 | `int(str(n)) == n`, with the sign |
| Ingest.HexIdNotInt | trace_parser.py:256-257 | `int()` refuses every `0x…` id |
| Ingest.ConvertTwiceRaises | trace_parser.py:249-258 | converting an already converted event raises ValueError |
| Ingest.ConvertEvent | trace_parser.py:249-258 | outside the guard the event is unchanged; under it, an id `int()` cannot read raises ValueError, and otherwise only the id changes, to `0x…` text that denotes `int()` of the old id |
| Ingest.ConvertIdToHex | trace_parser.py:249-258 | the stream converts exactly when every event does, and then event by event in order |
| Netlog.Increment | trace_parser.py:403-426 | only a received or sent event of the right socket kind with a byte count moves a counter |
| Netlog.SocketUpdate | trace_parser.py:403-413 | the socket gets an entry; each total grows by exactly the increment; other sockets are unchanged |
| Netlog.SocketSums | trace_parser.py:403-413 | after one socket update the byte totals over all sockets move by the new count minus the old one |
| Netlog.DnsStep | trace_parser.py:388-401 | only the event's transaction changes; a failed end deletes it; a clean end records the end time; a begin records host and start; a begin without a host name, or a begin or clean end before the trace start is known, is an error, and nothing else is |
| Netlog.DnsSumNonNegative | trace_parser.py:375-386 | the DNS time is not negative when no transaction ends before it starts |
| Netlog.DnsSumUniform | trace_parser.py:375-386 | complete transactions of one length sum to their count times that length |
| Netlog.NetlogState.constructor | trace_parser.py:96 | no tables yet, and all byte totals zero |
| Netlog.NetlogState.ProcessNetlogDnsEvent | trace_parser.py:388-401 | the DNS table becomes the DNS step's result; the socket tables are untouched; the running totals stay the sums of the counters |
| Netlog.NetlogState.ProcessNetlogSocketEvent | trace_parser.py:403-413 | the socket table and the plain totals move by the event's increment; SSL and DNS state are untouched |
| Netlog.NetlogState.ProcessNetlogSslSocketEvent | trace_parser.py:415-426 | the SSL table and SSL totals move by the event's increment; plain and DNS state are untouched |
| Netlog.NetlogState.TotalDnsTime | trace_parser.py:375-386 | with no DNS table, the table becomes empty and the time -1; otherwise the time is the sum over complete transactions |
| Netlog.DnsFold | trace_parser.py:360-365 | no DNS table exists after the events exactly when none existed and no handled DNS transaction occurs; any table it yields is well formed |
| Netlog.DnsFoldErrStays | trace_parser.py:360-365 | a DNS error among the first events is an error of the whole pass |
| Netlog.SocketFold | trace_parser.py:366-370 | no socket table of a kind exists after the events exactly when none existed and no handled socket event of that kind occurs |
| Netlog.NetlogState.RouteNetlogEvent | trace_parser.py:362-370 | a handled DNS transaction takes the DNS step and fails exactly when it does; a handled socket event updates the plain or SSL table by its `SSL` prefix; nothing else changes |
| Netlog.NetlogState.ProcessNetlogEvent | trace_parser.py:360-373 | fails exactly when the DNS fold over the events fails; otherwise the DNS table is the fold's table, or empty when none exists, the DNS time is -1 exactly when no table exists and otherwise the sum of complete transactions, and both socket tables are the socket folds over the events |
| Network.NetStep | trace_parser.py:470-510 | fails exactly when the request id is missing, a key the event's kind reads is missing, a time must be converted before the trace start is known, the stack trace is empty, or the name is unknown; otherwise only the event's request changes: it starts from its stored record or an empty one; a send sets url, start and script, a response sets status code, response time and mime type, received data overwrites the transfer size, a clean finish sets the end time, and every other field is kept; a failed finish removes the request |
| Network.NetFold | trace_parser.py:471-510 | the requests after the events, or the first error, stay well formed |
| Network.StepKeepsStarted | trace_parser.py:476-487 | a request whose start is known also has its url and triggering script, and one step keeps this |
| Network.StepOwnStarted | trace_parser.py:476-487 | the event's own request, once it has a start time, also has its url and triggering script |
| Network.FoldKeepsStarted | trace_parser.py:471-510 | the whole fold keeps every started request's url and script |
| Network.FoldKeysFromEvents | trace_parser.py:472-475 | every request id after the fold was there before or comes from an event |
| Network.FoldErrStays | trace_parser.py:509-510 | an error on a prefix of the events stops the whole pass |
| Network.Requests.constructor | trace_parser.py:74 | the request table starts empty |
| Network.Requests.ProcessNetworkEvents | trace_parser.py:470-510 | the pass succeeds exactly when the fold does, and the table then is the fold's result |
| Sorting.Filter | trace_parser.py:926-928 | the kept elements are exactly the input elements that pass the test |
| Sorting.FilterAppend | trace_parser.py:926-928 | filtering a concatenation is concatenating the filtered parts |
| Sorting.SortBy | trace_parser.py:929 | sorting keeps the length |
| Sorting.SortBySortsAndPermutes | trace_parser.py:929 | the result is ordered by the key and is a permutation of the input |
| Sorting.SortByStable | trace_parser.py:929 | among elements with one key the input order is kept |
| Sorting.SortBySorted | trace_parser.py:1009 | an already sorted list comes back unchanged |
| Sorting.SortedFilterHas | trace_parser.py:926-929 | after filtering and sorting, an element is present exactly when it was in the input and passes the filter |
| Grouping.IsBalanced | trace_parser.py:512-522 | a list is balanced exactly when it has as many B as E events |
| Grouping.MergeEvents | trace_parser.py:524-528 | the group's pair is the first and last event, and its members are the whole list |
| Grouping.PushOpen | trace_parser.py:540-551 | appending a B, or an E to a nonempty pending list, never underflows; the list either stays open or balances for the first time, with a B first and an E last |
| Grouping.GroupStep | trace_parser.py:540-558 | one loop turn is the grouping step function |
| Grouping.GroupsOfInv | trace_parser.py:540-558 | after any prefix: the pair groups plus the pending list are the kept B/E events; the single groups are the complete events; each pair group balances first at its last event; on time-ordered input its pair is in order |
| Grouping.GroupBeginEnd | trace_parser.py:531-558 | the groups and pending list are the fold's, and satisfy the invariant above |
| Grouping.NoDropWhenNested | trace_parser.py:543-548 | when no prefix closes more than it opened, no E is dropped and every B and E is kept |
| Activities.LoadingOf | trace_parser.py:560-585 | start and name come from the group's first event; a pair needs a url and ends at its last event; a complete event ends at start plus duration and fails without one |
| Activities.ProcessLoadingEvents | trace_parser.py:530-586 | without a known trace start, any loading event ends the program; otherwise `Loading_j` is the activity of group j, in group-completion order, and the pass fails exactly when some group has no activity |
| Activities.LoadingsOf | trace_parser.py:560-585 | the loop over the groups builds every activity or fails at the first missing key |
| Activities.SpanOf | trace_parser.py:588-687 | a painting or rendering activity starts at its first event and ends at its last, or at start plus duration |
| Activities.ProcessSpanEvents | trace_parser.py:588-687 | `Painting_j` and `Rendering_j` are the activities of group j |
| Activities.SpansOf | trace_parser.py:602-634 | one activity per group, in group order |
| Activities.ActivitiesEndAfterStart | trace_parser.py:568-585 | on time-ordered input with non-negative durations, every activity ends no earlier than it starts |
| Timeline.JsOf | trace_parser.py:729-738 | a frame is attributed to a script only for script evaluations and function calls with an http(s) url |
| Timeline.DetectMain | trace_parser.py:692-704 | main-thread detection keeps the thread registry well formed |
| Timeline.RegisterThread | trace_parser.py:707-709 | thread registration keeps the thread registry well formed |
| Timeline.RegisterName | trace_parser.py:714-720 | name registration keeps the thread registry well formed |
| Timeline.FrameStep | trace_parser.py:712-756 | the frame work keeps the thread registry well formed |
| Timeline.Build | trace_parser.py:721-756 | the stack work keeps the thread registry well formed |
| Timeline.TimelineStep | trace_parser.py:689-756 | one timeline event keeps the thread registry well formed |
| Timeline.TimelineFold | trace_parser.py:312-313 | any sequence of timeline events keeps the thread registry well formed |
| Timeline.Pass | trace_parser.py:310-326 | routing a sequence of events keeps the thread registry well formed |
| Timeline.DetectsMainThread | trace_parser.py:692-704 | the first non-replay ResourceSendRequest with a url picks its thread as main thread and the trace start; a replay-server request ignores its thread |
| Timeline.NothingBeforeMainThread | trace_parser.py:692-712 | before the main thread is known, any event other than its detection leaves the state unchanged |
| Timeline.IgnoredStaysOut | trace_parser.py:707-709 | an ignored thread is never registered |
| Timeline.RegisterNameConsistent | trace_parser.py:714-720 | registering a name keeps the state consistent, gives the thread a stack and files the name under the thread |
| Timeline.RegisterNameKeeps | trace_parser.py:714-720 | a new name gets the next id, and existing stacks and trees are untouched |
| Timeline.StepOfRegistered | trace_parser.py:707-712 | an event of a registered thread goes straight to the frame work |
| Timeline.EndPopsTop | trace_parser.py:722-726 | an E pops its thread's top frame; the frame is closed and attached only when the names match, otherwise it is lost |
| Timeline.BeginPushes | trace_parser.py:728-741 | a B pushes an open frame named by the event, with its script attribution |
| Timeline.CompleteAttaches | trace_parser.py:742-756 | an event with a duration is a frame closed at ts+dur, attached when it starts after the trace start and does not end before it starts |
| Timeline.AttachSpec | trace_parser.py:745-756 | a kept frame becomes the last child of the top open frame, or a new root; the trace end becomes the latest end; an unkept frame changes nothing |
| Timeline.AttachConsistent | trace_parser.py:745-756 | attaching a frame that lies inside the trace keeps the state consistent |
| Timeline.StepConsistent | trace_parser.py:689-756 | one event keeps the state consistent: names registered, closed frames inside the trace, children inside their parents |
| Timeline.FoldConsistent | trace_parser.py:689-756 | any sequence of events keeps the state consistent |
| Timeline.StepKeepsStart | trace_parser.py:700-747 | after detection, the main thread and start stay; the end only moves later; only the event's own thread can join |
| Timeline.StartFixed | trace_parser.py:745-747 | over any events the main thread and start never change, and the end never moves earlier |
| Timeline.Max | trace_parser.py:746-747 | the new trace end is the larger of the old end and the frame end |
| Timeline.PassIsFold | trace_parser.py:310-326 | routing each event is folding the timeline events in order |
| Timeline.UserTimingsFilter | trace_parser.py:325-326 | the user timings collected are exactly the user-timing events, in order |
| Timeline.PassWhole | trace_parser.py:308-326 | the whole pass is the fold of the timeline events and is consistent, beside the user timings |
| Timeline.TraceTimeline.constructor | trace_parser.py:57-67 | empty stacks, registries and trees; no main thread, no start, no end |
| Timeline.TraceTimeline.ProcessTimelineTraceEvent | trace_parser.py:689-756 | the fields become the timeline step of the event and stay consistent |
| Timeline.TraceTimeline.DetectMainThread | trace_parser.py:692-704 | the main-thread part of the step |
| Timeline.TraceTimeline.RegisterEventThread | trace_parser.py:706-709 | the thread-registration part of the step |
| Timeline.TraceTimeline.BuildFrames | trace_parser.py:711-756 | the frame part of the step |
| Timeline.TraceTimeline.RegisterEventName | trace_parser.py:714-720 | the returned id is the name's existing id, or the next one |
| Timeline.TraceTimeline.StackWork | trace_parser.py:721-756 | pushing, popping and attaching as the stack-work function says |
| Timeline.TraceTimeline.AttachFrame | trace_parser.py:745-756 | attaching a closed frame as the attach function says |
| Timeline.TraceTimeline.ProcessTraceEvent | trace_parser.py:319-326 | a timeline event steps the state, a user-timing event is appended, anything else is ignored |
| Timeline.TraceTimeline.ProcessTraceEvents | trace_parser.py:308-315 | the state is the fold of the timeline events of the sorted kept input, and the user timings are its user-timing events |
| Timeline.TraceTimeline.RouteEach | trace_parser.py:312-313 | the loop over the sorted events routes each one in turn |
| Slices.Pow10 | trace_parser.py:769 | a power of ten is at least one |
| Slices.CeilDivLeast | trace_parser.py:767 | the slice count is the least number of slices that covers the span |
| Slices.CeilDivShrinks | trace_parser.py:764-767 | ten times wider slices mean strictly fewer of them, so the width search stops |
| Slices.SliceUsecs | trace_parser.py:761-770 | the width is a power of ten; it is 1 for a span of at most 2000 us; otherwise the count exceeds 2000 and ten times the width would give at most 2000 |
| Slices.ElapsedBounds | trace_parser.py:824-829 | each slice a frame touches gets between 0 and a full slice width |
| Slices.ElapsedSumIsSpan | trace_parser.py:822-829 | the per-slice parts of a frame add up to its span |
| Slices.Fraction | trace_parser.py:843 | the fraction is at most one, and not negative for non-negative time |
| Slices.SetCell | trace_parser.py:858-859 | one cell changes and every other cell is kept |
| Slices.Rebalance | trace_parser.py:854-861 | the loop with the `total` row skipped too (see Findings): only slice i of walked rows other than the event's and the total changes; those cells only shrink; what is left stays within what was available |
| Slices.RebalanceShares | trace_parser.py:854-861 | the other rows keep exactly what was available minus what is left |
| Slices.RebalanceStep | trace_parser.py:856-860 | a walked row keeps the smaller of its value and what is available |
| Slices.RebalanceKeepsAvailable | trace_parser.py:854-861 | without walking the total row, the first other row keeps what is available of the slice |
| Slices.RebalanceAsWritten | trace_parser.py:854-861 | the loop as written, skipping only the event's row: only slice i changes, walked rows only shrink and stay non-negative, and what is left stays within what was available |
| Slices.RebalanceAsWrittenDropsRows | trace_parser.py:854-861 | walking the total row first uses up what is available, so every other row of the thread is cut to zero at that slice |
| Slices.AsWrittenZero | trace_parser.py:856-860 | with nothing available, the loop as written zeroes every row it walks |
| Slices.AdjustSlice | trace_parser.py:838-863 | only slice i changes; name equal to parent, or a missing row, changes nothing |
| Slices.Settle | trace_parser.py:852-861 | settling, with the loop as written, changes only slice i |
| Slices.Finish | trace_parser.py:861 | the total becomes the part of the slice left unused, clamped to [0, 1] |
| Slices.AddTo | trace_parser.py:844-848 | one cell moves by d and nothing else changes |
| Slices.Added | trace_parser.py:844-845 | the additions change only slice i and keep the table well formed |
| Slices.Debit | trace_parser.py:846-848 | the parent's debit changes only slice i and keeps the table well formed |
| Slices.Debited | trace_parser.py:843-851 | additions, debit and cap together change only slice i |
| Slices.Cap | trace_parser.py:850-851 | the event's row is held to one slice and nothing else changes |
| Slices.AddedValues | trace_parser.py:844-845 | the event's row and the total gain the fraction, nothing else changes |
| Slices.DebitValues | trace_parser.py:846-848 | the parent and the total lose the fraction exactly when the parent holds that much |
| Slices.DebitedValues | trace_parser.py:843-851 | before settling: the event's row is min(1, row + f), the parent gives f back when it can, the total moves by the same amounts, other rows are unchanged |
| Slices.SettleOverflow | trace_parser.py:852-861 | the event's row is untouched; after an overflow every other row is 0 at that slice and the total is 1; without overflow nothing changes |
| Slices.SettleUnit | trace_parser.py:854-861 | settling brings every cell of the slice into [0, 1] |
| Slices.AsWrittenLowers | trace_parser.py:858-859 | a row the loop walks never grows |
| Slices.AdjustNameRow | trace_parser.py:844-851 | the event's row gains its fraction, capped at one slice |
| Slices.AdjustNoOverflow | trace_parser.py:842-851 | without overflow the parent gives back exactly when it holds the fraction, the total moves by the same amounts, and no other row changes |
| Slices.AdjustOverflow | trace_parser.py:838-861 | after an overflow the total is one slice and every row but the event's own is 0 at that slice |
| Slices.AdjustInUnit | trace_parser.py:838-863 | every cell of the table stays within [0, 1] |
| Slices.DebitedNames | trace_parser.py:843-851 | before settling, the name rows of the slice gain no more than the total row does |
| Slices.SettleReconciled | trace_parser.py:852-861 | settling keeps the name rows of the slice within the total row |
| Slices.AdjustReconciled | trace_parser.py:838-863 | one update keeps the name rows of every slice within the total row |
| Accounting.Zeros | trace_parser.py:775-777 | a row of zeros, one per slice |
| Accounting.TableFor | trace_parser.py:775-777 | a thread's table has the total row first and one row per name, each one cell per slice, all zero |
| Accounting.InitTables | trace_parser.py:773-777 | one such table per registered thread, in registration order |
| Accounting.InitReconciled | trace_parser.py:773-777 | the empty tables have their name rows within the total row at every slice |
| Accounting.AdjustIn | trace_parser.py:838-863 | only the event's thread's table changes, keeping its shape; a thread without a table is left alone |
| Accounting.Spread | trace_parser.py:824-830 | spreading a frame touches only its thread's table and keeps every table's shape |
| Accounting.SpreadTab | trace_parser.py:824-830 | the loop over a frame's slices on one table keeps its rows and their lengths |
| Accounting.RecordScript | trace_parser.py:798-819 | recording a script period keeps the script table well formed |
| Accounting.RecordScriptSpec | trace_parser.py:806-819 | the period is appended exactly when no recorded period of that thread, url and name holds it; afterwards one does; no other list changes; the main thread is set once |
| Accounting.RecordOthers | trace_parser.py:806-819 | recording a period changes no other thread, url or name |
| Accounting.RecordKeepsFresh | trace_parser.py:812-819 | no recorded period ever lies within one recorded before it |
| Accounting.FrameSpread | trace_parser.py:821-830 | a frame's own slices keep every table's shape |
| Accounting.TablesFrame | trace_parser.py:791-835 | a frame and everything below it keep every table's shape |
| Accounting.TablesChildren | trace_parser.py:833-835 | the children of a frame, in order, keep every table's shape |
| Accounting.TablesRoots | trace_parser.py:780-781 | the call trees, in order, keep every table's shape |
| Accounting.ScriptsFrame | trace_parser.py:791-819 | a frame and everything below it keep the script table well formed |
| Accounting.ScriptsChildren | trace_parser.py:833-835 | the children of a frame keep the script table well formed |
| Accounting.ScriptsRoots | trace_parser.py:780-781 | the call trees keep the script table well formed |
| Accounting.Trunc | trace_parser.py:789 | Python's int on a float truncates toward zero |
| Accounting.UsecsRow | trace_parser.py:787-789 | a converted row has one cell per slice |
| Accounting.UsecsInSlice | trace_parser.py:788-789 | a fraction in [0, 1] stands for between 0 and slice-width microseconds |
| Accounting.UsecsShape | trace_parser.py:784-789 | after conversion the same threads remain, the total row is gone, the other rows keep their order and length |
| Accounting.UsecsBounds | trace_parser.py:784-789 | every converted cell lies in [0, slice width] |
| Accounting.AdjustInKeeps | trace_parser.py:838-863 | one slice update keeps every cell of every table within [0, 1] |
| Accounting.SpreadTabUnit | trace_parser.py:824-830 | spreading one frame keeps every cell of its table within [0, 1], and keeps the name rows of every slice within the total row |
| Accounting.SpreadUnit | trace_parser.py:824-830 | the same over all tables |
| Accounting.FrameUnit | trace_parser.py:791-835 | a frame and everything below it keep every cell within [0, 1] |
| Accounting.RowsFromTimeline | trace_parser.py:712-720 | every frame of the call trees names a row of its thread's table |
| Accounting.FrameFromTimeline | trace_parser.py:745-756 | every frame of the call trees is closed, inside the trace and named |
| Accounting.PassInSlice | trace_parser.py:758-789 | over the whole pass every cell stays within [0, 1], the name rows of every slice sum to at most the total row (so at most one slice), and every converted cell lies within [0, slice width] |
| Accounting.FrameFresh | trace_parser.py:812-819 | a frame and everything below it keep every period list free of periods held by earlier ones |
| Accounting.PassFresh | trace_parser.py:780-819 | over the whole pass no recorded period lies within an earlier one of the same thread, url and name |
| Cpu.CpuProfile.constructor | trace_parser.py:93 | the main thread is given, and there are no slices and no scripts yet |
| Cpu.CpuProfile.ProcessTimelineEvents | trace_parser.py:758-789 | with no call trees or no span nothing changes; otherwise the width is chosen as SliceUsecs says, the tables are the trees spread over the empty tables, and the microseconds are their conversion |
| Cpu.CpuProfile.RunPass | trace_parser.py:773-781 | the empty tables with every call tree spread over them, and the script periods recorded |
| Cpu.CpuProfile.ProcessRoots | trace_parser.py:780-781 | the loop over the call trees is the fold over the roots |
| Cpu.CpuProfile.InitSlices | trace_parser.py:773-777 | the tables become the empty tables of the registered threads |
| Cpu.CpuProfile.EmptyTable | trace_parser.py:775-777 | the loop over a thread's names builds that thread's empty table |
| Cpu.CpuProfile.ConvertSlices | trace_parser.py:784-789 | the microsecond tables are the conversion of the fraction tables |
| Cpu.CpuProfile.TableUsecs | trace_parser.py:785-789 | one thread's table without the total row, converted |
| Cpu.CpuProfile.RowsUsecs | trace_parser.py:786-789 | every remaining row converted, keeping the row order |
| Cpu.CpuProfile.RowUsecs | trace_parser.py:787-789 | every cell becomes int(fraction * width) |
| Cpu.CpuProfile.AdjustTimelineSlice | trace_parser.py:838-863 | the tables become AdjustIn of the old tables |
| Cpu.CpuProfile.AdjustTable | trace_parser.py:842-861 | the cell-by-cell update of one table is the slice update function |
| Cpu.CpuProfile.AddFraction | trace_parser.py:844-845 | the additions to the event's row and the total |
| Cpu.CpuProfile.GiveBack | trace_parser.py:846-848 | the parent's debit |
| Cpu.CpuProfile.Settled | trace_parser.py:852-861 | the overflow handling, with the loop as written, is the settle function |
| Cpu.CpuProfile.Rebalanced | trace_parser.py:855-860 | the rebalancing loop, walking the total row and skipping only the event's row, is the as-written rebalance function |
| Cpu.CpuProfile.NewDuration | trace_parser.py:812-817 | a period is new exactly when no recorded period holds it |
| Cpu.CpuProfile.RecordScriptTime | trace_parser.py:802-819 | the script table becomes the old one with the period recorded |
| Cpu.CpuProfile.ProcessTimelineEvent | trace_parser.py:791-835 | the tables and the scripts become the frame's fold results |
| Cpu.CpuProfile.RecordFrameScript | trace_parser.py:798-819 | a frame with a script records its period in milliseconds from the trace start |
| Cpu.CpuProfile.SpreadFrame | trace_parser.py:821-830 | a frame's own slices, from int(start/width) to int(end/width) |
| Cpu.CpuProfile.ProcessChildren | trace_parser.py:833-835 | the loop over children is the fold over them |
| Cpu.CpuProfile.ChildStep | trace_parser.py:834-835 | one turn of that loop |
| Cpu.CpuProfile.SpreadSlices | trace_parser.py:824-830 | the loop over slices is the spread function |
| Cpu.CpuProfile.SliceStep | trace_parser.py:825-830 | one turn of that loop |
| Cpu.PassSliceable | trace_parser.py:780-781 | the call trees of a consistent timeline are what the pass needs |
| Index.Items | trace_parser.py:926 | `items()` lists each key with its value, in insertion order |
| Index.NetNodeOf | trace_parser.py:930-944 | a record becomes a network node exactly when every required field is present; times, url and request id are copied, and the transfer size when present |
| Index.LookupTableHas | trace_parser.py:948 | a url key is in the lookup table exactly when some entry has it |
| Index.LookupTableLastWins | trace_parser.py:948 | the table holds the id of the last entry with that key |
| Index.StartTableHolds | trace_parser.py:1010-1011 | an id is in the start table exactly when some entry has it, and it maps to that entry's start |
| Index.MaxEndIsFirstLatest | trace_parser.py:934-936 | the latest end is at least every entry's end; it is 0 with no id when no end is positive; otherwise it belongs to the first entry with that end |
| Index.LastActivity | trace_parser.py:1013-1014 | the latest-activity list has three entries |
| Index.LastActivityFirstIsLatest | trace_parser.py:1013-1014 | it holds exactly the three latest ends, the first being the latest |
| Index.NumberNetworks | trace_parser.py:930-951 | the i-th sorted record becomes `Networking_i`; fails exactly when a record lacks a field; builds the url table and the latest end |
| Index.NumberScripts | trace_parser.py:985-996 | the i-th sorted evaluation becomes `Scripting_i`, with the url table and the latest end |
| Index.LatestEnd | trace_parser.py:955-959 | the loop over the loading activities finds their latest end |
| Index.StartLookup | trace_parser.py:1010-1011 | the loop fills the start table |
| Index.LoadEntries | trace_parser.py:951-953 | the j-th loading activity is `Loading_j` |
| Index.SpanEntries | trace_parser.py:998-1006 | the j-th rendering or painting activity keeps its number |
| Index.MainScripts | trace_parser.py:961-967 | the main thread's script table exists exactly when scripts, the main thread and its entry do |
| Index.Tagged | trace_parser.py:970-972 | each period of a url is paired with that url, in order |
| Index.ScriptPeriodsHolds | trace_parser.py:968-972 | the script list holds exactly the recorded EvaluateScript periods, with no filter on their times |
| Index.CollectScripts | trace_parser.py:968-972 | the nested loop collects the script list |
| Index.AppendTagged | trace_parser.py:970-972 | the inner loop appends one url's periods in order |
| Index.SortByStartTime | trace_parser.py:921-1016 | fails exactly when a kept network record lacks a field or there is no main-thread script table; otherwise builds every list, table and latest end |
| Index.NetworksSorted | trace_parser.py:929 | the network activities are in start order |
| Index.ScriptsSorted | trace_parser.py:983 | the script evaluations are in start order |
| Index.IndexSorted | trace_parser.py:921-1011 | every list is in start order, and the merged list is in start order and a permutation of the five lists |
| Index.LoadingKeptIffTimed | trace_parser.py:951-960 | `Loading_j` keeps its number and is listed exactly when both its times are non-negative |
| Index.NetworkKeptIffTimed | trace_parser.py:926-928 | a request is numbered exactly when its start and end are non-negative |
| Dependency.EdgeStart | trace_parser.py:1090-1094 | the triggered time is -1 when the parent ends strictly before the child starts, and otherwise the child's start |
| Dependency.FirstWhere | trace_parser.py:875-887 | the first index from i whose element satisfies the test, or none |
| Dependency.Download0 | trace_parser.py:872-893 | the found pair is an html download and a ParseHTML of its url, both in the merged list |
| Dependency.Download0Spec | trace_parser.py:872-893 | a pair exists exactly when there is an html download and a ParseHTML of the first one's url; both are the first of their kind |
| Dependency.FindDownload0 | trace_parser.py:872-893 | the two search loops compute the pair |
| Dependency.GraphHas | trace_parser.py:1085-1087 | exactly the network, loading and scripting ids of the merged list are nodes |
| Dependency.Link | trace_parser.py:1118-1123 | an edge between two nodes, timed -1 or by the child's start |
| Dependency.ScriptParent | trace_parser.py:1140-1150 | a script parent's edge runs into the activity with edge_start's time |
| Dependency.NetParent | trace_parser.py:1154-1163 | a download parent's edge runs into the activity with edge_start's time |
| Dependency.NetEdge | trace_parser.py:1129-1150 | the rule for network activities yields an edge into the activity |
| Dependency.LoadEdge | trace_parser.py:1165-1211 | the rule for loading activities yields an edge into the activity |
| Dependency.EdgeFor | trace_parser.py:1128-1211 | each activity's rule yields at most one edge, into that activity |
| Dependency.EdgesOf | trace_parser.py:1125-1211 | every edge of the loop joins two nodes |
| Dependency.UnscriptedNetworkHangsOffParse0 | trace_parser.py:1130-1138 | a network activity without a triggering script gets parse_0 as parent exactly when it starts strictly after parse_0 |
| Dependency.OtherEdgesOrdered | trace_parser.py:1139-1211 | every other edge comes from a script or download that starts strictly before the child |
| Dependency.UnscriptedParseHangsOffDownload | trace_parser.py:1182-1196 | a ParseHTML without a script gets only the download of its url, and only when it starts after parse_0 |
| Dependency.ScriptHangsOffDownload | trace_parser.py:1152-1163 | a script evaluation gets the download of its url, when that starts earlier |
| Dependency.UnmatchedStyleSheetSkipped | trace_parser.py:1166-1171 | a stylesheet whose url has no download is skipped, not an error |
| Dependency.ParentsOfHas | trace_parser.py:1124 | p is a listed parent of c exactly when some edge runs from p to c |
| Dependency.SyncedSamePairs | trace_parser.py:1123-1124 | in sync, `deps` and `deps_parent` hold the same (parent, child) pairs |
| Dependency.SyncedAppend | trace_parser.py:1123-1124 | recording an edge in both keeps them in sync |
| Dependency.EdgesTimely | trace_parser.py:1118-1211 | every edge time of the loop is -1 or the child's start |
| Dependency.EdgeForTimely | trace_parser.py:1090-1094 | the edge time of one rule is -1 or the child's start |
| Dependency.ErrStays | trace_parser.py:1140-1188 | a failed lookup on a prefix stops the whole loop |
| Dependency.DependencyGraph.constructor | trace_parser.py:97-99 | empty graph, no edges, no parents |
| Dependency.DependencyGraph.CreateGraph | trace_parser.py:1085-1087 | the nodes are those of the merged list |
| Dependency.DependencyGraph.AddEdge | trace_parser.py:1118-1124 | the edge is appended to `deps` and the parent to the child's list, keeping both in sync |
| Dependency.DependencyGraph.LinkAll | trace_parser.py:1125-1211 | the loop succeeds exactly when the edge function does, appending its edges |
| Dependency.DependencyGraph.Dependency | trace_parser.py:1111-1212 | without download_0 and parse_0 returns false with no edges; otherwise the first edge is download_0 → parse_0 and the loop's edges follow |
| Layout.IdsUnderHas | trace_parser.py:1020-1043 | an id is listed under a url exactly when its activity belongs to that url |
| Layout.GroupStep | trace_parser.py:1022-1025 | one step of the grouping keeps the grouping invariant, and the counter counts the groups |
| Layout.NoGroupStep | trace_parser.py:1033-1043 | an activity that belongs to no url group leaves the grouping as it was |
| Layout.GroupActivities | trace_parser.py:1019-1044 | each group lists exactly its activities, in order, and is nonempty; every grouped activity has a group; each url is numbered by first appearance |
| Layout.OrderLayout | trace_parser.py:1018-1045 | the groups as above; the sort fails exactly when a group's first id has no start; otherwise the groups are sorted by that start |
| Layout.LayoutSorted | trace_parser.py:1045 | the sorted groups are in order of first start and are a permutation of the groups |
| Layout.GroupsHaveStarts | trace_parser.py:1045 | if every grouped activity is in the merged list, every group's first id has a start |
| Layout.LayoutNeverFails | trace_parser.py:1010-1045 | on the tables sort_by_startTime builds, the group sort never misses a start time |
| Layout.InMerged | trace_parser.py:1008 | every network, script or loading activity is in the merged list |
| Layout.ObjOf | trace_parser.py:152-158 | a network id is paired with its network node, a loading id with its loading node, a script id with its script node; rendering and painting ids are left out; a KeyError exactly when the id is out of range for its kind |
| Layout.ObjOfLooksUp | trace_parser.py:152-158 | with the lists numbered as sort_by_startTime numbers them, a network or script id finds the node of the entry carrying that id, and raises exactly when no entry carries it |
| Layout.GroupObjs | trace_parser.py:151-158 | a group's objects follow its ids in order |
| Layout.CollectObjs | trace_parser.py:152-158 | the loop over a group's ids builds its objects |
| Layout.ObjsErrStays | trace_parser.py:154-158 | a failed lookup stops the whole group |
| Layout.NetlogEntry | trace_parser.py:163-167 | the netlog entry exists exactly when the DNS table, the socket table and the DNS time do |
| Layout.WriteOutputlog | trace_parser.py:147-171 | succeeds exactly when every group's objects and the netlog entry exist; then one entry per group in order, followed by Rendering, Painting, Deps and Netlog |

## Left out

- File input: reading and JSON-decoding the trace file. The input is a sequence of decoded event records.
- File output: `WriteJson`, the `Write*log` writers, gzip output and `toGephiCsv`. Only the list that `WriteOutputlog` builds is modelled.
- The networkx graph. It becomes a map from activity id to start and end time, and the edge attributes are not kept.
- matplotlib, and the bokeh rendering in `draw_waterfall` and waterfall_draw.py.
- `find_critical_path`. It rebinds its own name to its result, so it cannot run as an algorithm.
- `dependency_pass2`. Nothing calls it, and it repeats `dependency`.
- `ProcessNetlogHTTP2SessionEvent`. Its call is commented out.
- `find_load_time`, `find_DomContentLoaded_time`, `find_firstPaint_time`, `find_ttbf` and `merge_dicts`. They serve only the drawing code.
- `analyze` as one method. Each stage it calls is modelled; the order of the calls is not a separate member.
- The feature-usage events. The filter keeps them, but no handler uses them.
- `networks_lookup_id`, `scripts_lookup_id` and `loading_lookup_id` as separate tables. They are the numbered lists indexed by position.
- Floating-point rounding. Times and fractions are exact reals, and trace timestamps are integer microseconds.
- `exit()` and uncaught exceptions. They become `Result` errors, not process exit.
- The blanket `except: pass` of `AdjustTimelineSlice`. A failed lookup leaves the tables as they were when it failed.
- Deep copies, aliasing of the event dictionaries, and the in-place rewrite of `ts` and `dur` in the extractors. The model computes the converted values instead.
- Rendering and painting classification. It is commented out in `Process_Loading_Render_Painting_Network`, so those streams are empty. The extractors are still modelled.
- Ingest.ConvertEvent: reads a text id as an optional sign followed by decimal digits; Python's `int()` also accepts surrounding whitespace and underscores between digits.
- Activities.ProcessSpanEvents: takes a known trace start. Its painting and rendering streams are always empty, so a missing start never reaches it.
- Accounting.PassInSlice: assumes no event is named `total`. Such a name would share the total row, which the source does not prevent.
- Accounting.AdjustInKeeps: assumes the parent has a row in the thread's table. The source skips the update through its `except` when it has none.
- Layout.GroupObjs: states the order of the objects only for groups without rendering or painting ids. Such ids never reach a url group.
- Activities.ActivitiesEndAfterStart: assumes time-ordered input with non-negative durations.
- Urls.Defrag: follows `urlsplit`/`urlunsplit` of Python 3.12 for the parts a trace url has. It does not model the stripping of leading control characters and spaces, the removal of tab, CR and LF, the `ValueError` for an unbalanced `[` or `]` in the host, or the NFKC check of the host. These are never in Chrome's urls.
- The slice width: the code picks the power of ten just below the first one that gives at most 2000 slices, so a long trace gets more than 2000 slices. The model follows the code, not the comment in the source.

## Findings

| source | as written | input that shows it | evidently intended | confidence | as-written member | corrected member |
|---|---|---|---|---|---|---|
| trace_parser.py:856-860 | the rebalancing loop skips only the event's own row, so it also walks the `total` row, which is always first | a thread with rows `total`, A, B; A's fraction is 0.5, giving a total of 1.2 with B at 0.7: `total` takes the whole 0.5 available and B is cut to 0 | possibly: skip the `total` row too, so B keeps min(0.7, 0.5) = 0.5; the loop as written does keep every slice's name rows within one slice, so the intent is uncertain | low; not executed | Slices.RebalanceAsWrittenDropsRows | Slices.RebalanceKeepsAvailable |

The model of the pass follows the loop as written: `Slices.Settle` and `Cpu.CpuProfile.Rebalanced` walk the `total` row. The loop without it is `Slices.Rebalance`, kept beside it with its own properties; no other member uses it.
