/** sort_by_startTime: the activities whose start and end times are both non-negative,
    stably sorted by start time; the networks and the main thread's script evaluations
    numbered in that order; the url lookup tables, the merged start-ordered list, the start
    time of every id and the last activity. */
module Index {
  import opened Wrappers
  import opened Dicts
  import opened Sorting
  import opened Urls
  import opened Network
  import opened Activities
  import Accounting

  /** The kind part of an activity id such as `Networking_3`. */
  datatype Kind = Net | Load | Script | Render | Paint

  /** `Networking_i`, `Loading_i`, `Scripting_i`, `Rendering_i` or `Painting_i`. */
  datatype ActivityId = ActivityId(kind: Kind, n: nat)

  /** The data of an activity in the lists. A network activity copies its record's fields,
      of which only the transfer size may be absent; a script evaluation is its url and
      period. */
  datatype Node =
    | NetNode(requestId: string, startTime: real, endTime: real, mimeType: string, url: string,
              fromScript: string, transferSize: Option<int>, responseReceivedTime: real,
              statusCode: int)
    | LoadNode(load: Loading)
    | ScriptNode(url: string, startTime: real, endTime: real)
    | SpanNode(span: Span)

  /** `[id, data]`, one element of the activity lists. */
  datatype Entry = Entry(id: ActivityId, node: Node)

  function StartOf(e: Entry): real {
    match e.node
    case NetNode(_, s, _, _, _, _, _, _, _) => s
    case LoadNode(l) => l.startTime
    case ScriptNode(_, s, _) => s
    case SpanNode(sp) => sp.startTime
  }

  function EndOf(e: Entry): real {
    match e.node
    case NetNode(_, _, t, _, _, _, _, _, _) => t
    case LoadNode(l) => l.endTime
    case ScriptNode(_, _, t) => t
    case SpanNode(sp) => sp.endTime
  }

  /** The url a network activity or a script evaluation is looked up by. */
  function UrlOf(e: Entry): string {
    if e.node.NetNode? || e.node.ScriptNode? then e.node.url else ""
  }

  /** The filter of the list comprehensions: both times present and non-negative. */
  predicate Timed(e: Entry) {
    StartOf(e) >= 0.0 && EndOf(e) >= 0.0
  }

  /** `d.items()`. */
  function Items<K, V>(d: Dict<K, V>): (r: seq<(K, V)>)
    requires Dicts.Valid(d)
    ensures |r| == |d.keys|
    ensures forall i :: 0 <= i < |r| ==> r[i].0 == d.keys[i] && r[i].1 == d.vals[d.keys[i]]
  {
    seq(|d.keys|, i requires 0 <= i < |d.keys| => (d.keys[i], d.vals[d.keys[i]]))
  }

  // ---------------------------------------------------------------------------------------
  // Networks

  /** The filter on `self.networks`: a start and an end, both non-negative. */
  predicate NetTimed(p: (string, NetRecord)) {
    p.1.startTime.Some? && p.1.startTime.value >= 0.0 && p.1.endTime.Some? && p.1.endTime.value >= 0.0
  }

  /** The sort key of the network records. */
  function NetStart(p: (string, NetRecord)): real {
    if p.1.startTime.Some? then p.1.startTime.value else 0.0
  }

  /** The filtered network records in start order, before numbering. */
  function SortedNets(d: Networks): seq<(string, NetRecord)>
    requires Dicts.Valid(d)
  {
    SortBy(Filter(Items(d), NetTimed), NetStart)
  }

  /** The data of one numbered network activity: the request id and the record's fields.
      A record without mime type, url, triggering script, response time or status code
      stops the analysis with a KeyError; the transfer size is copied only when present. */
  function NetNodeOf(p: (string, NetRecord)): (r: Result<Node>)
    ensures r.Ok? <==>
      p.1.startTime.Some? && p.1.endTime.Some? && p.1.mimeType.Some? && p.1.url.Some?
      && p.1.fromScript.Some? && p.1.responseReceivedTime.Some? && p.1.statusCode.Some?
    ensures r.Ok? ==>
      r.value.NetNode? && r.value.requestId == p.0 && r.value.startTime == p.1.startTime.value
      && r.value.endTime == p.1.endTime.value && r.value.url == p.1.url.value
      && r.value.transferSize == p.1.transferSize
  {
    var n := p.1;
    if n.startTime.None? || n.endTime.None? then Err("KeyError: startTime")
    else if n.mimeType.None? then Err("KeyError: mimeType")
    else if n.url.None? then Err("KeyError: url")
    else if n.fromScript.None? then Err("KeyError: fromScript")
    else if n.responseReceivedTime.None? then Err("KeyError: responseReceivedTime")
    else if n.statusCode.None? then Err("KeyError: statusCode")
    else Ok(NetNode(p.0, n.startTime.value, n.endTime.value, n.mimeType.value, n.url.value,
                    n.fromScript.value, n.transferSize, n.responseReceivedTime.value,
                    n.statusCode.value))
  }

  // ---------------------------------------------------------------------------------------
  // The lookup tables and the latest end

  /** `networks_lookup_url` or `scripts_lookup_url` after the numbering loop has passed the
      given entries: each entry's url key is set to its id, so a later entry overwrites an
      earlier one with the same key. */
  function LookupTable(es: seq<Entry>, key: Entry -> string): map<string, ActivityId> {
    if es == [] then map[]
    else
      var n := |es| - 1;
      LookupTable(es[..n], key)[key(es[n]) := es[n].id]
  }

  /** The key of `networks_lookup_url` and `scripts_lookup_url`. */
  function UrlKey(e: Entry): string {
    LookupKey(UrlOf(e))
  }

  /** `max_net_time`, `max_load_time` or `max_script_time`: starting from `['', 0]`, an entry
      whose end is strictly later than the current one replaces it. None is the empty id. */
  function MaxEnd(es: seq<Entry>): (Option<ActivityId>, real) {
    if es == [] then (None, 0.0)
    else
      var n := |es| - 1;
      var prev := MaxEnd(es[..n]);
      if EndOf(es[n]) > prev.1 then (Some(es[n].id), EndOf(es[n])) else prev
  }

  /** `all_startTime_lookup`: every entry's id set to its start time, in list order. */
  function StartTable(es: seq<Entry>): map<ActivityId, real> {
    if es == [] then map[]
    else
      var n := |es| - 1;
      StartTable(es[..n])[es[n].id := StartOf(es[n])]
  }

  /** A url key is in the table exactly when some entry has it. */
  lemma {:induction false} LookupTableHas(es: seq<Entry>, key: Entry -> string, k: string)
    ensures k in LookupTable(es, key) <==> exists i :: 0 <= i < |es| && key(es[i]) == k
  {
    if es != [] {
      var n := |es| - 1;
      var init := es[..n];
      LookupTableHas(init, key, k);
      assert LookupTable(es, key) == LookupTable(init, key)[key(es[n]) := es[n].id];
      if k in LookupTable(init, key) {
        var i :| 0 <= i < |init| && key(init[i]) == k;
        assert es[i] == init[i];
      }
      if key(es[n]) != k {
        forall i | 0 <= i < |es| && key(es[i]) == k
          ensures k in LookupTable(init, key)
        {
          assert i < n && es[i] == init[i];
        }
      }
    }
  }

  /** A url key holds the id of the LAST entry with that key: there is no disambiguation
      between equal urls. */
  lemma {:induction false} LookupTableLastWins(es: seq<Entry>, key: Entry -> string, k: string)
    requires k in LookupTable(es, key)
    ensures exists i :: 0 <= i < |es| && key(es[i]) == k && LookupTable(es, key)[k] == es[i].id
              && forall j :: i < j < |es| ==> key(es[j]) != k
  {
    var n := |es| - 1;
    var init := es[..n];
    assert LookupTable(es, key) == LookupTable(init, key)[key(es[n]) := es[n].id];
    if key(es[n]) != k {
      LookupTableLastWins(init, key, k);
      var i :| 0 <= i < |init| && key(init[i]) == k && LookupTable(init, key)[k] == init[i].id
        && forall j :: i < j < |init| ==> key(init[j]) != k;
      assert es[i] == init[i];
      forall j | i < j < |es|
        ensures key(es[j]) != k
      {
        if j < n {
          assert es[j] == init[j];
        }
      }
    }
  }

  /** An id is in the start table exactly when some entry has it, and it holds that
      entry's start (the last one's, were an id repeated). */
  lemma {:induction false} StartTableHolds(es: seq<Entry>, id: ActivityId)
    ensures id in StartTable(es) <==> exists i :: 0 <= i < |es| && es[i].id == id
    ensures id in StartTable(es) ==>
      exists i :: 0 <= i < |es| && es[i].id == id && StartTable(es)[id] == StartOf(es[i])
  {
    if es != [] {
      var n := |es| - 1;
      var init := es[..n];
      StartTableHolds(init, id);
      if es[n].id != id {
        if id in StartTable(init) {
          var i :| 0 <= i < |init| && init[i].id == id && StartTable(init)[id] == StartOf(init[i]);
          assert es[i] == init[i];
        }
        forall i | 0 <= i < |es| && es[i].id == id
          ensures id in StartTable(init)
        {
          assert i < n && es[i] == init[i];
        }
      }
    }
  }

  /** The latest end is no earlier than every entry's end and is 0 with the empty id when no
      entry ends after 0; otherwise it is the end of the FIRST entry reaching it. */
  lemma {:induction false} MaxEndIsFirstLatest(es: seq<Entry>)
    ensures forall i :: 0 <= i < |es| ==> EndOf(es[i]) <= MaxEnd(es).1
    ensures MaxEnd(es).0.None? ==> MaxEnd(es).1 == 0.0
    ensures MaxEnd(es).0.Some? ==>
      exists i :: 0 <= i < |es| && MaxEnd(es) == (Some(es[i].id), EndOf(es[i])) && EndOf(es[i]) > 0.0
        && forall j :: 0 <= j < i ==> EndOf(es[j]) < EndOf(es[i])
  {
    if es != [] {
      var n := |es| - 1;
      var init := es[..n];
      MaxEndIsFirstLatest(init);
      forall i | 0 <= i < n
        ensures EndOf(es[i]) <= MaxEnd(init).1
      {
        assert es[i] == init[i];
      }
      if MaxEnd(es) == MaxEnd(init) && MaxEnd(init).0.Some? {
        var i :| 0 <= i < |init| && MaxEnd(init) == (Some(init[i].id), EndOf(init[i])) && EndOf(init[i]) > 0.0
          && forall j :: 0 <= j < i ==> EndOf(init[j]) < EndOf(init[i]);
        assert es[i] == init[i];
        forall j | 0 <= j < i
          ensures EndOf(es[j]) < EndOf(es[i])
        {
          assert es[j] == init[j];
        }
      }
      if MaxEnd(es) != MaxEnd(init) {
        assert MaxEnd(init).1 >= 0.0 by {
          if MaxEnd(init).0.Some? {
            var i :| 0 <= i < |init| && MaxEnd(init) == (Some(init[i].id), EndOf(init[i])) && EndOf(init[i]) > 0.0;
          }
        }
      }
    }
  }

  /** `last_activity`: the three latest ends sorted by their time, latest first; Python's
      descending sort keeps equal times in their order. */
  function LastActivity(net: (Option<ActivityId>, real), load: (Option<ActivityId>, real),
                        script: (Option<ActivityId>, real)): (r: seq<(Option<ActivityId>, real)>)
    ensures |r| == 3
  {
    SortBy([net, load, script], Later)
  }

  function Later(m: (Option<ActivityId>, real)): real {
    -m.1
  }

  /** The first entry of `last_activity` is the latest of the three, and the list holds
      exactly the three. */
  lemma LastActivityFirstIsLatest(net: (Option<ActivityId>, real), load: (Option<ActivityId>, real),
                                  script: (Option<ActivityId>, real))
    ensures var r := LastActivity(net, load, script);
      multiset(r) == multiset{net, load, script}
      && r[0].1 >= net.1 && r[0].1 >= load.1 && r[0].1 >= script.1
  {
    var s := [net, load, script];
    var r := LastActivity(net, load, script);
    SortBySortsAndPermutes(s, Later);
    assert multiset(s) == multiset{net, load, script};
    forall x | x in s
      ensures r[0].1 >= x.1
    {
      assert x in multiset(r);
      var j :| 0 <= j < |r| && r[j] == x;
      if j > 0 {
        assert Later(r[0]) <= Later(r[j]);
      }
    }
    assert net in s && load in s && script in s;
  }

  // ---------------------------------------------------------------------------------------
  // The numbering loops

  /** The i-th sorted network record became `Networking_i` with the record's data. */
  ghost predicate NetsNumbered(list: seq<Entry>, ps: seq<(string, NetRecord)>) {
    |list| == |ps|
    && forall i :: 0 <= i < |ps| ==> list[i].id == ActivityId(Net, i) && NetNodeOf(ps[i]) == Ok(list[i].node)
  }

  /** The i-th sorted evaluation period became `Scripting_i` with its url and period. */
  ghost predicate ScriptsNumbered(list: seq<Entry>, ps: seq<(string, Accounting.Period)>) {
    |list| == |ps|
    && forall i :: 0 <= i < |ps| ==> list[i] == Entry(ActivityId(Script, i), ScriptNode(ps[i].0, ps[i].1.s, ps[i].1.e))
  }

  /** The loop over the sorted networks: the i-th becomes `Networking_i` with its record's
      data, its url key is set in the lookup table and the latest end is tracked. A record
      that lacks a required field stops the analysis. */
  method NumberNetworks(ps: seq<(string, NetRecord)>)
    returns (r: Result<(seq<Entry>, map<string, ActivityId>, (Option<ActivityId>, real))>)
    ensures r.Ok? <==> forall i :: 0 <= i < |ps| ==> NetNodeOf(ps[i]).Ok?
    ensures r.Ok? ==> NetsNumbered(r.value.0, ps)
    ensures r.Ok? ==> r.value.1 == LookupTable(r.value.0, UrlKey) && r.value.2 == MaxEnd(r.value.0)
  {
    var list: seq<Entry> := [];
    var byUrl: map<string, ActivityId> := map[];
    var latest: (Option<ActivityId>, real) := (None, 0.0);
    for i := 0 to |ps|
      invariant |list| == i
      invariant forall j :: 0 <= j < i ==> list[j].id == ActivityId(Net, j) && NetNodeOf(ps[j]) == Ok(list[j].node)
      invariant byUrl == LookupTable(list, UrlKey) && latest == MaxEnd(list)
    {
      var node := NetNodeOf(ps[i]);
      if node.Err? {
        return Err(node.error);
      }
      var e := Entry(ActivityId(Net, i), node.value);
      if EndOf(e) > latest.1 {
        latest := (Some(e.id), EndOf(e));
      }
      byUrl := byUrl[UrlKey(e) := e.id];
      list := list + [e];
      assert list[..i] == list[..|list| - 1];
    }
    r := Ok((list, byUrl, latest));
  }

  /** The same loop over the sorted script evaluations: the i-th becomes `Scripting_i` with
      its url and period. */
  method NumberScripts(ps: seq<(string, Accounting.Period)>)
    returns (list: seq<Entry>, byUrl: map<string, ActivityId>, latest: (Option<ActivityId>, real))
    ensures ScriptsNumbered(list, ps)
    ensures byUrl == LookupTable(list, UrlKey) && latest == MaxEnd(list)
  {
    list := [];
    byUrl := map[];
    latest := (None, 0.0);
    for i := 0 to |ps|
      invariant |list| == i
      invariant forall j :: 0 <= j < i ==> list[j] == Entry(ActivityId(Script, j), ScriptNode(ps[j].0, ps[j].1.s, ps[j].1.e))
      invariant byUrl == LookupTable(list, UrlKey) && latest == MaxEnd(list)
    {
      var e := Entry(ActivityId(Script, i), ScriptNode(ps[i].0, ps[i].1.s, ps[i].1.e));
      byUrl := byUrl[UrlKey(e) := e.id];
      if EndOf(e) > latest.1 {
        latest := (Some(e.id), EndOf(e));
      }
      list := list + [e];
      assert list[..i] == list[..|list| - 1];
    }
  }

  /** The loop over the filtered loading activities, which tracks their latest end before
      they are sorted. */
  method LatestEnd(es: seq<Entry>) returns (latest: (Option<ActivityId>, real))
    ensures latest == MaxEnd(es)
  {
    latest := (None, 0.0);
    for i := 0 to |es|
      invariant latest == MaxEnd(es[..i])
    {
      assert es[..i + 1][..i] == es[..i];
      if EndOf(es[i]) > latest.1 {
        latest := (Some(es[i].id), EndOf(es[i]));
      }
    }
    assert es[..|es|] == es;
  }

  /** The loop that fills `all_startTime_lookup`. */
  method StartLookup(es: seq<Entry>) returns (m: map<ActivityId, real>)
    ensures m == StartTable(es)
  {
    m := map[];
    for i := 0 to |es|
      invariant m == StartTable(es[..i])
    {
      assert es[..i + 1][..i] == es[..i];
      m := m[es[i].id := StartOf(es[i])];
    }
    assert es[..|es|] == es;
  }

  // ---------------------------------------------------------------------------------------
  // Loading, painting and rendering

  /** `self.loading.items()`: the i-th loading activity is `Loading_i`. */
  function LoadEntries(ls: seq<Loading>): (r: seq<Entry>)
    ensures |r| == |ls|
    ensures forall i :: 0 <= i < |ls| ==> r[i] == Entry(ActivityId(Load, i), LoadNode(ls[i]))
  {
    seq(|ls|, i requires 0 <= i < |ls| => Entry(ActivityId(Load, i), LoadNode(ls[i])))
  }

  /** `self.rendering.items()` or `self.painting.items()`. */
  function SpanEntries(ss: seq<Span>, kind: Kind): (r: seq<Entry>)
    ensures |r| == |ss|
    ensures forall i :: 0 <= i < |ss| ==> r[i] == Entry(ActivityId(kind, i), SpanNode(ss[i]))
  {
    seq(|ss|, i requires 0 <= i < |ss| => Entry(ActivityId(kind, i), SpanNode(ss[i])))
  }

  /** A list of activities as sort_by_startTime leaves it: the timed ones, stably sorted. */
  function TimedSorted(es: seq<Entry>): seq<Entry> {
    SortBy(Filter(es, Timed), StartOf)
  }

  // ---------------------------------------------------------------------------------------
  // Script evaluations of the main thread

  const EvaluateScript: string := "EvaluateScript"

  type ScriptTable = Dict<string, map<string, seq<Accounting.Period>>>

  /** `self.scripts[str(self.scripts['main_thread'])]`. No script table, no main thread or
      no entry for it stops the analysis. */
  function MainScripts(sc: Option<Accounting.Scripts>): (r: Result<ScriptTable>)
    ensures r.Ok? <==> sc.Some? && sc.value.main.Some? && sc.value.main.value in sc.value.byThread
  {
    if sc.None? then Err("TypeError: no script table")
    else if sc.value.main.None? then Err("KeyError: main_thread")
    else if sc.value.main.value !in sc.value.byThread then Err("KeyError: main thread scripts")
    else Ok(sc.value.byThread[sc.value.main.value])
  }

  /** The periods of one url, each paired with the url. */
  function Tagged(url: string, ps: seq<Accounting.Period>): (r: seq<(string, Accounting.Period)>)
    ensures |r| == |ps| && forall j :: 0 <= j < |ps| ==> r[j] == (url, ps[j])
  {
    seq(|ps|, j requires 0 <= j < |ps| => (url, ps[j]))
  }

  /** The evaluation periods of one script url, each paired with the url. */
  function UrlPeriods(url: string, names: map<string, seq<Accounting.Period>>): seq<(string, Accounting.Period)> {
    if EvaluateScript in names then Tagged(url, names[EvaluateScript]) else []
  }

  /** `scripts_list` before sorting: the urls in table order, each with its periods in
      recorded order. */
  function ScriptPeriods(keys: seq<string>, vals: map<string, map<string, seq<Accounting.Period>>>)
    : seq<(string, Accounting.Period)>
  {
    if keys == [] then []
    else
      var n := |keys| - 1;
      ScriptPeriods(keys[..n], vals) + (if keys[n] in vals then UrlPeriods(keys[n], vals[keys[n]]) else [])
  }

  /** The script list holds exactly the EvaluateScript periods of the table, each with its
      url; no filter on the times applies to them. */
  lemma {:induction false} ScriptPeriodsHolds(keys: seq<string>, vals: map<string, map<string, seq<Accounting.Period>>>,
                                              url: string, p: Accounting.Period)
    ensures (url, p) in ScriptPeriods(keys, vals) <==>
      url in keys && url in vals && EvaluateScript in vals[url] && p in vals[url][EvaluateScript]
  {
    if keys != [] {
      var n := |keys| - 1;
      ScriptPeriodsHolds(keys[..n], vals, url, p);
      assert keys == keys[..n] + [keys[n]];
      if keys[n] in vals && EvaluateScript in vals[keys[n]] {
        var ps := vals[keys[n]][EvaluateScript];
        if keys[n] == url && p in ps {
          var j :| 0 <= j < |ps| && ps[j] == p;
          assert UrlPeriods(url, vals[url])[j] == (url, p);
        }
      }
    }
  }

  /** The key of the script sort. */
  function PeriodStart(p: (string, Accounting.Period)): real {
    p.1.s
  }

  /** `scripts_list` after its sort. */
  function SortedScripts(table: ScriptTable): seq<(string, Accounting.Period)> {
    SortBy(ScriptPeriods(table.keys, table.vals), PeriodStart)
  }

  /** The nested loop that collects the main thread's evaluation periods. */
  method CollectScripts(table: ScriptTable) returns (r: seq<(string, Accounting.Period)>)
    requires Dicts.Valid(table)
    ensures r == ScriptPeriods(table.keys, table.vals)
  {
    r := [];
    for i := 0 to |table.keys|
      invariant r == ScriptPeriods(table.keys[..i], table.vals)
    {
      assert table.keys[..i + 1][..i] == table.keys[..i];
      var url := table.keys[i];
      var names := table.vals[url];
      if EvaluateScript in names && |names[EvaluateScript]| > 0 {
        r := AppendTagged(r, url, names[EvaluateScript]);
      } else {
        assert r + UrlPeriods(url, names) == r;
      }
    }
    assert table.keys[..|table.keys|] == table.keys;
  }

  /** The inner loop of the script collection: one url's periods appended in order. */
  method AppendTagged(acc: seq<(string, Accounting.Period)>, url: string, ps: seq<Accounting.Period>)
    returns (r: seq<(string, Accounting.Period)>)
    ensures r == acc + Tagged(url, ps)
  {
    r := acc;
    for j := 0 to |ps|
      invariant r == acc + Tagged(url, ps)[..j]
    {
      assert Tagged(url, ps)[..j + 1] == Tagged(url, ps)[..j] + [(url, ps[j])];
      r := r + [(url, ps[j])];
    }
    assert Tagged(url, ps)[..|ps|] == Tagged(url, ps);
  }

  // ---------------------------------------------------------------------------------------
  // sort_by_startTime

  /** The tables that sort_by_startTime leaves on the trace. */
  datatype Indexed = Indexed(
    networks: seq<Entry>,
    loading: seq<Entry>,
    scripts: seq<Entry>,
    rendering: seq<Entry>,
    painting: seq<Entry>,
    all: seq<Entry>,
    netByUrl: map<string, ActivityId>,
    scriptByUrl: map<string, ActivityId>,
    startById: map<ActivityId, real>,
    lastActivity: seq<(Option<ActivityId>, real)>)

  /** sort_by_startTime fails exactly when a kept network record lacks a required field or
      there is no script table for the main thread. */
  ghost predicate Fails(networks: Networks, scripts: Option<Accounting.Scripts>)
    requires Dicts.Valid(networks)
  {
    (exists i :: 0 <= i < |SortedNets(networks)| && NetNodeOf(SortedNets(networks)[i]).Err?)
    || MainScripts(scripts).Err?
  }

  /** What sort_by_startTime computes from the activity tables. */
  ghost predicate Built(ix: Indexed, networks: Networks, loading: seq<Loading>, rendering: seq<Span>,
                        painting: seq<Span>, scripts: Option<Accounting.Scripts>)
    requires Dicts.Valid(networks)
  {
    NetsNumbered(ix.networks, SortedNets(networks))
    && ix.loading == TimedSorted(LoadEntries(loading))
    && MainScripts(scripts).Ok?
    && ScriptsNumbered(ix.scripts, SortedScripts(MainScripts(scripts).value))
    && ix.rendering == TimedSorted(SpanEntries(rendering, Render))
    && ix.painting == TimedSorted(SpanEntries(painting, Paint))
    && ix.all == SortBy(ix.networks + ix.loading + ix.scripts + ix.rendering + ix.painting, StartOf)
    && ix.netByUrl == LookupTable(ix.networks, UrlKey)
    && ix.scriptByUrl == LookupTable(ix.scripts, UrlKey)
    && ix.startById == StartTable(ix.all)
    && ix.lastActivity == LastActivity(MaxEnd(ix.networks), MaxEnd(Filter(LoadEntries(loading), Timed)),
                                       MaxEnd(ix.scripts))
  }

  /** sort_by_startTime over the network records, the loading, rendering and painting
      activities and the script table. */
  method SortByStartTime(networks: Networks, loading: seq<Loading>, rendering: seq<Span>,
                         painting: seq<Span>, scripts: Option<Accounting.Scripts>)
    returns (r: Result<Indexed>)
    requires Dicts.Valid(networks) && Accounting.ScriptsOk(scripts)
    ensures r.Ok? <==> !Fails(networks, scripts)
    ensures r.Ok? ==> Built(r.value, networks, loading, rendering, painting, scripts)
  {
    var nets := NumberNetworks(SortedNets(networks));
    if nets.Err? {
      return Err(nets.error);
    }
    var timedLoading := Filter(LoadEntries(loading), Timed);
    var latestLoad := LatestEnd(timedLoading);
    var loadingList := SortBy(timedLoading, StartOf);
    var table := MainScripts(scripts);
    if table.Err? {
      return Err(table.error);
    }
    var periods := CollectScripts(table.value);
    var scriptList, scriptByUrl, latestScript := NumberScripts(SortBy(periods, PeriodStart));
    var renderingList := TimedSorted(SpanEntries(rendering, Render));
    var paintingList := TimedSorted(SpanEntries(painting, Paint));
    var networkList := nets.value.0;
    var all := SortBy(networkList + loadingList + scriptList + renderingList + paintingList, StartOf);
    var startById := StartLookup(all);
    r := Ok(Indexed(networkList, loadingList, scriptList, renderingList, paintingList, all,
                  nets.value.1, scriptByUrl, startById,
                  LastActivity(nets.value.2, latestLoad, latestScript)));
  }

  // ---------------------------------------------------------------------------------------
  // What the tables promise

  /** The start order of the network activities: the numbering copies each record's start. */
  lemma NetworksSorted(ix: Indexed, networks: Networks, loading: seq<Loading>, rendering: seq<Span>,
                       painting: seq<Span>, scripts: Option<Accounting.Scripts>)
    requires Dicts.Valid(networks) && Built(ix, networks, loading, rendering, painting, scripts)
    ensures SortedBy(ix.networks, StartOf)
  {
    var nets := SortedNets(networks);
    SortBySortsAndPermutes(Filter(Items(networks), NetTimed), NetStart);
    forall i, j | 0 <= i < j < |ix.networks|
      ensures StartOf(ix.networks[i]) <= StartOf(ix.networks[j])
    {
      assert NetStart(nets[i]) <= NetStart(nets[j]);
    }
  }

  /** The start order of the script evaluations. */
  lemma ScriptsSorted(ix: Indexed, networks: Networks, loading: seq<Loading>, rendering: seq<Span>,
                      painting: seq<Span>, scripts: Option<Accounting.Scripts>)
    requires Dicts.Valid(networks) && Built(ix, networks, loading, rendering, painting, scripts)
    ensures SortedBy(ix.scripts, StartOf)
  {
    var table := MainScripts(scripts).value;
    var sp := SortedScripts(table);
    SortBySortsAndPermutes(ScriptPeriods(table.keys, table.vals), PeriodStart);
    forall i, j | 0 <= i < j < |ix.scripts|
      ensures StartOf(ix.scripts[i]) <= StartOf(ix.scripts[j])
    {
      assert PeriodStart(sp[i]) <= PeriodStart(sp[j]);
    }
  }

  /** Every list is in start order, and the merged list is in start order and holds exactly
      the entries of the five lists. */
  lemma IndexSorted(ix: Indexed, networks: Networks, loading: seq<Loading>, rendering: seq<Span>,
                    painting: seq<Span>, scripts: Option<Accounting.Scripts>)
    requires Dicts.Valid(networks) && Built(ix, networks, loading, rendering, painting, scripts)
    ensures SortedBy(ix.networks, StartOf) && SortedBy(ix.scripts, StartOf)
    ensures SortedBy(ix.loading, StartOf) && SortedBy(ix.rendering, StartOf) && SortedBy(ix.painting, StartOf)
    ensures SortedBy(ix.all, StartOf)
    ensures multiset(ix.all) == multiset(ix.networks + ix.loading + ix.scripts + ix.rendering + ix.painting)
  {
    NetworksSorted(ix, networks, loading, rendering, painting, scripts);
    ScriptsSorted(ix, networks, loading, rendering, painting, scripts);
    SortBySortsAndPermutes(Filter(LoadEntries(loading), Timed), StartOf);
    SortBySortsAndPermutes(Filter(SpanEntries(rendering, Render), Timed), StartOf);
    SortBySortsAndPermutes(Filter(SpanEntries(painting, Paint), Timed), StartOf);
    SortBySortsAndPermutes(ix.networks + ix.loading + ix.scripts + ix.rendering + ix.painting, StartOf);
  }

  /** Loading activities keep the number of their group: `Loading_j` is in the list, with
      its own data, exactly when both its times are non-negative. */
  lemma LoadingKeptIffTimed(loading: seq<Loading>, j: nat)
    requires j < |loading|
    ensures Entry(ActivityId(Load, j), LoadNode(loading[j])) in TimedSorted(LoadEntries(loading)) <==>
      loading[j].startTime >= 0.0 && loading[j].endTime >= 0.0
  {
    var es := LoadEntries(loading);
    assert es[j] == Entry(ActivityId(Load, j), LoadNode(loading[j]));
    SortedFilterHas(es, Timed, StartOf, es[j]);
  }

  /** A request id has a numbered network activity exactly when its record has a
      non-negative start and end. */
  lemma NetworkKeptIffTimed(networks: Networks, id: string)
    requires Dicts.Valid(networks)
    ensures (exists i :: 0 <= i < |SortedNets(networks)| && SortedNets(networks)[i].0 == id)
      <==> id in networks.vals && NetTimed((id, networks.vals[id]))
  {
    var items := Items(networks);
    var nets := SortedNets(networks);
    if id in networks.vals {
      var p := (id, networks.vals[id]);
      SortedFilterHas(items, NetTimed, NetStart, p);
      var k :| 0 <= k < |networks.keys| && networks.keys[k] == id;
      assert items[k] == p;
    }
    if i :| 0 <= i < |nets| && nets[i].0 == id {
      SortedFilterHas(items, NetTimed, NetStart, nets[i]);
      var k :| 0 <= k < |items| && items[k] == nets[i];
      assert nets[i] == (id, networks.vals[id]);
    }
  }
}
