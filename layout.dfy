/** order_layout and the list assembly of WriteOutputlog: the activities grouped by url in
    first-seen order, the groups sorted by the start of their first activity, and the output
    list of one entry per url group followed by the rendering, painting, dependency and
    netlog entries. */
module Layout {
  import opened Wrappers
  import opened Dicts
  import opened Sorting
  import opened Urls
  import opened Activities
  import opened Index
  import Dependency
  import Netlog
  import Network
  import Accounting

  /** The key of a url group: `urldefrag(url)[0]`, or the empty bytes key that
      `urldefrag(None)` gives for a loading activity without that url. */
  datatype GroupKey = Url(url: string) | NoUrl

  function KeyOf(u: Option<string>): GroupKey {
    if u.Some? then Url(Defrag(u.value)) else NoUrl
  }

  /** The group of an activity: a network or a script evaluation by its url, a ParseHTML by
      its page url, a ParseAuthorStyleSheet by its style sheet url; other activities are not
      grouped. */
  function GroupOf(e: Entry): Option<GroupKey> {
    match e.node
    case NetNode(_, _, _, _, url, _, _, _, _) => Some(Url(Defrag(url)))
    case ScriptNode(url, _, _) => Some(Url(Defrag(url)))
    case LoadNode(l) =>
      if l.name == "ParseHTML" then Some(KeyOf(l.url))
      else if l.name == "ParseAuthorStyleSheet" then Some(KeyOf(l.styleSheetUrl))
      else None
    case SpanNode(_) => None
  }

  type Groups = Dict<GroupKey, seq<ActivityId>>

  /** The ids grouped under `k`, in list order. */
  function IdsUnder(es: seq<Entry>, k: GroupKey): seq<ActivityId> {
    if es == [] then []
    else
      var n := |es| - 1;
      IdsUnder(es[..n], k) + if GroupOf(es[n]) == Some(k) then [es[n].id] else []
  }

  /** An id is listed under `k` exactly when an entry with that id has group `k`. */
  lemma {:induction false} IdsUnderHas(es: seq<Entry>, k: GroupKey, id: ActivityId)
    ensures id in IdsUnder(es, k) <==> exists i :: 0 <= i < |es| && es[i].id == id && GroupOf(es[i]) == Some(k)
  {
    if es != [] {
      var n := |es| - 1;
      var init := es[..n];
      IdsUnderHas(init, k, id);
      var last := if GroupOf(es[n]) == Some(k) then [es[n].id] else [];
      assert IdsUnder(es, k) == IdsUnder(init, k) + last;
      if id in IdsUnder(es, k) {
        if id in IdsUnder(init, k) {
          var i :| 0 <= i < |init| && init[i].id == id && GroupOf(init[i]) == Some(k);
          assert es[i] == init[i];
        } else {
          assert id in last;
        }
      }
      if exists i :: 0 <= i < |es| && es[i].id == id && GroupOf(es[i]) == Some(k) {
        var i :| 0 <= i < |es| && es[i].id == id && GroupOf(es[i]) == Some(k);
        if i < n {
          assert init[i] == es[i];
        } else {
          assert i == n && last == [es[n].id];
        }
      }
    }
  }

  /** `self.ordered` before its sort and `ordered_url_lookup`: a group for every key some
      entry has and for no other, listing the ids of its entries in order; each key's number
      is its position in first-seen order. */
  ghost predicate GroupedAs(ordered: Groups, urlIndex: map<GroupKey, nat>, es: seq<Entry>) {
    Dicts.Valid(ordered)
    && (forall k :: k in ordered.vals ==> ordered.vals[k] == IdsUnder(es, k) && ordered.vals[k] != [])
    && (forall i :: 0 <= i < |es| && GroupOf(es[i]).Some? ==> GroupOf(es[i]).value in ordered.vals)
    && urlIndex.Keys == ordered.vals.Keys
    && (forall j :: 0 <= j < |ordered.keys| ==> urlIndex[ordered.keys[j]] == j)
  }

  /** `ordered.setdefault(k, []).append(id)`. */
  function Listed(ordered: Groups, k: GroupKey): seq<ActivityId> {
    if k in ordered.vals then ordered.vals[k] else []
  }

  /** Appending an entry extends only its own group's list. */
  lemma IdsUnderStep(es: seq<Entry>, e: Entry, k: GroupKey)
    ensures IdsUnder(es + [e], k) == IdsUnder(es, k) + if GroupOf(e) == Some(k) then [e.id] else []
  {
    assert (es + [e])[..|es|] == es;
  }

  /** After one step every group lists exactly the ids of its entries. */
  lemma GroupStepLists(ordered: Groups, urlIndex: map<GroupKey, nat>, es: seq<Entry>, e: Entry, k: GroupKey)
    requires GroupedAs(ordered, urlIndex, es) && GroupOf(e) == Some(k)
    ensures var ordered' := Set(ordered, k, Listed(ordered, k) + [e.id]);
      forall k' :: k' in ordered'.vals ==> ordered'.vals[k'] == IdsUnder(es + [e], k') && ordered'.vals[k'] != []
  {
    var ordered' := Set(ordered, k, Listed(ordered, k) + [e.id]);
    forall k' | k' in ordered'.vals
      ensures ordered'.vals[k'] == IdsUnder(es + [e], k') && ordered'.vals[k'] != []
    {
      IdsUnderStep(es, e, k');
      if k' == k && k !in ordered.vals && IdsUnder(es, k) != [] {
        IdsUnderHas(es, k, IdsUnder(es, k)[0]);
        assert false;
      }
    }
  }

  /** After one step every grouped entry has its group. */
  lemma GroupStepCovers(ordered: Groups, urlIndex: map<GroupKey, nat>, es: seq<Entry>, e: Entry, k: GroupKey)
    requires GroupedAs(ordered, urlIndex, es) && GroupOf(e) == Some(k)
    ensures var ordered' := Set(ordered, k, Listed(ordered, k) + [e.id]);
      forall i :: 0 <= i < |es + [e]| && GroupOf((es + [e])[i]).Some? ==> GroupOf((es + [e])[i]).value in ordered'.vals
  {
    var es' := es + [e];
    forall i | 0 <= i < |es'| && GroupOf(es'[i]).Some?
      ensures GroupOf(es'[i]).value in ordered.vals || GroupOf(es'[i]).value == k
    {
      if i < |es| {
        assert es'[i] == es[i];
      }
    }
  }

  /** One step of order_layout on an entry with a group keeps the grouping; the counter is
      the number of groups. */
  lemma GroupStep(ordered: Groups, urlIndex: map<GroupKey, nat>, es: seq<Entry>, e: Entry)
    requires GroupedAs(ordered, urlIndex, es) && GroupOf(e).Some?
    ensures var k := GroupOf(e).value;
      var ordered' := Set(ordered, k, Listed(ordered, k) + [e.id]);
      var urlIndex' := if |ordered'.vals[k]| == 1 then urlIndex[k := |ordered.keys|] else urlIndex;
      GroupedAs(ordered', urlIndex', es + [e])
      && |ordered'.keys| == |ordered.keys| + (if |ordered'.vals[k]| == 1 then 1 else 0)
  {
    var k := GroupOf(e).value;
    var ordered' := Set(ordered, k, Listed(ordered, k) + [e.id]);
    GroupStepLists(ordered, urlIndex, es, e, k);
    GroupStepCovers(ordered, urlIndex, es, e, k);
    GroupStepNumbers(ordered, urlIndex, es, e, k);
  }

  /** After one step a new key is numbered after the keys seen before it. */
  lemma GroupStepNumbers(ordered: Groups, urlIndex: map<GroupKey, nat>, es: seq<Entry>, e: Entry, k: GroupKey)
    requires GroupedAs(ordered, urlIndex, es) && GroupOf(e) == Some(k)
    ensures var ordered' := Set(ordered, k, Listed(ordered, k) + [e.id]);
      var urlIndex' := if |ordered'.vals[k]| == 1 then urlIndex[k := |ordered.keys|] else urlIndex;
      urlIndex'.Keys == ordered'.vals.Keys
      && (forall j :: 0 <= j < |ordered'.keys| ==> urlIndex'[ordered'.keys[j]] == j)
      && |ordered'.keys| == |ordered.keys| + (if |ordered'.vals[k]| == 1 then 1 else 0)
  {
    var ordered' := Set(ordered, k, Listed(ordered, k) + [e.id]);
    if k in ordered.vals {
      assert |ordered'.vals[k]| > 1;
    } else {
      var urlIndex' := urlIndex[k := |ordered.keys|];
      forall j | 0 <= j < |ordered'.keys|
        ensures urlIndex'[ordered'.keys[j]] == j
      {
        if j < |ordered.keys| {
          assert ordered'.keys[j] == ordered.keys[j];
        }
      }
    }
  }

  /** The key order_layout sorts the groups by: the start of the group's first activity. */
  function FirstStart(startById: map<ActivityId, real>, item: (GroupKey, seq<ActivityId>)): real {
    if item.1 != [] && item.1[0] in startById then startById[item.1[0]] else 0.0
  }

  /** The sort of the groups stops the analysis when a first id has no start time. */
  predicate SortsCleanly(startById: map<ActivityId, real>, items: seq<(GroupKey, seq<ActivityId>)>) {
    forall i :: 0 <= i < |items| ==> items[i].1 != [] && items[i].1[0] in startById
  }

  /** The activities order_layout walks: the networks, then the script evaluations, then the
      loading activities, each in start order. */
  function LayoutInput(ix: Indexed): seq<Entry> {
    ix.networks + ix.scripts + ix.loading
  }

  /** The grouping loops of order_layout: they share one body, so they are one loop over
      the networks, the script evaluations and the loading activities in turn. */
  method GroupActivities(es: seq<Entry>) returns (ordered: Groups, urlIndex: map<GroupKey, nat>)
    ensures GroupedAs(ordered, urlIndex, es)
  {
    ordered := Empty();
    urlIndex := map[];
    var i := 0;
    for n := 0 to |es|
      invariant GroupedAs(ordered, urlIndex, es[..n]) && i == |ordered.keys|
    {
      assert es[..n + 1] == es[..n] + [es[n]];
      var g := GroupOf(es[n]);
      if g.Some? {
        var k := g.value;
        GroupStep(ordered, urlIndex, es[..n], es[n]);
        ordered := Set(ordered, k, Listed(ordered, k) + [es[n].id]);
        if |ordered.vals[k]| == 1 {
          urlIndex := urlIndex[k := i];
          i := i + 1;
        }
      } else {
        NoGroupStep(ordered, urlIndex, es[..n], es[n]);
      }
    }
    assert es[..|es|] == es;
  }

  /** order_layout: the groups come back sorted by the start of their first activity,
      together with the unsorted groups and the first-seen numbering. */
  method OrderLayout(ix: Indexed)
    returns (ordered: Groups, urlIndex: map<GroupKey, nat>, r: Result<seq<(GroupKey, seq<ActivityId>)>>)
    ensures GroupedAs(ordered, urlIndex, LayoutInput(ix))
    ensures r.Ok? <==> SortsCleanly(ix.startById, Items(ordered))
    ensures r.Ok? ==> r.value == SortBy(Items(ordered), item => FirstStart(ix.startById, item))
  {
    ordered, urlIndex := GroupActivities(LayoutInput(ix));
    var items := Items(ordered);
    if !SortsCleanly(ix.startById, items) {
      return ordered, urlIndex, Err("KeyError: all_startTime_lookup");
    }
    r := Ok(SortBy(items, item => FirstStart(ix.startById, item)));
  }

  /** An activity without a group changes nothing. */
  lemma NoGroupStep(ordered: Groups, urlIndex: map<GroupKey, nat>, es: seq<Entry>, e: Entry)
    requires GroupedAs(ordered, urlIndex, es) && GroupOf(e).None?
    ensures GroupedAs(ordered, urlIndex, es + [e])
  {
    var es' := es + [e];
    assert es'[..|es|] == es;
    forall i | 0 <= i < |es'| && GroupOf(es'[i]).Some?
      ensures GroupOf(es'[i]).value in ordered.vals
    {
      assert i < |es| && es'[i] == es[i];
    }
  }

  /** The sorted groups are in order of their first activity's start and are the groups. */
  lemma LayoutSorted(startById: map<ActivityId, real>, ordered: Groups)
    requires Dicts.Valid(ordered)
    ensures var s := SortBy(Items(ordered), item => FirstStart(startById, item));
      SortedBy(s, item => FirstStart(startById, item)) && multiset(s) == multiset(Items(ordered))
  {
    SortBySortsAndPermutes(Items(ordered), item => FirstStart(startById, item));
  }

  /** When every grouped activity is in the merged list and the start table is that of the
      merged list, every group's first id has a start. */
  lemma GroupsHaveStarts(ix: Indexed, ordered: Groups, urlIndex: map<GroupKey, nat>)
    requires GroupedAs(ordered, urlIndex, LayoutInput(ix))
    requires multiset(ix.all) == multiset(ix.networks + ix.loading + ix.scripts + ix.rendering + ix.painting)
    requires ix.startById == StartTable(ix.all)
    ensures SortsCleanly(ix.startById, Items(ordered))
  {
    var es := LayoutInput(ix);
    var items := Items(ordered);
    forall i | 0 <= i < |items|
      ensures items[i].1 != [] && items[i].1[0] in ix.startById
    {
      var k := ordered.keys[i];
      var id := ordered.vals[k][0];
      IdsUnderHas(es, k, id);
      var j :| 0 <= j < |es| && es[j].id == id && GroupOf(es[j]) == Some(k);
      InMerged(ix, es[j]);
      StartTableHolds(ix.all, id);
    }
  }

  /** On the tables sort_by_startTime builds, the sort of the groups never misses a start
      time: every grouped activity is in the merged list, so its id has a start. */
  lemma LayoutNeverFails(ix: Indexed, networks: Network.Networks, loading: seq<Loading>, rendering: seq<Span>,
                         painting: seq<Span>, scripts: Option<Accounting.Scripts>,
                         ordered: Groups, urlIndex: map<GroupKey, nat>)
    requires Dicts.Valid(networks) && Built(ix, networks, loading, rendering, painting, scripts)
    requires GroupedAs(ordered, urlIndex, LayoutInput(ix))
    ensures SortsCleanly(ix.startById, Items(ordered))
  {
    IndexSorted(ix, networks, loading, rendering, painting, scripts);
    GroupsHaveStarts(ix, ordered, urlIndex);
  }

  /** A network, script or loading activity is in the merged list. */
  lemma InMerged(ix: Indexed, e: Entry)
    requires e in LayoutInput(ix)
    requires multiset(ix.all) == multiset(ix.networks + ix.loading + ix.scripts + ix.rendering + ix.painting)
    ensures e in ix.all
  {
    assert e in ix.networks + ix.loading + ix.scripts + ix.rendering + ix.painting;
    assert e in multiset(ix.all);
  }

  // ---------------------------------------------------------------------------------------
  // WriteOutputlog

  /** The netlog entry of the output. */
  datatype NetlogReport = NetlogReport(
    dns: Netlog.DnsTable, sockets: Netlog.SocketTable, dnsTime: real,
    bytesIn: int, bytesOut: int, sslBytesOut: int, sslBytesIn: int)

  /** One entry of `self.output`. */
  datatype Output =
    | UrlGroup(key: GroupKey, objs: seq<(ActivityId, Node)>)
    | RenderingGroup(rendering: seq<Entry>)
    | PaintingGroup(painting: seq<Entry>)
    | DepsGroup(deps: seq<Dependency.Dep>)
    | NetlogGroup(netlog: NetlogReport)

  /** The data WriteOutputlog pairs with an id: `networks_lookup_id`, `self.loading` or
      `scripts_lookup_id` by the id's kind; an id of another kind is left out. */
  function ObjOf(ix: Indexed, loading: seq<Loading>, id: ActivityId): (r: Result<Option<(ActivityId, Node)>>)
    ensures r.Ok? && r.value.Some? ==> r.value.value.0 == id
    ensures r.Ok? && r.value.None? <==> id.kind == Render || id.kind == Paint
    ensures r.Err? <==>
      || (id.kind == Net && id.n >= |ix.networks|)
      || (id.kind == Load && id.n >= |loading|)
      || (id.kind == Script && id.n >= |ix.scripts|)
    ensures r.Ok? && id.kind == Net ==> r.value.value.1 == ix.networks[id.n].node
    ensures r.Ok? && id.kind == Load ==> r.value.value.1 == LoadNode(loading[id.n])
    ensures r.Ok? && id.kind == Script ==> r.value.value.1 == ix.scripts[id.n].node
  {
    match id.kind
    case Net => if id.n < |ix.networks| then Ok(Some((id, ix.networks[id.n].node))) else Err("KeyError: networks_lookup_id")
    case Load => if id.n < |loading| then Ok(Some((id, LoadNode(loading[id.n])))) else Err("KeyError: loading")
    case Script => if id.n < |ix.scripts| then Ok(Some((id, ix.scripts[id.n].node))) else Err("KeyError: scripts_lookup_id")
    case Render => Ok(None)
    case Paint => Ok(None)
  }

  /** With the network and script lists numbered as sort_by_startTime numbers them, a
      network or script id finds the node of the entry that carries that id, and the
      lookup raises exactly when no entry carries it. */
  lemma ObjOfLooksUp(ix: Indexed, loading: seq<Loading>, id: ActivityId)
    requires forall i :: 0 <= i < |ix.networks| ==> ix.networks[i].id == ActivityId(Net, i)
    requires forall i :: 0 <= i < |ix.scripts| ==> ix.scripts[i].id == ActivityId(Script, i)
    ensures id.kind == Net ==>
      && (ObjOf(ix, loading, id).Ok? <==> exists e :: e in ix.networks && e.id == id)
      && forall e :: e in ix.networks && e.id == id ==> ObjOf(ix, loading, id) == Ok(Some((id, e.node)))
    ensures id.kind == Script ==>
      && (ObjOf(ix, loading, id).Ok? <==> exists e :: e in ix.scripts && e.id == id)
      && forall e :: e in ix.scripts && e.id == id ==> ObjOf(ix, loading, id) == Ok(Some((id, e.node)))
  {
    if id.kind == Net {
      if id.n < |ix.networks| {
        assert ix.networks[id.n] in ix.networks;
      }
      forall e | e in ix.networks && e.id == id
        ensures ObjOf(ix, loading, id) == Ok(Some((id, e.node)))
      {
        var i :| 0 <= i < |ix.networks| && ix.networks[i] == e;
        assert i == id.n;
      }
    } else if id.kind == Script {
      if id.n < |ix.scripts| {
        assert ix.scripts[id.n] in ix.scripts;
      }
      forall e | e in ix.scripts && e.id == id
        ensures ObjOf(ix, loading, id) == Ok(Some((id, e.node)))
      {
        var i :| 0 <= i < |ix.scripts| && ix.scripts[i] == e;
        assert i == id.n;
      }
    }
  }

  /** The objects of one url group, in the group's order. */
  function GroupObjs(ix: Indexed, loading: seq<Loading>, ids: seq<ActivityId>): (r: Result<seq<(ActivityId, Node)>>)
    ensures r.Ok? && (forall i :: 0 <= i < |ids| ==> ids[i].kind != Render && ids[i].kind != Paint) ==>
      |r.value| == |ids| && forall i :: 0 <= i < |ids| ==> r.value[i].0 == ids[i]
  {
    if ids == [] then Ok([])
    else
      var n := |ids| - 1;
      var prev := GroupObjs(ix, loading, ids[..n]);
      if prev.Err? then prev
      else
        var o := ObjOf(ix, loading, ids[n]);
        if o.Err? then Err(o.error)
        else Ok(prev.value + if o.value.Some? then [o.value.value] else [])
  }

  /** The netlog entry: the DNS table, the socket table and the DNS time must exist. */
  function NetlogEntry(dns: Option<Netlog.DnsTable>, sockets: Option<Netlog.SocketTable>, dnsTime: Option<real>,
                       bytesIn: int, bytesOut: int, sslBytesIn: int, sslBytesOut: int): (r: Result<Output>)
    ensures r.Ok? <==> dns.Some? && sockets.Some? && dnsTime.Some?
  {
    if dns.None? then Err("KeyError: dns")
    else if sockets.None? then Err("KeyError: sockets")
    else if dnsTime.None? then Err("KeyError: dnsTime")
    else Ok(NetlogGroup(NetlogReport(dns.value, sockets.value, dnsTime.value, bytesIn, bytesOut, sslBytesOut, sslBytesIn)))
  }

  /** The loop over one group's ids. */
  method CollectObjs(ix: Indexed, loading: seq<Loading>, ids: seq<ActivityId>)
    returns (r: Result<seq<(ActivityId, Node)>>)
    ensures r == GroupObjs(ix, loading, ids)
  {
    var objs: seq<(ActivityId, Node)> := [];
    for i := 0 to |ids|
      invariant GroupObjs(ix, loading, ids[..i]) == Ok(objs)
    {
      assert ids[..i + 1][..i] == ids[..i] && ids[..i + 1][i] == ids[i];
      var o := ObjOf(ix, loading, ids[i]);
      if o.Err? {
        assert GroupObjs(ix, loading, ids[..i + 1]) == Err(o.error);
        ObjsErrStays(ix, loading, ids, i + 1);
        return Err(o.error);
      }
      assert GroupObjs(ix, loading, ids[..i + 1]) ==
        Ok(objs + if o.value.Some? then [o.value.value] else []);
      if o.value.Some? {
        objs := objs + [o.value.value];
      } else {
        assert objs + [] == objs;
      }
    }
    assert ids[..|ids|] == ids;
    r := Ok(objs);
  }

  /** An error in a prefix of the ids stays an error. */
  lemma {:induction false} ObjsErrStays(ix: Indexed, loading: seq<Loading>, ids: seq<ActivityId>, k: nat)
    requires k <= |ids| && GroupObjs(ix, loading, ids[..k]).Err?
    ensures GroupObjs(ix, loading, ids) == GroupObjs(ix, loading, ids[..k])
    decreases |ids| - k
  {
    if k < |ids| {
      assert ids[..k + 1][..k] == ids[..k];
      ObjsErrStays(ix, loading, ids, k + 1);
    } else {
      assert ids[..k] == ids;
    }
  }

  /** WriteOutputlog in library mode: one entry per url group in the sorted order, then the
      rendering, painting, dependency and netlog entries. A missing id or netlog table stops
      the analysis. */
  method WriteOutputlog(ordered: seq<(GroupKey, seq<ActivityId>)>, ix: Indexed, loading: seq<Loading>,
                        deps: seq<Dependency.Dep>, netlog: Netlog.NetlogState)
    returns (r: Result<seq<Output>>)
    ensures r.Ok? <==>
      (forall j :: 0 <= j < |ordered| ==> GroupObjs(ix, loading, ordered[j].1).Ok?)
      && NetlogEntry(netlog.dns, netlog.sockets, netlog.dnsTime, netlog.bytesIn, netlog.bytesOut,
                     netlog.sslBytesIn, netlog.sslBytesOut).Ok?
    ensures r.Ok? ==>
      |r.value| == |ordered| + 4
      && (forall j :: 0 <= j < |ordered| ==>
            r.value[j] == UrlGroup(ordered[j].0, GroupObjs(ix, loading, ordered[j].1).value))
      && r.value[|ordered|] == RenderingGroup(ix.rendering)
      && r.value[|ordered| + 1] == PaintingGroup(ix.painting)
      && r.value[|ordered| + 2] == DepsGroup(deps)
      && r.value[|ordered| + 3] == NetlogEntry(netlog.dns, netlog.sockets, netlog.dnsTime, netlog.bytesIn,
                                               netlog.bytesOut, netlog.sslBytesIn, netlog.sslBytesOut).value
  {
    var output: seq<Output> := [];
    for j := 0 to |ordered|
      invariant |output| == j
      invariant forall m :: 0 <= m < j ==>
        GroupObjs(ix, loading, ordered[m].1).Ok? && output[m] == UrlGroup(ordered[m].0, GroupObjs(ix, loading, ordered[m].1).value)
    {
      var objs := CollectObjs(ix, loading, ordered[j].1);
      if objs.Err? {
        return Err(objs.error);
      }
      output := output + [UrlGroup(ordered[j].0, objs.value)];
    }
    var trailer := NetlogEntry(netlog.dns, netlog.sockets, netlog.dnsTime, netlog.bytesIn, netlog.bytesOut,
                               netlog.sslBytesIn, netlog.sslBytesOut);
    if trailer.Err? {
      return Err(trailer.error);
    }
    r := Ok(output + [RenderingGroup(ix.rendering), PaintingGroup(ix.painting), DepsGroup(deps), trailer.value]);
  }
}
