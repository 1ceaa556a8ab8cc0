/** find_download0, CreateGraph, edge_start and dependency: the first edge runs from the
    page's html download to its parse; then every network, loading and scripting activity of
    the merged start-ordered list gets at most one parent by a fixed rule. The networkx graph
    serves only as node-data storage and is kept as a map from activity id to its times. */
module Dependency {
  import opened Wrappers
  import opened Dicts
  import opened Urls
  import opened Activities
  import opened Index

  /** The node data the graph keeps for an activity. */
  datatype Times = Times(startTime: real, endTime: real)

  type Graph = map<ActivityId, Times>

  /** `{'time': ..., 'a1': parent, 'a2': child}`. */
  datatype Dep = Dep(time: real, a1: ActivityId, a2: ActivityId)

  /** edge_start(e1, s2): when the parent ends strictly before the child starts, the edge
      starts at the parent's end and carries no trigger time (-1); otherwise both are the
      child's start. */
  function EdgeStart(e1: real, s2: real): (r: (real, real))
    ensures r.0 <= s2 && r.0 <= e1
    ensures r.1 == -1.0 || r.1 == s2
    ensures r.1 == s2 && s2 != -1.0 ==> s2 <= e1
    ensures e1 < s2 ==> r.1 == -1.0
  {
    if e1 < s2 then (e1, -1.0) else (s2, s2)
  }

  // ---------------------------------------------------------------------------------------
  // find_download0 and CreateGraph

  /** The first index from `i` on whose element satisfies `p`. */
  function FirstWhere(s: seq<Entry>, p: Entry -> bool, i: nat): (r: Option<nat>)
    requires i <= |s|
    ensures r.Some? ==> i <= r.value < |s| && p(s[r.value]) && forall j :: i <= j < r.value ==> !p(s[j])
    ensures r.None? ==> forall j :: i <= j < |s| ==> !p(s[j])
    decreases |s| - i
  {
    if i == |s| then None
    else if p(s[i]) then Some(i)
    else FirstWhere(s, p, i + 1)
  }

  /** A network activity whose mime type is `text/html`. */
  predicate IsHtml(e: Entry) {
    e.id.kind == Net && e.node.NetNode? && e.node.mimeType == "text/html"
  }

  /** A loading activity that parses the html at `url`. */
  predicate IsParseOf(url: string, e: Entry) {
    e.id.kind == Load && e.node.LoadNode? && e.node.load.name == "ParseHTML" && e.node.load.url == Some(url)
  }

  /** find_download0: the first html download of the merged list, and the first ParseHTML of
      the same url; None when either is missing. */
  function Download0(all: seq<Entry>): (r: Option<(Entry, Entry)>)
    ensures r.Some? ==> IsHtml(r.value.0) && IsParseOf(r.value.0.node.url, r.value.1)
                        && r.value.0 in all && r.value.1 in all
  {
    var d := FirstWhere(all, IsHtml, 0);
    if d.None? then None
    else
      var url := all[d.value].node.url;
      var p := FirstWhere(all, e => IsParseOf(url, e), 0);
      if p.None? then None else Some((all[d.value], all[p.value]))
  }

  /** There is a download and a parse exactly when some html download exists and some
      ParseHTML has the url of the first one; both are the first of their kind. */
  lemma Download0Spec(all: seq<Entry>)
    ensures Download0(all).Some? <==>
      exists i :: 0 <= i < |all| && IsHtml(all[i]) && (forall j :: 0 <= j < i ==> !IsHtml(all[j]))
        && exists k :: 0 <= k < |all| && IsParseOf(all[i].node.url, all[k])
    ensures Download0(all).Some? ==>
      exists i, k :: 0 <= i < |all| && 0 <= k < |all| && Download0(all).value == (all[i], all[k])
        && (forall j :: 0 <= j < i ==> !IsHtml(all[j]))
        && (forall j :: 0 <= j < k ==> !IsParseOf(all[i].node.url, all[j]))
  {
    var d := FirstWhere(all, IsHtml, 0);
    if d.Some? {
      var url := all[d.value].node.url;
      var p := FirstWhere(all, e => IsParseOf(url, e), 0);
      forall i | 0 <= i < |all| && IsHtml(all[i]) && (forall j :: 0 <= j < i ==> !IsHtml(all[j]))
        ensures i == d.value
      {
      }
      if p.None? {
        forall k | 0 <= k < |all|
          ensures !IsParseOf(url, all[k])
        {
          assert !(e => IsParseOf(url, e))(all[k]);
        }
      } else {
        assert IsParseOf(url, all[p.value]);
        forall j | 0 <= j < p.value
          ensures !IsParseOf(url, all[j])
        {
          assert !(e => IsParseOf(url, e))(all[j]);
        }
      }
    }
  }

  /** The kinds that become nodes of the graph. */
  predicate InGraph(e: Entry) {
    e.id.kind == Net || e.id.kind == Load || e.id.kind == Script
  }

  /** The nodes CreateGraph adds: every network, loading and scripting activity with its
      times, a later entry with the same id overwriting an earlier one. */
  function GraphOf(es: seq<Entry>): Graph {
    if es == [] then map[]
    else
      var n := |es| - 1;
      var prev := GraphOf(es[..n]);
      if InGraph(es[n]) then prev[es[n].id := Times(StartOf(es[n]), EndOf(es[n]))] else prev
  }

  /** Exactly the network, loading and scripting ids of the list are nodes. */
  lemma {:induction false} GraphHas(es: seq<Entry>, id: ActivityId)
    ensures id in GraphOf(es) <==> exists i :: 0 <= i < |es| && es[i].id == id && InGraph(es[i])
  {
    if es != [] {
      var n := |es| - 1;
      var init := es[..n];
      GraphHas(init, id);
      if id in GraphOf(init) {
        var i :| 0 <= i < |init| && init[i].id == id && InGraph(init[i]);
        assert es[i] == init[i];
      }
      if !(InGraph(es[n]) && es[n].id == id) {
        forall i | 0 <= i < |es| && es[i].id == id && InGraph(es[i])
          ensures id in GraphOf(init)
        {
          assert i < n && es[i] == init[i];
        }
      }
    }
  }

  // ---------------------------------------------------------------------------------------
  // The rules of dependency

  /** `fromScript in ['Null', None, '']` for a loading activity. */
  predicate NoScript(s: Option<string>) {
    s.None? || s.value == Network.NoScript || s.value == ""
  }

  /** One edge with its time: the parent's end and the child's start come from the graph. */
  function Link(g: Graph, parent: ActivityId, child: ActivityId): (r: Result<Dep>)
    ensures r.Ok? <==> parent in g && child in g
    ensures r.Ok? ==>
      r.value.a1 == parent && r.value.a2 == child
      && (r.value.time == -1.0 || r.value.time == g[child].startTime)
  {
    if parent !in g || child !in g then Err("KeyError: graph node")
    else Ok(Dep(EdgeStart(g[parent].endTime, g[child].startTime).1, parent, child))
  }

  /** A rule's edge, if any, runs into `e` and carries the time Link gives it. */
  predicate Linked(g: Graph, e: Entry, r: Result<Option<Dep>>) {
    r.Ok? && r.value.Some? ==> r.value.value.a2 == e.id && Link(g, r.value.value.a1, e.id) == Ok(r.value.value)
  }

  /** An edge, or the error that stops the analysis. */
  function AsEdge(r: Result<Dep>): Result<Option<Dep>> {
    if r.Err? then Err(r.error) else Ok(Some(r.value))
  }

  /** The edge from the script evaluation that `key` looks up to `e`, when that evaluation
      starts strictly before `e`; an unknown url stops the analysis. */
  function ScriptParent(ix: Indexed, g: Graph, key: string, e: Entry): (r: Result<Option<Dep>>)
    ensures Linked(g, e, r)
  {
    if key !in ix.scriptByUrl then Err("KeyError: script url")
    else
      var sid := ix.scriptByUrl[key];
      if sid.n >= |ix.scripts| then Err("IndexError: scripts_list")
      else if e.id !in g then Err("KeyError: graph node")
      else if StartOf(ix.scripts[sid.n]) < g[e.id].startTime then AsEdge(Link(g, sid, e.id))
      else Ok(None)
  }

  /** The edge from the network activity that `key` looks up to `e`; with `guarded`, only
      when that download starts strictly before `e`. An unknown url stops the analysis. */
  function NetParent(ix: Indexed, g: Graph, key: string, e: Entry, guarded: bool): (r: Result<Option<Dep>>)
    ensures Linked(g, e, r)
  {
    if key !in ix.netByUrl then Err("KeyError: network url")
    else
      var nid := ix.netByUrl[key];
      if nid.n >= |ix.networks| then Err("IndexError: networks_list")
      else if !guarded then AsEdge(Link(g, nid, e.id))
      else if e.id !in g then Err("KeyError: graph node")
      else if StartOf(ix.networks[nid.n]) < g[e.id].startTime then AsEdge(Link(g, nid, e.id))
      else Ok(None)
  }

  /** The rule for a network activity: without a triggering script it hangs off `parse_0`
      when it starts strictly after it; with one, off that script. */
  function NetEdge(ix: Indexed, g: Graph, parse0: ActivityId, e: Entry): (r: Result<Option<Dep>>)
    requires e.node.NetNode?
    ensures Linked(g, e, r)
  {
    var n := e.node;
    if n.fromScript == Network.NoScript then
      if parse0 !in g then Err("KeyError: graph node")
      else if n.startTime > g[parse0].startTime then AsEdge(Link(g, parse0, e.id))
      else Ok(None)
    else if n.fromScript != "" then ScriptParent(ix, g, Defrag(n.fromScript), e)
    else Ok(None)
  }

  /** The rule for a loading activity: a style sheet hangs off its download when that starts
      earlier, and is skipped when its url has no download; a ParseHTML without a script after
      `parse_0` hangs off its download unconditionally; a ParseHTML with a script hangs off
      that script when it starts earlier. */
  function LoadEdge(ix: Indexed, g: Graph, parse0: ActivityId, e: Entry): (r: Result<Option<Dep>>)
    requires e.node.LoadNode?
    ensures Linked(g, e, r)
  {
    var l := e.node.load;
    if l.name == "ParseAuthorStyleSheet" then
      if l.styleSheetUrl.None? || Defrag(l.styleSheetUrl.value) !in ix.netByUrl then Ok(None)
      else NetParent(ix, g, Defrag(l.styleSheetUrl.value), e, true)
    else if l.name == "ParseHTML" && NoScript(l.fromScript) then
      if parse0 !in g then Err("KeyError: graph node")
      else if l.startTime > g[parse0].startTime && l.url != Some("") then
        if l.url.None? then Err("KeyError: url")
        else NetParent(ix, g, Defrag(l.url.value), e, false)
      else Ok(None)
    else if l.name == "ParseHTML" then ScriptParent(ix, g, Defrag(l.fromScript.value), e)
    else Ok(None)
  }

  /** The edge dependency adds for one activity of the merged list, if any. */
  function EdgeFor(ix: Indexed, g: Graph, parse0: ActivityId, e: Entry): (r: Result<Option<Dep>>)
    ensures Linked(g, e, r)
  {
    if e.id.kind == Net && e.node.NetNode? then NetEdge(ix, g, parse0, e)
    else if e.id.kind == Script && e.node.ScriptNode? then
      NetParent(ix, g, Defrag(e.node.url), e, true)
    else if e.id.kind == Load && e.node.LoadNode? then LoadEdge(ix, g, parse0, e)
    else Ok(None)
  }

  /** The edges of the loop over the merged list; the first rule that fails stops it. */
  function EdgesOf(ix: Indexed, g: Graph, parse0: ActivityId, es: seq<Entry>): (r: Result<seq<Dep>>)
    ensures r.Ok? ==> forall d :: d in r.value ==> d.a1 in g && d.a2 in g
  {
    if es == [] then Ok([])
    else
      var n := |es| - 1;
      var prev := EdgesOf(ix, g, parse0, es[..n]);
      if prev.Err? then prev
      else
        var d := EdgeFor(ix, g, parse0, es[n]);
        if d.Err? then Err(d.error)
        else Ok(prev.value + if d.value.Some? then [d.value.value] else [])
  }

  // ---------------------------------------------------------------------------------------
  // The guards, one lemma per rule

  /** A network activity without a triggering script gets `parse_0` as its parent exactly
      when it starts strictly after `parse_0`, and no other parent. */
  lemma UnscriptedNetworkHangsOffParse0(ix: Indexed, g: Graph, parse0: ActivityId, e: Entry)
    requires e.id.kind == Net && e.node.NetNode? && e.node.fromScript == Network.NoScript
    requires parse0 in g && e.id in g
    ensures EdgeFor(ix, g, parse0, e).Ok?
    ensures EdgeFor(ix, g, parse0, e).value.Some? <==> e.node.startTime > g[parse0].startTime
    ensures EdgeFor(ix, g, parse0, e).value.Some? ==> EdgeFor(ix, g, parse0, e).value.value.a1 == parse0
  {
  }

  /** Every other edge is ordered: its parent, as listed, starts strictly before the child.
      The one exception is a ParseHTML without a script, which is linked to its download
      whatever their order. */
  lemma OtherEdgesOrdered(ix: Indexed, g: Graph, parse0: ActivityId, e: Entry)
    requires !(e.id.kind == Net && e.node.NetNode? && e.node.fromScript == Network.NoScript)
    requires !(e.id.kind == Load && e.node.LoadNode? && e.node.load.name == "ParseHTML" && NoScript(e.node.load.fromScript))
    requires EdgeFor(ix, g, parse0, e).Ok? && EdgeFor(ix, g, parse0, e).value.Some?
    ensures var p := EdgeFor(ix, g, parse0, e).value.value.a1;
      (p in ix.scriptByUrl.Values && p.n < |ix.scripts| && StartOf(ix.scripts[p.n]) < g[e.id].startTime)
      || (p in ix.netByUrl.Values && p.n < |ix.networks| && StartOf(ix.networks[p.n]) < g[e.id].startTime)
  {
    if e.id.kind == Net && e.node.NetNode? {
      ScriptParentOrdered(ix, g, Defrag(e.node.fromScript), e);
    } else if e.id.kind == Script && e.node.ScriptNode? {
      NetParentOrdered(ix, g, Defrag(e.node.url), e);
    } else {
      var l := e.node.load;
      if l.name == "ParseAuthorStyleSheet" {
        NetParentOrdered(ix, g, Defrag(l.styleSheetUrl.value), e);
      } else {
        ScriptParentOrdered(ix, g, Defrag(l.fromScript.value), e);
      }
    }
  }

  /** An edge from a script evaluation has a parent that starts strictly earlier. */
  lemma ScriptParentOrdered(ix: Indexed, g: Graph, key: string, e: Entry)
    requires ScriptParent(ix, g, key, e).Ok? && ScriptParent(ix, g, key, e).value.Some?
    ensures var p := ScriptParent(ix, g, key, e).value.value.a1;
      p in ix.scriptByUrl.Values && p.n < |ix.scripts| && e.id in g && StartOf(ix.scripts[p.n]) < g[e.id].startTime
  {
  }

  /** A guarded edge from a download has a parent that starts strictly earlier. */
  lemma NetParentOrdered(ix: Indexed, g: Graph, key: string, e: Entry)
    requires NetParent(ix, g, key, e, true).Ok? && NetParent(ix, g, key, e, true).value.Some?
    ensures var p := NetParent(ix, g, key, e, true).value.value.a1;
      p in ix.netByUrl.Values && p.n < |ix.networks| && e.id in g && StartOf(ix.networks[p.n]) < g[e.id].startTime
  {
  }

  /** A ParseHTML without a script gets at most one parent, the download looked up by its
      url, and only when it starts strictly after `parse_0`. */
  lemma UnscriptedParseHangsOffDownload(ix: Indexed, g: Graph, parse0: ActivityId, e: Entry)
    requires e.id.kind == Load && e.node.LoadNode? && e.node.load.name == "ParseHTML"
    requires NoScript(e.node.load.fromScript)
    requires EdgeFor(ix, g, parse0, e).Ok? && EdgeFor(ix, g, parse0, e).value.Some?
    ensures e.node.load.url.Some? && Defrag(e.node.load.url.value) in ix.netByUrl
    ensures EdgeFor(ix, g, parse0, e).value.value.a1 == ix.netByUrl[Defrag(e.node.load.url.value)]
    ensures e.node.load.startTime > g[parse0].startTime
  {
  }

  /** A script evaluation gets the download of its url as parent, when that starts earlier. */
  lemma ScriptHangsOffDownload(ix: Indexed, g: Graph, parse0: ActivityId, e: Entry)
    requires e.id.kind == Script && e.node.ScriptNode?
    requires EdgeFor(ix, g, parse0, e).Ok? && EdgeFor(ix, g, parse0, e).value.Some?
    ensures Defrag(e.node.url) in ix.netByUrl
    ensures var p := EdgeFor(ix, g, parse0, e).value.value.a1;
      p == ix.netByUrl[Defrag(e.node.url)] && p.n < |ix.networks| && StartOf(ix.networks[p.n]) < g[e.id].startTime
  {
  }

  /** A style sheet whose url has no download is skipped rather than stopping the analysis. */
  lemma UnmatchedStyleSheetSkipped(ix: Indexed, g: Graph, parse0: ActivityId, e: Entry)
    requires e.id.kind == Load && e.node.LoadNode? && e.node.load.name == "ParseAuthorStyleSheet"
    requires e.node.load.styleSheetUrl.None? || Defrag(e.node.load.styleSheetUrl.value) !in ix.netByUrl
    ensures EdgeFor(ix, g, parse0, e) == Ok(None)
  {
  }

  // ---------------------------------------------------------------------------------------
  // deps and deps_parent

  /** The parents of `c` in `deps`, in order. */
  function ParentsOf(deps: seq<Dep>, c: ActivityId): seq<ActivityId> {
    if deps == [] then []
    else
      var n := |deps| - 1;
      ParentsOf(deps[..n], c) + if deps[n].a2 == c then [deps[n].a1] else []
  }

  lemma {:induction false} ParentsOfHas(deps: seq<Dep>, c: ActivityId, p: ActivityId)
    ensures p in ParentsOf(deps, c) <==> exists i :: 0 <= i < |deps| && deps[i].a1 == p && deps[i].a2 == c
  {
    if deps != [] {
      var n := |deps| - 1;
      var init := deps[..n];
      ParentsOfHas(init, c, p);
      if p in ParentsOf(init, c) {
        var i :| 0 <= i < |init| && init[i].a1 == p && init[i].a2 == c;
        assert deps[i] == init[i];
      }
      if !(deps[n].a1 == p && deps[n].a2 == c) {
        forall i | 0 <= i < |deps| && deps[i].a1 == p && deps[i].a2 == c
          ensures p in ParentsOf(init, c)
        {
          assert i < n && deps[i] == init[i];
        }
      }
    }
  }

  /** `deps_parent` lists, for each child with an edge, the parents of its edges in `deps`
      in order, and has no other entries. */
  ghost predicate Synced(deps: seq<Dep>, parents: Dict<ActivityId, seq<ActivityId>>) {
    Dicts.Valid(parents)
    && (forall c :: c in parents.vals ==> parents.vals[c] == ParentsOf(deps, c) && parents.vals[c] != [])
    && (forall i :: 0 <= i < |deps| ==> deps[i].a2 in parents.vals)
  }

  /** In sync, the two hold the same (parent, child) pairs. */
  lemma SyncedSamePairs(deps: seq<Dep>, parents: Dict<ActivityId, seq<ActivityId>>, p: ActivityId, c: ActivityId)
    requires Synced(deps, parents)
    ensures (exists i :: 0 <= i < |deps| && deps[i].a1 == p && deps[i].a2 == c)
      <==> c in parents.vals && p in parents.vals[c]
  {
    ParentsOfHas(deps, c, p);
  }

  /** Recording an edge keeps the two in sync. */
  lemma SyncedAppend(deps: seq<Dep>, parents: Dict<ActivityId, seq<ActivityId>>, d: Dep)
    requires Synced(deps, parents)
    ensures Synced(deps + [d], Set(parents, d.a2, Listed(parents, d.a2) + [d.a1]))
  {
    var deps' := deps + [d];
    var parents' := Set(parents, d.a2, Listed(parents, d.a2) + [d.a1]);
    assert deps'[..|deps|] == deps;
    if d.a2 !in parents.vals {
      if ParentsOf(deps, d.a2) != [] {
        var p := ParentsOf(deps, d.a2)[0];
        ParentsOfHas(deps, d.a2, p);
      }
    }
    forall i | 0 <= i < |deps'|
      ensures deps'[i].a2 in parents'.vals
    {
      if i < |deps| {
        assert deps'[i] == deps[i];
      }
    }
  }

  /** `deps_parent.get(c, [])`. */
  function Listed(parents: Dict<ActivityId, seq<ActivityId>>, c: ActivityId): seq<ActivityId> {
    if c in parents.vals then parents.vals[c] else []
  }

  /** Every edge's time is -1 or its child's start, and its ends are nodes. */
  ghost predicate Timely(deps: seq<Dep>, g: Graph) {
    forall d :: d in deps ==> d.a1 in g && d.a2 in g && (d.time == -1.0 || d.time == g[d.a2].startTime)
  }

  /** The times of the loop's edges are -1 or their child's start. */
  lemma {:induction false} EdgesTimely(ix: Indexed, g: Graph, parse0: ActivityId, es: seq<Entry>)
    requires EdgesOf(ix, g, parse0, es).Ok?
    ensures Timely(EdgesOf(ix, g, parse0, es).value, g)
  {
    if es != [] {
      var n := |es| - 1;
      EdgesTimely(ix, g, parse0, es[..n]);
      var d := EdgeFor(ix, g, parse0, es[n]);
      if d.value.Some? {
        EdgeForTimely(ix, g, parse0, es[n]);
      }
    }
  }

  lemma EdgeForTimely(ix: Indexed, g: Graph, parse0: ActivityId, e: Entry)
    requires EdgeFor(ix, g, parse0, e).Ok? && EdgeFor(ix, g, parse0, e).value.Some?
    ensures var d := EdgeFor(ix, g, parse0, e).value.value;
      d.time == -1.0 || d.time == g[d.a2].startTime
  {
  }

  /** The dependency state of the trace: the graph's node data, `deps` and `deps_parent`. */
  class DependencyGraph {
    var g: Graph
    var deps: seq<Dep>
    var depsParent: Dict<ActivityId, seq<ActivityId>>

    ghost predicate Valid()
      reads this
    {
      Synced(deps, depsParent) && Timely(deps, g)
    }

    constructor()
      ensures g == map[] && deps == [] && depsParent == Empty()
      ensures Valid()
    {
      g := map[];
      deps := [];
      depsParent := Empty();
    }

    /** The loop of CreateGraph over the merged list. */
    method CreateGraph(all: seq<Entry>)
      requires g == map[]
      modifies this`g
      ensures g == GraphOf(all)
    {
      for i := 0 to |all|
        invariant g == GraphOf(all[..i])
      {
        assert all[..i + 1][..i] == all[..i];
        if InGraph(all[i]) {
          g := g[all[i].id := Times(StartOf(all[i]), EndOf(all[i]))];
        }
      }
      assert all[..|all|] == all;
    }

    /** One edge: `deps` gets the edge with its time from edge_start and `deps_parent` gets
      the parent appended to the child's list. */
    method AddEdge(parent: ActivityId, child: ActivityId)
      requires Valid() && parent in g && child in g
      modifies this`deps, this`depsParent
      ensures deps == old(deps) + [Link(g, parent, child).value]
      ensures depsParent == Set(old(depsParent), child, Listed(old(depsParent), child) + [parent])
      ensures Valid()
    {
      var time := EdgeStart(g[parent].endTime, g[child].startTime).1;
      SyncedAppend(deps, depsParent, Dep(time, parent, child));
      deps := deps + [Dep(time, parent, child)];
      depsParent := Set(depsParent, child, Listed(depsParent, child) + [parent]);
    }

    /** The loop of dependency over the merged list. */
    method LinkAll(ix: Indexed, parse0: ActivityId)
      returns (r: Result<bool>)
      requires Valid()
      modifies this`deps, this`depsParent
      ensures Valid()
      ensures r.Ok? <==> EdgesOf(ix, g, parse0, ix.all).Ok?
      ensures r.Ok? ==> r.value && deps == old(deps) + EdgesOf(ix, g, parse0, ix.all).value
    {
      var all := ix.all;
      for i := 0 to |all|
        invariant Valid()
        invariant EdgesOf(ix, g, parse0, all[..i]).Ok?
        invariant deps == old(deps) + EdgesOf(ix, g, parse0, all[..i]).value
      {
        var d := EdgeFor(ix, g, parse0, all[i]);
        EdgesStep(ix, g, parse0, all, i, i + 1);
        if d.Err? {
          ErrStays(ix, g, parse0, all, i + 1);
          return Err(d.error);
        }
        if d.value.Some? {
          AddEdge(d.value.value.a1, d.value.value.a2);
        }
      }
      assert all[..|all|] == all;
      r := Ok(true);
    }

    /** dependency: no html download or no parse of it gives False with nothing recorded;
      otherwise the graph holds the network, loading and scripting activities, the first
      edge runs from the download to the parse, and the loop's edges follow. */
    method Dependency(ix: Indexed) returns (r: Result<bool>)
      requires g == map[] && deps == [] && depsParent == Empty()
      modifies this`g, this`deps, this`depsParent
      ensures Valid()
      ensures Download0(ix.all).None? ==> r == Ok(false) && deps == [] && g == map[]
      ensures Download0(ix.all).Some? ==>
        var dl := Download0(ix.all).value;
        g == GraphOf(ix.all)
        && Link(g, dl.0.id, dl.1.id).Ok?
        && (r.Ok? <==> EdgesOf(ix, g, dl.1.id, ix.all).Ok?)
        && (r.Ok? ==> r.value && deps == [Link(g, dl.0.id, dl.1.id).value] + EdgesOf(ix, g, dl.1.id, ix.all).value)
    {
      var dl := FindDownload0(ix.all);
      if dl.None? {
        return Ok(false);
      }
      var download0 := dl.value.0;
      var parse0 := dl.value.1;
      CreateGraph(ix.all);
      GraphHas(ix.all, download0.id);
      GraphHas(ix.all, parse0.id);
      var i :| 0 <= i < |ix.all| && ix.all[i] == download0;
      var k :| 0 <= k < |ix.all| && ix.all[k] == parse0;
      AddEdge(download0.id, parse0.id);
      r := LinkAll(ix, parse0.id);
    }
  }

  /** One step of the loop over the list. */
  lemma EdgesStep(ix: Indexed, g: Graph, parse0: ActivityId, es: seq<Entry>, i: nat, k: nat)
    requires k == i + 1 && k <= |es| && EdgesOf(ix, g, parse0, es[..i]).Ok?
    ensures EdgeFor(ix, g, parse0, es[i]).Err? ==> EdgesOf(ix, g, parse0, es[..k]).Err?
    ensures EdgeFor(ix, g, parse0, es[i]).Ok? ==>
      EdgesOf(ix, g, parse0, es[..k]).Ok?
      && EdgesOf(ix, g, parse0, es[..k]).value == EdgesOf(ix, g, parse0, es[..i]).value
           + if EdgeFor(ix, g, parse0, es[i]).value.Some? then [EdgeFor(ix, g, parse0, es[i]).value.value] else []
  {
    var s := es[..k];
    assert |s| - 1 == i && s[..|s| - 1] == es[..i] && s[|s| - 1] == es[i];
  }

  /** An error in a prefix of the list stays an error. */
  lemma {:induction false} ErrStays(ix: Indexed, g: Graph, parse0: ActivityId, es: seq<Entry>, k: nat)
    requires k <= |es| && EdgesOf(ix, g, parse0, es[..k]).Err?
    ensures EdgesOf(ix, g, parse0, es).Err?
    decreases |es| - k
  {
    if k < |es| {
      assert es[..k + 1][..k] == es[..k];
      ErrStays(ix, g, parse0, es, k + 1);
    } else {
      assert es[..k] == es;
    }
  }

  /** The two loops of find_download0. */
  method FindDownload0(all: seq<Entry>) returns (r: Option<(Entry, Entry)>)
    ensures r == Download0(all)
  {
    var i := 0;
    while i < |all| && !IsHtml(all[i])
      invariant 0 <= i <= |all|
      invariant forall j :: 0 <= j < i ==> !IsHtml(all[j])
    {
      i := i + 1;
    }
    if i == |all| {
      return None;
    }
    var url := all[i].node.url;
    var k := 0;
    while k < |all| && !IsParseOf(url, all[k])
      invariant 0 <= k <= |all|
      invariant forall j :: 0 <= j < k ==> !IsParseOf(url, all[j])
    {
      k := k + 1;
    }
    assert FirstWhere(all, IsHtml, 0) == Some(i);
    if k == |all| {
      assert FirstWhere(all, e => IsParseOf(url, e), 0).None? by {
        var p := FirstWhere(all, e => IsParseOf(url, e), 0);
      }
      return None;
    }
    assert FirstWhere(all, e => IsParseOf(url, e), 0) == Some(k) by {
      var p := FirstWhere(all, e => IsParseOf(url, e), 0);
      assert (e => IsParseOf(url, e))(all[k]);
    }
    r := Some((all[i], all[k]));
  }
}
