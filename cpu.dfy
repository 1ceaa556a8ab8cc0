/** The CPU profile of the trace object (`self.cpu` and `self.scripts`) and the pass that
    fills it: ProcessTimelineEvents, ProcessTimelineEvent and AdjustTimelineSlice, proved
    against the functions of the Accounting module. */
module Cpu {
  import opened Wrappers
  import opened Dicts
  import opened Events
  import opened Slices
  import opened Accounting
  import Timeline

  class CpuProfile {
    /** `cpu['main_thread']`, found by the timeline stage. */
    var mainThread: Option<Thread>
    /** `cpu['total_usecs']`. */
    var totalUsecs: int
    /** `cpu['slice_usecs']`. */
    var sliceUsecs: nat
    /** `cpu['slices']` while the pass runs: per thread, per name, the busy fraction of
        every slice. */
    var slices: Tables
    /** `cpu['slices']` once the pass is done: the fractions as microseconds, without the
        total row. */
    var usecs: Dict<Thread, Dict<string, seq<int>>>
    /** `self.scripts`: nothing until the first script-evaluation frame is met. */
    var scripts: Option<Scripts>

    constructor(main: Option<Thread>)
      ensures mainThread == main && slices == Empty() && usecs == Empty() && scripts == None
    {
      mainThread := main;
      totalUsecs, sliceUsecs := 0, 0;
      slices, usecs, scripts := Empty(), Empty(), None;
    }

    /** ProcessTimelineEvents: when there are call trees and the trace spans some time, the
        slice width is chosen, empty tables are made for every registered thread, every call
        tree is spread over them, and the fractions are turned into microseconds. */
    method ProcessTimelineEvents(tl: Timeline.TState)
      requires Timeline.Consistent(tl) && ScriptsOk(scripts)
      modifies this`totalUsecs, this`sliceUsecs, this`slices, this`usecs, this`scripts
      ensures !Runs(tl) ==>
        && totalUsecs == old(totalUsecs) && sliceUsecs == old(sliceUsecs)
        && slices == old(slices) && usecs == old(usecs) && scripts == old(scripts)
      ensures Runs(tl) ==>
        && totalUsecs == Span(tl)
        && IsSliceWidth(Span(tl), sliceUsecs)
        && (forall f :: f in tl.timelineEvents ==> Sliceable(f, EnvOf(tl, sliceUsecs, mainThread)))
        && slices == TablesRoots(InitTables(tl.threads, CeilDiv(Span(tl), sliceUsecs), |tl.threads.keys|),
                                 tl.timelineEvents, |tl.timelineEvents|, EnvOf(tl, sliceUsecs, mainThread))
        && scripts == ScriptsRoots(old(scripts), tl.timelineEvents, |tl.timelineEvents|, EnvOf(tl, sliceUsecs, mainThread))
        && usecs == UsecsTables(slices, sliceUsecs)
    {
      if Runs(tl) {
        var span := tl.endTime.value - tl.startTime.value;
        assert span == Span(tl);
        var su, count := SliceUsecs(span);
        assert IsSliceWidth(span, su);
        totalUsecs := span;
        sliceUsecs := su;
        RunPass(tl, count);
        ConvertSlices();
      }
    }

    /** ProcessTimelineEvents once the slice width is chosen: the empty tables, and the call
        trees spread over them. */
    method RunPass(tl: Timeline.TState, count: nat)
      requires Timeline.Consistent(tl) && Runs(tl) && ScriptsOk(scripts)
      requires sliceUsecs > 0 && count == CeilDiv(Span(tl), sliceUsecs)
      modifies this`slices, this`scripts
      ensures forall f :: f in tl.timelineEvents ==> Sliceable(f, EnvOf(tl, sliceUsecs, mainThread))
      ensures slices == TablesRoots(InitTables(tl.threads, count, |tl.threads.keys|),
                                    tl.timelineEvents, |tl.timelineEvents|, EnvOf(tl, sliceUsecs, mainThread))
      ensures scripts == ScriptsRoots(old(scripts), tl.timelineEvents, |tl.timelineEvents|, EnvOf(tl, sliceUsecs, mainThread))
    {
      InitSlices(tl.threads, count);
      var env := EnvOf(tl, sliceUsecs, mainThread);
      PassSliceable(tl, env);
      ProcessRoots(tl.timelineEvents, env);
    }

    /** The loop over the call trees, each a root without a parent. */
    method ProcessRoots(roots: seq<Timeline.Frame>, env: Env)
      requires sliceUsecs > 0 && env.su == sliceUsecs && env.cpuMain == mainThread
      requires TablesOk(slices) && ScriptsOk(scripts) && forall f :: f in roots ==> Sliceable(f, env)
      modifies this`slices, this`scripts
      ensures slices == TablesRoots(old(slices), roots, |roots|, env)
      ensures scripts == ScriptsRoots(old(scripts), roots, |roots|, env)
    {
      ghost var tabs0 := slices;
      ghost var sc0 := scripts;
      for n := 0 to |roots|
        invariant scripts == ScriptsRoots(sc0, roots, n, env)
        invariant slices == TablesRoots(tabs0, roots, n, env)
      {
        assert roots[n] in roots;
        ProcessTimelineEvent(roots[n], None, env);
      }
    }

    /** The empty slice tables: per registered thread, in order, the total row and then one
        row per name seen on the thread, each of `count` zeros. */
    method InitSlices(threads: Dict<Thread, seq<string>>, count: nat)
      requires Dicts.Valid(threads)
      modifies this`slices
      ensures slices == InitTables(threads, count, |threads.keys|)
    {
      slices := Empty();
      for n := 0 to |threads.keys|
        invariant slices == InitTables(threads, count, n)
      {
        var th := threads.keys[n];
        var tab := EmptyTable(threads.vals[th], count);
        slices := Set(slices, th, tab);
      }
    }

    static method EmptyTable(names: seq<string>, count: nat) returns (tab: Table)
      ensures tab == TableFor(names, count)
    {
      tab := Dict([Total], map[Total := Zeros(count)]);
      for m := 0 to |names|
        invariant tab == TableFor(names[..m], count)
      {
        assert names[..m + 1][..m] == names[..m];
        tab := Set(tab, names[m], Zeros(count));
      }
      assert names[..|names|] == names;
    }

    /** The conversion at the end of ProcessTimelineEvents: per thread, the total row is
        dropped and every other cell becomes `int(fraction * slice_usecs)`. */
    method ConvertSlices()
      requires TablesOk(slices)
      modifies this`usecs
      ensures usecs == UsecsTables(slices, sliceUsecs)
    {
      var vals: map<Thread, Dict<string, seq<int>>> := map[];
      for n := 0 to |slices.keys|
        invariant forall t :: t in vals <==> t in slices.keys[..n]
        invariant forall t :: t in vals ==> t in slices.vals && vals[t] == UsecsTable(slices.vals[t], sliceUsecs)
      {
        var th := slices.keys[n];
        assert slices.keys[..n + 1] == slices.keys[..n] + [th];
        var tab := TableUsecs(slices.vals[th], sliceUsecs);
        vals := vals[th := tab];
      }
      assert slices.keys[..|slices.keys|] == slices.keys;
      assert vals == map t | t in slices.vals :: UsecsTable(slices.vals[t], sliceUsecs);
      usecs := Dict(slices.keys, vals);
    }

    static method TableUsecs(tab: Table, su: nat) returns (r: Dict<string, seq<int>>)
      requires Dicts.Valid(tab)
      ensures r == UsecsTable(tab, su)
    {
      var rest := Remove(tab, Total);
      r := RowsUsecs(rest, su);
    }

    /** The loop over the rows left once the total row is dropped. */
    static method RowsUsecs(rest: Table, su: nat) returns (r: Dict<string, seq<int>>)
      requires Dicts.Valid(rest)
      ensures r == Dict(rest.keys, map k | k in rest.vals :: UsecsRow(rest.vals[k], su))
    {
      var vals: map<string, seq<int>> := map[];
      for m := 0 to |rest.keys|
        invariant forall k :: k in vals <==> k in rest.keys[..m]
        invariant forall k :: k in vals ==> k in rest.vals && vals[k] == UsecsRow(rest.vals[k], su)
      {
        var k := rest.keys[m];
        assert rest.keys[..m + 1] == rest.keys[..m] + [k];
        var row := RowUsecs(rest.vals[k], su);
        vals := vals[k := row];
      }
      assert rest.keys[..|rest.keys|] == rest.keys;
      assert vals == map k | k in rest.vals :: UsecsRow(rest.vals[k], su);
      r := Dict(rest.keys, vals);
    }

    static method RowUsecs(row: seq<real>, su: nat) returns (r: seq<int>)
      ensures r == UsecsRow(row, su)
    {
      r := [];
      for c := 0 to |row|
        invariant |r| == c && forall j :: 0 <= j < c ==> r[j] == Usecs(row[j], su)
      {
        r := r + [Usecs(row[c], su)];
      }
    }

    /** AdjustTimelineSlice: one slice of one frame; a thread without a table, like any
        other failed lookup, changes nothing. */
    method AdjustTimelineSlice(th: Thread, j: nat, name: string, parent: Option<string>, elapsed: int)
      requires sliceUsecs > 0 && TablesOk(slices)
      modifies this`slices
      ensures slices == AdjustIn(old(slices), th, j, name, parent, elapsed, sliceUsecs)
    {
      if th in slices.vals {
        var tab := AdjustTable(slices.vals[th], j, name, parent, Fraction(elapsed, sliceUsecs));
        slices := Set(slices, th, tab);
      }
    }

    /** The body of AdjustTimelineSlice on one thread's rows, cell by cell in the order the
        source updates them; a missing row or cell ends the update where it stands. */
    static method AdjustTable(tab: Table, i: nat, name: string, parent: Option<string>, f: real)
      returns (r: Table)
      requires Dicts.Valid(tab)
      ensures r == AdjustSlice(tab, i, name, parent, f)
    {
      if parent == Some(name) || !HasCell(tab, name, i) {
        return tab;
      }
      if !HasCell(tab, Total, i) {
        r := AddTo(tab, name, i, f);
        return;
      }
      r := AddFraction(tab, i, name, f);
      if parent.Some? && !HasCell(tab, parent.value, i) {
        return;
      }
      AdjustSliceSettles(tab, i, name, parent, f);
      r := GiveBack(r, i, parent, f);
      r := Cap(r, name, i);
      r := Settled(r, i, name, f);
    }

    /** The fraction is added to the event's row, then to the total row. */
    static method AddFraction(tab: Table, i: nat, name: string, f: real) returns (r: Table)
      requires Dicts.Valid(tab) && HasCell(tab, name, i) && HasCell(tab, Total, i)
      ensures r == Added(tab, i, name, f)
    {
      r := AddTo(tab, name, i, f);
      r := AddTo(r, Total, i, f);
    }

    /** The parent, when it holds the fraction, gives it back, and so does the total row. */
    static method GiveBack(t1: Table, i: nat, parent: Option<string>, f: real) returns (r: Table)
      requires Dicts.Valid(t1) && HasCell(t1, Total, i)
      requires parent.Some? ==> HasCell(t1, parent.value, i)
      ensures r == Debit(t1, i, parent, f)
    {
      r := t1;
      if parent.Some? && t1.vals[parent.value][i] >= f {
        r := AddTo(r, parent.value, i, -f);
        r := AddTo(r, Total, i, -f);
      }
    }

    /** A total past a whole slice is brought back by the rebalancing loop. */
    static method Settled(t3: Table, i: nat, name: string, f: real) returns (r: Table)
      requires Dicts.Valid(t3) && HasCell(t3, Total, i)
      ensures r == Settle(t3, i, name, f)
    {
      r := t3;
      if t3.vals[Total][i] > 1.0 && Covers(t3, t3.keys, i) {
        ghost var rb := RebalanceAsWritten(t3, t3.keys, i, name, RMax(0.0, 1.0 - f));
        var left;
        r, left := Rebalanced(t3, i, name, RMax(0.0, 1.0 - f));
        FinishIs(rb, r, left, i);
        r := SetCell(r, Total, i, RMin(1.0, RMax(0.0, 1.0 - left)));
      }
    }

    /** The rebalancing loop, walking the rows in order, the total row first, and skipping
        only the event's own row. */
    static method Rebalanced(tab: Table, i: nat, name: string, avail0: real) returns (r: Table, avail: real)
      requires Dicts.Valid(tab) && Covers(tab, tab.keys, i)
      ensures (r, avail) == RebalanceAsWritten(tab, tab.keys, i, name, avail0)
    {
      r, avail := tab, avail0;
      ghost var goal := RebalanceAsWritten(tab, tab.keys, i, name, avail0);
      var n := 0;
      while n < |tab.keys|
        invariant 0 <= n <= |tab.keys|
        invariant Dicts.Valid(r) && Covers(r, tab.keys[n..], i)
        invariant RebalanceAsWritten(r, tab.keys[n..], i, name, avail) == goal
      {
        var k := tab.keys[n];
        assert tab.keys[n..][0] == k;
        if k != name {
          var v := RMin(r.vals[k][i], avail);
          WalkCut(r, tab.keys, n, i, name, avail, v);
          r := SetCell(r, k, i, v);
          avail := RMax(0.0, avail - v);
        } else {
          WalkSkip(r, tab.keys, n, i, name, avail);
        }
        n := n + 1;
      }
    }

    /** Whether `p` is not yet held by a recorded period: the loop over the recorded periods
        with its early exit. */
    static method NewDuration(ps: seq<Period>, p: Period) returns (isNew: bool)
      ensures isNew <==> !Covered(ps, p)
    {
      isNew := true;
      var k := 0;
      while k < |ps|
        invariant 0 <= k <= |ps|
        invariant forall m :: 0 <= m < k ==> !Within(p, ps[m])
      {
        if p.s >= ps[k].s && p.e <= ps[k].e {
          isNew := false;
          return;
        }
        k := k + 1;
      }
    }

    /** The script bookkeeping of ProcessTimelineEvent: the entries for the thread, url and
        name are created as needed and the period appended unless one already holds it. */
    method RecordScriptTime(th: Thread, url: string, name: string, p: Period)
      requires ScriptsOk(scripts)
      modifies this`scripts
      ensures scripts == Some(RecordScript(old(scripts), th, url, name, p, mainThread))
    {
      var sc := if scripts.Some? then scripts.value else Scripts(None, map[]);
      if sc.main.None? {
        sc := sc.(main := mainThread);
      }
      var byUrl := if th in sc.byThread then sc.byThread[th] else Empty();
      var byName := if url in byUrl.vals then byUrl.vals[url] else map[];
      var ps := if name in byName then byName[name] else [];
      var isNew := NewDuration(ps, p);
      if isNew {
        ps := ps + [p];
      }
      scripts := Some(Scripts(sc.main, sc.byThread[th := Set(byUrl, url, byName[name := ps])]));
    }

    /** ProcessTimelineEvent: a frame with a positive span records its script period, spreads
        itself over the slices it touches, then hands its name to its children as their
        parent. */
    method ProcessTimelineEvent(f: Timeline.Frame, parent: Option<string>, env: Env)
      requires sliceUsecs > 0 && env.su == sliceUsecs && env.cpuMain == mainThread
      requires TablesOk(slices) && ScriptsOk(scripts) && Sliceable(f, env)
      modifies this`slices, this`scripts
      ensures slices == TablesFrame(old(slices), f, parent, env)
      ensures scripts == ScriptsFrame(old(scripts), f, env)
      decreases f, 2
    {
      var start := f.s - env.start;
      var end := f.e.value - env.start;
      if end > start {
        ghost var tabs0, sc0 := slices, scripts;
        var name := env.lookup[f.n];
        RecordFrameScript(f, env);
        ScriptsFrameRecords(sc0, f, env, scripts);
        SpreadFrame(f, parent, env);
        TablesFrameSpreads(tabs0, f, parent, env, slices);
        ProcessChildren(f, name, env);
      } else {
        TablesFrameIdle(slices, f, parent, env);
        ScriptsFrameIdle(scripts, f, env);
      }
    }

    /** The script bookkeeping of a frame with a positive span: its period in milliseconds
        from the trace start, when it evaluates a script. */
    method RecordFrameScript(f: Timeline.Frame, env: Env)
      requires env.cpuMain == mainThread && ScriptsOk(scripts) && Sliceable(f, env)
      modifies this`scripts
      ensures scripts == if f.js.Some? then Some(RecordScript(old(scripts), f.t, f.js.value, NameOf(f, env), PeriodOf(f, env), env.cpuMain))
                         else old(scripts)
    {
      if f.js.Some? {
        var start := f.s - env.start;
        var end := f.e.value - env.start;
        RecordScriptTime(f.t, f.js.value, env.lookup[f.n], Period(start as real / 1000.0, end as real / 1000.0));
      }
    }

    /** The slices of a frame with a positive span, `int(start / slice_usecs)` through
        `int(end / slice_usecs)`. */
    method SpreadFrame(f: Timeline.Frame, parent: Option<string>, env: Env)
      requires sliceUsecs > 0 && env.su == sliceUsecs && TablesOk(slices) && Sliceable(f, env)
      requires EndOf(f, env) > StartOf(f, env)
      modifies this`slices
      ensures slices == FrameSpread(old(slices), f, parent, env)
    {
      var start := StartOf(f, env);
      var end := EndOf(f, env);
      var first := start / env.su;
      var last := end / env.su;
      DivMono(start, end, env.su);
      SpreadSlices(f.t, NameOf(f, env), parent, start, end, first, last);
    }

    /** The loop over a frame's children, each with the frame's name as its parent. */
    method ProcessChildren(f: Timeline.Frame, name: string, env: Env)
      requires sliceUsecs > 0 && env.su == sliceUsecs && env.cpuMain == mainThread
      requires TablesOk(slices) && ScriptsOk(scripts) && Sliceable(f, env) && name == NameOf(f, env)
      modifies this`slices, this`scripts
      ensures slices == TablesChildren(old(slices), f, |f.c|, env)
      ensures scripts == ScriptsChildren(old(scripts), f, |f.c|, env)
      decreases f, 1
    {
      ghost var tabs0 := slices;
      ghost var sc0 := scripts;
      for n := 0 to |f.c|
        invariant scripts == ScriptsChildren(sc0, f, n, env)
        invariant slices == TablesChildren(tabs0, f, n, env)
      {
        ChildStep(tabs0, sc0, f, n, name, env);
      }
    }

    /** One turn of the loop over children. */
    method ChildStep(ghost tabs0: Tables, ghost sc0: Option<Scripts>, f: Timeline.Frame, n: nat, name: string, env: Env)
      requires sliceUsecs > 0 && env.su == sliceUsecs && env.cpuMain == mainThread
      requires TablesOk(tabs0) && ScriptsOk(sc0) && Sliceable(f, env) && name == NameOf(f, env) && n < |f.c|
      requires slices == TablesChildren(tabs0, f, n, env) && scripts == ScriptsChildren(sc0, f, n, env)
      modifies this`slices, this`scripts
      ensures slices == TablesChildren(tabs0, f, n + 1, env)
      ensures scripts == ScriptsChildren(sc0, f, n + 1, env)
      decreases f, 0
    {
      assert f.c[n] in f.c;
      TablesChildStep(tabs0, f, n, env);
      ScriptsChildStep(sc0, f, n, env);
      ProcessTimelineEvent(f.c[n], Some(name), env);
    }

    /** The loop over the slices a frame touches. */
    method SpreadSlices(th: Thread, name: string, parent: Option<string>, start: nat, end: nat,
                        first: nat, last: nat)
      requires sliceUsecs > 0 && TablesOk(slices) && first <= last
      modifies this`slices
      ensures slices == Spread(old(slices), th, name, parent, start, end, sliceUsecs, first, last + 1)
    {
      ghost var tabs0 := slices;
      SpreadFirst(tabs0, th, name, parent, start, end, sliceUsecs, first);
      for j := first to last + 1
        invariant slices == Spread(tabs0, th, name, parent, start, end, sliceUsecs, first, j)
      {
        SliceStep(tabs0, th, name, parent, start, end, first, j);
      }
    }

    /** One turn of the loop over slices: the part of the frame in slice `j` goes to it. */
    method SliceStep(ghost tabs0: Tables, th: Thread, name: string, parent: Option<string>,
                     start: int, end: int, first: nat, j: nat)
      requires sliceUsecs > 0 && TablesOk(tabs0) && first <= j
      requires slices == Spread(tabs0, th, name, parent, start, end, sliceUsecs, first, j)
      modifies this`slices
      ensures slices == Spread(tabs0, th, name, parent, start, end, sliceUsecs, first, j + 1)
    {
      var sliceStart := j * sliceUsecs;
      var sliceEnd := sliceStart + sliceUsecs;
      var elapsed := Min(sliceEnd, end) - Max(sliceStart, start);
      ElapsedIs(j, sliceUsecs, start, end, elapsed);
      SpreadStep(tabs0, th, name, parent, start, end, sliceUsecs, first, j);
      AdjustTimelineSlice(th, j, name, parent, elapsed);
    }
  }

  lemma {:induction false} DivMono(a: nat, b: nat, su: nat)
    requires su > 0 && a <= b
    ensures a / su <= b / su
  {
    DivBounds(a, su);
    DivBounds(b, su);
    if a / su > b / su {
      MulMono(b / su + 1, a / su, su);
    }
  }

  /** The call trees of a consistent timeline state are what the pass needs. */
  lemma {:induction false} PassSliceable(tl: Timeline.TState, env: Env)
    requires Timeline.Consistent(tl) && tl.startTime.Some?
    requires env.lookup == tl.nameLookup && env.start == tl.startTime.value
    ensures forall f :: f in tl.timelineEvents ==> Sliceable(f, env)
  {
    forall f | f in tl.timelineEvents
      ensures Sliceable(f, env)
    {
      FrameFromTimeline(f, tl.threads, tl.nameLookup, tl.startTime.value, tl.endTime, env);
    }
  }

  /** The part of `[start, end)` in slice `j`, computed from the slice's bounds. */
  lemma {:induction false} ElapsedIs(j: nat, su: nat, start: int, end: int, elapsed: int)
    requires elapsed == Min(j * su + su, end) - Max(j * su, start)
    ensures elapsed == SliceElapsed(j, su, start, end)
  {
    assert (j + 1) * su == j * su + su;
  }

  /** Setting the total row from what the rebalancing left is `Finish`. */
  lemma {:induction false} FinishIs(rb: (Table, real), r: Table, left: real, i: nat)
    requires r == rb.0 && left == rb.1 && Dicts.Valid(r) && HasCell(r, Total, i)
    ensures SetCell(r, Total, i, RMin(1.0, RMax(0.0, 1.0 - left))) == Finish(rb, i)
  {
  }

  /** One turn of the rebalancing loop on a row it cuts: the row at `n` is cut to what is
      available, and the walk goes on from `n + 1` with what is left. */
  lemma {:induction false} WalkCut(r: Table, keys: seq<string>, n: nat, i: nat, name: string, avail: real, v: real)
    requires Dicts.Valid(r) && n < |keys| && Covers(r, keys[n..], i)
    requires keys[n] != name
    requires HasCell(r, keys[n], i) && v == RMin(r.vals[keys[n]][i], avail)
    ensures Covers(SetCell(r, keys[n], i, v), keys[n + 1..], i)
    ensures RebalanceAsWritten(r, keys[n..], i, name, avail)
            == RebalanceAsWritten(SetCell(r, keys[n], i, v), keys[n + 1..], i, name, RMax(0.0, avail - v))
  {
    var ks := keys[n..];
    assert ks[1..] == keys[n + 1..];
    CoversAfterSet(r, ks, keys[n], i, v);
    CutRest(r, ks, keys[n + 1..], i, name, avail, v);
  }

  lemma {:induction false} CutRest(r: Table, ks: seq<string>, rest: seq<string>, i: nat, name: string, avail: real, v: real)
    requires Dicts.Valid(r) && Covers(r, ks, i) && ks != [] && ks[0] != name
    requires rest == ks[1..] && v == RMin(r.vals[ks[0]][i], avail)
    ensures RebalanceAsWritten(r, ks, i, name, avail) == RebalanceAsWritten(SetCell(r, ks[0], i, v), rest, i, name, RMax(0.0, avail - v))
  {
  }

  /** One turn of the rebalancing loop on the event's own row: the walk goes on from
      `n + 1` with the same amount available. */
  lemma {:induction false} WalkSkip(r: Table, keys: seq<string>, n: nat, i: nat, name: string, avail: real)
    requires Dicts.Valid(r) && n < |keys| && Covers(r, keys[n..], i)
    requires keys[n] == name
    ensures Covers(r, keys[n + 1..], i)
    ensures RebalanceAsWritten(r, keys[n..], i, name, avail) == RebalanceAsWritten(r, keys[n + 1..], i, name, avail)
  {
    var ks := keys[n..];
    var rest := keys[n + 1..];
    assert ks[1..] == rest;
    forall j | 0 <= j < |rest|
      ensures HasCell(r, rest[j], i)
    {
      assert rest[j] == ks[j + 1];
    }
  }

  /** Setting one cell of a row keeps every listed row's cell at slice `i`. */
  lemma {:induction false} CoversAfterSet(tab: Table, keys: seq<string>, k: string, i: nat, v: real)
    requires Dicts.Valid(tab) && Covers(tab, keys, i) && keys != [] && keys[0] == k
    ensures Covers(SetCell(tab, k, i, v), keys[1..], i)
  {
    var r := SetCell(tab, k, i, v);
    forall j | 0 <= j < |keys[1..]|
      ensures HasCell(r, keys[1..][j], i)
    {
      assert keys[1..][j] == keys[j + 1];
    }
  }
}
