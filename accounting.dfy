/** What ProcessTimelineEvents does to the CPU profile, as functions of the call trees:
    the per-thread slice tables it starts from, the slices each frame is spread over, the
    script-evaluation periods it records, and the conversion of fractions to microseconds. */
module Accounting {
  import opened Wrappers
  import opened Dicts
  import opened Events
  import opened Slices
  import Timeline

  /** `cpu['slices']`: one table per thread, in the order the threads were registered. */
  type Tables = Dict<Thread, Table>

  ghost predicate TablesOk(tabs: Tables) {
    Dicts.Valid(tabs) && forall t :: t in tabs.vals ==> Dicts.Valid(tabs.vals[t])
  }

  /** Every table has the total row and one cell per slice in every row. */
  ghost predicate ShapedAll(tabs: Tables, count: nat) {
    Dicts.Valid(tabs) && forall t :: t in tabs.vals ==> Shaped(tabs.vals[t], count)
  }

  /** Every cell of every table is a fraction of a slice. */
  ghost predicate AllUnit(tabs: Tables) {
    forall t :: t in tabs.vals ==> InUnit(tabs.vals[t])
  }

  /** In every table, at every slice, the name rows together fill no more than the total. */
  ghost predicate AllReconciled(tabs: Tables, count: nat) {
    forall t :: t in tabs.vals ==> Reconciled(tabs.vals[t], count)
  }

  /** The same threads, the same rows in the same order, the same row lengths. */
  ghost predicate SameRows(x: Table, y: Table) {
    && y.keys == x.keys && y.vals.Keys == x.vals.Keys
    && forall k :: k in x.vals ==> |y.vals[k]| == |x.vals[k]|
  }

  ghost predicate SameShape(a: Tables, b: Tables) {
    && b.keys == a.keys && b.vals.Keys == a.vals.Keys
    && forall t :: t in a.vals ==> SameRows(a.vals[t], b.vals[t])
  }

  lemma ShapedSame(a: Tables, b: Tables, count: nat)
    requires ShapedAll(a, count) && SameShape(a, b)
    ensures ShapedAll(b, count)
  {
  }

  // ---------------------------------------------------------------------------------------
  // The empty tables (ProcessTimelineEvents, the loops over threads and names)

  function Zeros(count: nat): (r: seq<real>)
    ensures |r| == count && forall j :: 0 <= j < count ==> r[j] == 0.0
  {
    seq(count, _ => 0.0)
  }

  /** A thread's table: the total row first, then one row per name of the thread, in order;
      a name equal to the total row's key reuses that row. */
  function TableFor(names: seq<string>, count: nat): (r: Table)
    ensures Shaped(r, count) && InUnit(r)
    ensures forall k :: k in r.vals <==> k == Total || k in names
    ensures forall k :: k in r.vals ==> r.vals[k] == Zeros(count)
  {
    if names == [] then Dict([Total], map[Total := Zeros(count)])
    else Set(TableFor(names[..|names| - 1], count), names[|names| - 1], Zeros(count))
  }

  /** The empty tables for the registered threads `threads.keys[..k]`. */
  function InitTables(threads: Dict<Thread, seq<string>>, count: nat, k: nat): (r: Tables)
    requires Dicts.Valid(threads) && k <= |threads.keys|
    ensures ShapedAll(r, count) && AllUnit(r) && TablesOk(r)
    ensures r.keys == threads.keys[..k]
    ensures forall t :: t in r.vals ==> r.vals[t] == TableFor(threads.vals[t], count)
  {
    if k == 0 then Empty()
    else
      var prev := InitTables(threads, count, k - 1);
      assert threads.keys[..k] == threads.keys[..k - 1] + [threads.keys[k - 1]];
      assert threads.keys[k - 1] !in threads.keys[..k - 1];
      Set(prev, threads.keys[k - 1], TableFor(threads.vals[threads.keys[k - 1]], count))
  }

  /** Empty tables: every name row and the total are zero at every slice. */
  lemma InitReconciled(threads: Dict<Thread, seq<string>>, count: nat)
    requires Dicts.Valid(threads)
    ensures AllReconciled(InitTables(threads, count, |threads.keys|), count)
  {
    var init := InitTables(threads, count, |threads.keys|);
    forall t | t in init.vals
      ensures Reconciled(init.vals[t], count)
    {
      var tab := init.vals[t];
      forall j | 0 <= j < count
        ensures HasCell(tab, Total, j) && Covers(tab, tab.keys, j) && NamesAt(tab.keys, tab, j) <= tab.vals[Total][j]
      {
        ShapedCovers(tab, count, j);
        NamesZero(tab.keys, tab, j);
      }
    }
  }

  /** Rows that are zero at slice `j` sum to zero. */
  lemma {:induction false} NamesZero(keys: seq<string>, tab: Table, j: nat)
    requires Covers(tab, keys, j) && forall k :: k in tab.vals && j < |tab.vals[k]| ==> tab.vals[k][j] == 0.0
    ensures NamesAt(keys, tab, j) == 0.0
    decreases |keys|
  {
    if keys != [] {
      assert HasCell(tab, keys[0], j);
      assert Covers(tab, keys[1..], j) by {
        forall n | 0 <= n < |keys[1..]| ensures HasCell(tab, keys[1..][n], j) {
          assert keys[1..][n] == keys[n + 1];
        }
      }
      NamesZero(keys[1..], tab, j);
    }
  }

  // ---------------------------------------------------------------------------------------
  // One slice of one frame (AdjustTimelineSlice) and all slices of one frame

  /** AdjustTimelineSlice on the tables: a thread without a table is left alone. */
  function AdjustIn(tabs: Tables, th: Thread, j: nat, name: string, parent: Option<string>,
                    elapsed: int, su: nat): (r: Tables)
    requires su > 0 && TablesOk(tabs)
    ensures TablesOk(r) && SameShape(tabs, r)
    ensures forall t :: t in r.vals && t != th ==> r.vals[t] == tabs.vals[t]
  {
    if th in tabs.vals then Set(tabs, th, AdjustSlice(tabs.vals[th], j, name, parent, Fraction(elapsed, su)))
    else tabs
  }

  /** The loop over `first .. k - 1` of ProcessTimelineEvent on one thread's table: each
      slice gets the part of `[start, end)` that falls in it. */
  function SpreadTab(tab: Table, name: string, parent: Option<string>,
                     start: int, end: int, su: nat, first: nat, k: nat): (r: Table)
    requires su > 0 && Dicts.Valid(tab)
    ensures Dicts.Valid(r) && SameRows(tab, r)
    decreases k
  {
    if k <= first then tab
    else AdjustSlice(SpreadTab(tab, name, parent, start, end, su, first, k - 1),
                     k - 1, name, parent, Fraction(SliceElapsed(k - 1, su, start, end), su))
  }

  /** The same loop on the tables: a thread without a table is left alone. */
  function Spread(tabs: Tables, th: Thread, name: string, parent: Option<string>,
                  start: int, end: int, su: nat, first: nat, k: nat): (r: Tables)
    requires su > 0 && TablesOk(tabs)
    ensures TablesOk(r) && SameShape(tabs, r)
    ensures forall t :: t in r.vals && t != th ==> r.vals[t] == tabs.vals[t]
  {
    if th in tabs.vals then Set(tabs, th, SpreadTab(tabs.vals[th], name, parent, start, end, su, first, k))
    else tabs
  }

  /** Before the loop over slices, the tables are as they were. */
  lemma SpreadFirst(tabs: Tables, th: Thread, name: string, parent: Option<string>,
                    start: int, end: int, su: nat, first: nat)
    requires su > 0 && TablesOk(tabs)
    ensures Spread(tabs, th, name, parent, start, end, su, first, first) == tabs
  {
    if th in tabs.vals {
      SetSame(tabs, th);
    }
  }

  /** One more turn of the loop over slices is one more AdjustTimelineSlice, with the part
      of the frame that falls in that slice. */
  lemma SpreadStep(tabs: Tables, th: Thread, name: string, parent: Option<string>,
                   start: int, end: int, su: nat, first: nat, k: nat)
    requires su > 0 && TablesOk(tabs) && first <= k
    ensures AdjustIn(Spread(tabs, th, name, parent, start, end, su, first, k), th, k, name, parent,
                     SliceElapsed(k, su, start, end), su)
            == Spread(tabs, th, name, parent, start, end, su, first, k + 1)
  {
    if th in tabs.vals {
      var x := SpreadTab(tabs.vals[th], name, parent, start, end, su, first, k);
      SetSet(tabs, th, x, AdjustSlice(x, k, name, parent, Fraction(SliceElapsed(k, su, start, end), su)));
    }
  }

  // ---------------------------------------------------------------------------------------
  // Script-evaluation periods (ProcessTimelineEvent, `self.scripts`)

  /** A script-evaluation period in milliseconds from the trace start. */
  datatype Period = Period(s: real, e: real)

  /** `self.scripts`: the main thread, and per thread, per script url (in first-seen order),
      per event name, the recorded periods. */
  datatype Scripts = Scripts(main: Option<Thread>, byThread: map<Thread, Dict<string, map<string, seq<Period>>>>)

  ghost predicate ScriptsOk(sc: Option<Scripts>) {
    sc.Some? ==> forall t :: t in sc.value.byThread ==> Dicts.Valid(sc.value.byThread[t])
  }

  /** `p` lies within `q`. */
  predicate Within(p: Period, q: Period) {
    q.s <= p.s && p.e <= q.e
  }

  /** Some recorded period already holds `p`. */
  ghost predicate Covered(ps: seq<Period>, p: Period) {
    exists k :: 0 <= k < |ps| && Within(p, ps[k])
  }

  /** The periods recorded for a thread, url and name, none when there are none. */
  function Periods(sc: Option<Scripts>, th: Thread, url: string, name: string): seq<Period> {
    if sc.Some? && th in sc.value.byThread && url in sc.value.byThread[th].vals
       && name in sc.value.byThread[th].vals[url]
    then sc.value.byThread[th].vals[url][name]
    else []
  }

  /** The main thread once the script table exists: kept if already set, else the CPU
      profile's main thread. */
  function MainOf(sc: Option<Scripts>, cpuMain: Option<Thread>): Option<Thread> {
    if sc.Some? && sc.value.main.Some? then sc.value.main else cpuMain
  }

  /** Recording one period: the entries for the thread, url and name are created as needed
      and `p` is appended unless a recorded period already holds it. */
  ghost function RecordScript(sc: Option<Scripts>, th: Thread, url: string, name: string, p: Period,
                              cpuMain: Option<Thread>): (r: Scripts)
    requires ScriptsOk(sc)
    ensures ScriptsOk(Some(r))
  {
    var byThread := if sc.Some? then sc.value.byThread else map[];
    var byUrl := if th in byThread then byThread[th] else Empty();
    var byName := if url in byUrl.vals then byUrl.vals[url] else map[];
    var ps := Periods(sc, th, url, name);
    Scripts(MainOf(sc, cpuMain),
            byThread[th := Set(byUrl, url, byName[name := if Covered(ps, p) then ps else ps + [p]])])
  }

  /** The period is appended exactly when no recorded period holds it; after the call, some
      period holds it; every other list is as it was. */
  lemma RecordScriptSpec(sc: Option<Scripts>, th: Thread, url: string, name: string, p: Period,
                         cpuMain: Option<Thread>)
    requires ScriptsOk(sc)
    ensures var r := Some(RecordScript(sc, th, url, name, p, cpuMain));
      && (Periods(r, th, url, name) == Periods(sc, th, url, name) <==> Covered(Periods(sc, th, url, name), p))
      && (!Covered(Periods(sc, th, url, name), p) ==>
            Periods(r, th, url, name) == Periods(sc, th, url, name) + [p])
      && Covered(Periods(r, th, url, name), p)
      && r.value.main == MainOf(sc, cpuMain)
      && forall t, u, n :: (t, u, n) != (th, url, name) ==> Periods(r, t, u, n) == Periods(sc, t, u, n)
  {
    var ps := Periods(sc, th, url, name);
    var r := Some(RecordScript(sc, th, url, name, p, cpuMain));
    RecordOwn(sc, th, url, name, p, cpuMain);
    RecordOthers(sc, th, url, name, p, cpuMain);
    if !Covered(ps, p) {
      assert Within(p, (ps + [p])[|ps|]);
      assert |Periods(r, th, url, name)| == |ps| + 1;
    }
  }

  /** The recorded list for the thread, url and name, after recording. */
  lemma RecordOwn(sc: Option<Scripts>, th: Thread, url: string, name: string, p: Period,
                  cpuMain: Option<Thread>)
    requires ScriptsOk(sc)
    ensures var ps := Periods(sc, th, url, name);
      Periods(Some(RecordScript(sc, th, url, name, p, cpuMain)), th, url, name)
      == if Covered(ps, p) then ps else ps + [p]
  {
  }

  /** Recording touches no other list. */
  lemma RecordOthers(sc: Option<Scripts>, th: Thread, url: string, name: string, p: Period,
                     cpuMain: Option<Thread>)
    requires ScriptsOk(sc)
    ensures var r := Some(RecordScript(sc, th, url, name, p, cpuMain));
      forall t, u, n :: (t, u, n) != (th, url, name) ==> Periods(r, t, u, n) == Periods(sc, t, u, n)
  {
    var r := RecordScript(sc, th, url, name, p, cpuMain);
    var byThread := if sc.Some? then sc.value.byThread else map[];
    var byUrl := if th in byThread then byThread[th] else Empty();
    forall t, u, n | (t, u, n) != (th, url, name)
      ensures Periods(Some(r), t, u, n) == Periods(sc, t, u, n)
    {
      if t != th {
        assert t in r.byThread <==> t in byThread;
      } else if u != url {
        assert u in r.byThread[th].vals <==> u in byUrl.vals;
      }
    }
  }

  /** No recorded period lies within one recorded before it. */
  ghost predicate Fresh(ps: seq<Period>) {
    forall i :: 0 <= i < |ps| ==> !Covered(ps[..i], ps[i])
  }

  ghost predicate AllFresh(sc: Option<Scripts>) {
    forall t, u, n :: Fresh(Periods(sc, t, u, n))
  }

  /** Recording keeps every list free of periods held by earlier ones. */
  lemma RecordKeepsFresh(sc: Option<Scripts>, th: Thread, url: string, name: string, p: Period,
                         cpuMain: Option<Thread>)
    requires ScriptsOk(sc) && AllFresh(sc)
    ensures AllFresh(Some(RecordScript(sc, th, url, name, p, cpuMain)))
  {
    var r := Some(RecordScript(sc, th, url, name, p, cpuMain));
    RecordScriptSpec(sc, th, url, name, p, cpuMain);
    forall t, u, n
      ensures Fresh(Periods(r, t, u, n))
    {
      if (t, u, n) == (th, url, name) {
        var ps := Periods(sc, th, url, name);
        assert Fresh(ps);
        if !Covered(ps, p) {
          var qs := ps + [p];
          forall i | 0 <= i < |qs|
            ensures !Covered(qs[..i], qs[i])
          {
            if i < |ps| {
              assert qs[..i] == ps[..i];
            } else {
              assert qs[..i] == ps;
            }
          }
        }
      }
    }
  }

  // ---------------------------------------------------------------------------------------
  // The call trees (ProcessTimelineEvent)

  /** What the pass reads besides the CPU profile: the event-name lookup, the trace start,
      the slice width and the CPU profile's main thread. */
  datatype Env = Env(lookup: seq<string>, start: int, su: nat, cpuMain: Option<Thread>)

  /** A closed frame whose name is known and which starts no earlier than the trace, and so
      do all frames below it. */
  ghost predicate Sliceable(f: Timeline.Frame, env: Env)
    decreases f
  {
    && f.e.Some? && f.n < |env.lookup| && env.start <= f.s <= f.e.value
    && forall c :: c in f.c ==> Sliceable(c, env)
  }

  function StartOf(f: Timeline.Frame, env: Env): int {
    f.s - env.start
  }

  function EndOf(f: Timeline.Frame, env: Env): int
    requires f.e.Some?
  {
    f.e.value - env.start
  }

  function NameOf(f: Timeline.Frame, env: Env): string
    requires f.n < |env.lookup|
  {
    env.lookup[f.n]
  }

  /** The script period of a frame, in milliseconds from the trace start. */
  function PeriodOf(f: Timeline.Frame, env: Env): Period
    requires f.e.Some?
  {
    Period(StartOf(f, env) as real / 1000.0, EndOf(f, env) as real / 1000.0)
  }

  /** A frame's own slices, `int(start / slice_usecs)` through `int(end / slice_usecs)`, on
      its thread's table. */
  function FrameSpread(tabs: Tables, f: Timeline.Frame, parent: Option<string>, env: Env): (r: Tables)
    requires env.su > 0 && TablesOk(tabs) && Sliceable(f, env)
    ensures TablesOk(r) && SameShape(tabs, r)
  {
    Spread(tabs, f.t, NameOf(f, env), parent, StartOf(f, env), EndOf(f, env), env.su,
           StartOf(f, env) / env.su, EndOf(f, env) / env.su + 1)
  }

  /** ProcessTimelineEvent on the slice tables: a frame with a positive span spreads itself
      over its slices, then its children do, each with this frame's name as parent; any other
      frame, and everything below it, changes nothing. */
  function TablesFrame(tabs: Tables, f: Timeline.Frame, parent: Option<string>, env: Env): (r: Tables)
    requires env.su > 0 && TablesOk(tabs) && Sliceable(f, env)
    ensures TablesOk(r) && SameShape(tabs, r)
    decreases f, |f.c| + 1
  {
    if EndOf(f, env) > StartOf(f, env) then
      TablesChildren(FrameSpread(tabs, f, parent, env), f, |f.c|, env)
    else tabs
  }

  /** The first `k` children of `f`, in order. */
  function TablesChildren(tabs: Tables, f: Timeline.Frame, k: nat, env: Env): (r: Tables)
    requires env.su > 0 && TablesOk(tabs) && Sliceable(f, env) && k <= |f.c|
    ensures TablesOk(r) && SameShape(tabs, r)
    decreases f, k
  {
    if k == 0 then tabs
    else
      assert f.c[k - 1] in f.c;
      TablesFrame(TablesChildren(tabs, f, k - 1, env), f.c[k - 1], Some(NameOf(f, env)), env)
  }

  /** The loop over `timeline_events[..k]`, each a root without a parent. */
  function TablesRoots(tabs: Tables, roots: seq<Timeline.Frame>, k: nat, env: Env): (r: Tables)
    requires env.su > 0 && TablesOk(tabs)
    requires k <= |roots| && forall f :: f in roots ==> Sliceable(f, env)
    ensures TablesOk(r) && SameShape(tabs, r)
  {
    if k == 0 then tabs
    else TablesFrame(TablesRoots(tabs, roots, k - 1, env), roots[k - 1], None, env)
  }

  /** ProcessTimelineEvent on the script periods: a frame with a positive span that
      evaluates a script records its period, then its children do; the slice tables play no
      part in it. */
  ghost function ScriptsFrame(sc: Option<Scripts>, f: Timeline.Frame, env: Env): (r: Option<Scripts>)
    requires ScriptsOk(sc) && Sliceable(f, env)
    ensures ScriptsOk(r)
    decreases f, |f.c| + 1
  {
    if EndOf(f, env) > StartOf(f, env) then
      ScriptsChildren(if f.js.Some? then Some(RecordScript(sc, f.t, f.js.value, NameOf(f, env), PeriodOf(f, env), env.cpuMain))
                      else sc,
                      f, |f.c|, env)
    else sc
  }

  ghost function ScriptsChildren(sc: Option<Scripts>, f: Timeline.Frame, k: nat, env: Env): (r: Option<Scripts>)
    requires ScriptsOk(sc) && Sliceable(f, env) && k <= |f.c|
    ensures ScriptsOk(r)
    decreases f, k
  {
    if k == 0 then sc
    else
      assert f.c[k - 1] in f.c;
      ScriptsFrame(ScriptsChildren(sc, f, k - 1, env), f.c[k - 1], env)
  }

  ghost function ScriptsRoots(sc: Option<Scripts>, roots: seq<Timeline.Frame>, k: nat, env: Env): (r: Option<Scripts>)
    requires ScriptsOk(sc) && k <= |roots| && forall f :: f in roots ==> Sliceable(f, env)
    ensures ScriptsOk(r)
  {
    if k == 0 then sc
    else ScriptsFrame(ScriptsRoots(sc, roots, k - 1, env), roots[k - 1], env)
  }

  // ---------------------------------------------------------------------------------------
  // The whole pass (ProcessTimelineEvents)

  /** The pass does anything only when there are call trees and the trace spans some time. */
  predicate Runs(tl: Timeline.TState) {
    |tl.timelineEvents| > 0 && tl.startTime.Some? && tl.endTime.Some? && tl.endTime.value > tl.startTime.value
  }

  /** The microseconds the trace spans, once the pass runs. */
  function Span(tl: Timeline.TState): nat
    requires Runs(tl)
  {
    tl.endTime.value - tl.startTime.value
  }

  function EnvOf(tl: Timeline.TState, su: nat, cpuMain: Option<Thread>): Env
    requires Runs(tl)
  {
    Env(tl.nameLookup, tl.startTime.value, su, cpuMain)
  }

  /** Python's `int` on a float: the integer part, truncated toward zero. */
  function Trunc(x: real): (r: int)
    ensures 0.0 <= x ==> 0 <= r && r as real <= x < r as real + 1.0
    ensures x < 0.0 ==> r <= 0 && r as real - 1.0 < x <= r as real
  {
    if x >= 0.0 then x.Floor else -((-x).Floor)
  }

  /** `int(v * slice_usecs)`: the microseconds a fraction of a slice stands for. */
  function Usecs(v: real, su: nat): int {
    Trunc(v * su as real)
  }

  function UsecsRow(row: seq<real>, su: nat): (r: seq<int>)
    ensures |r| == |row|
  {
    seq(|row|, j requires 0 <= j < |row| => Usecs(row[j], su))
  }

  /** A table after the conversion: the total row is gone and every other row holds
      microseconds. */
  function UsecsTable(tab: Table, su: nat): Dict<string, seq<int>>
    requires Dicts.Valid(tab)
  {
    var rest := Remove(tab, Total);
    Dict(rest.keys, map k | k in rest.vals :: UsecsRow(rest.vals[k], su))
  }

  /** `cpu['slices']` once ProcessTimelineEvents is done. */
  function UsecsTables(tabs: Tables, su: nat): Dict<Thread, Dict<string, seq<int>>>
    requires TablesOk(tabs)
  {
    Dict(tabs.keys, map t | t in tabs.vals :: UsecsTable(tabs.vals[t], su))
  }

  /** A fraction of a slice stands for between none and all of the slice's microseconds. */
  lemma UsecsInSlice(v: real, su: nat)
    requires 0.0 <= v <= 1.0
    ensures 0 <= Usecs(v, su) <= su
  {
    RealScale(v, su as real);
    TruncWithin(v * su as real, su);
  }

  /** Truncating a real between zero and `s` gives an integer between zero and `s`. */
  lemma TruncWithin(x: real, s: nat)
    requires 0.0 <= x <= s as real
    ensures 0 <= Trunc(x) <= s
  {
  }

  lemma RealScale(v: real, s: real)
    requires 0.0 <= v <= 1.0 && 0.0 <= s
    ensures 0.0 <= v * s <= s
  {
  }

  /** The conversion keeps the threads in order, drops the total row, keeps every other row
      in order and at its length, and, when every cell was a fraction of a slice, leaves
      every cell between zero and the slice width. */
  lemma UsecsShape(tabs: Tables, su: nat)
    requires TablesOk(tabs)
    ensures var r := UsecsTables(tabs, su);
      && r.keys == tabs.keys && r.vals.Keys == tabs.vals.Keys
      && forall t :: t in r.vals ==>
           && r.vals[t].keys == Without(tabs.vals[t].keys, Total)
           && (forall k :: k in r.vals[t].vals <==> k in tabs.vals[t].vals && k != Total)
           && (forall k :: k in r.vals[t].vals ==> |r.vals[t].vals[k]| == |tabs.vals[t].vals[k]|)
  {
  }

  /** Every converted cell lies between zero and the slice width. */
  ghost predicate WithinSlice(u: Dict<Thread, Dict<string, seq<int>>>, su: nat) {
    forall t, k, j :: t in u.vals && k in u.vals[t].vals && 0 <= j < |u.vals[t].vals[k]| ==>
      0 <= u.vals[t].vals[k][j] <= su
  }

  lemma UsecsBounds(tabs: Tables, su: nat)
    requires TablesOk(tabs) && AllUnit(tabs)
    ensures WithinSlice(UsecsTables(tabs, su), su)
  {
    var r := UsecsTables(tabs, su);
    forall t, k, j | t in r.vals && k in r.vals[t].vals && 0 <= j < |r.vals[t].vals[k]|
      ensures 0 <= r.vals[t].vals[k][j] <= su
    {
      var row := tabs.vals[t].vals[k];
      assert r.vals[t].vals[k] == UsecsRow(row, su);
      UsecsInSlice(row[j], su);
    }
  }

  // ---------------------------------------------------------------------------------------
  // One frame at a time

  /** A frame with a positive span spreads itself over its slices, then hands on to its
      children. */
  lemma {:induction false} TablesFrameSpreads(tabs: Tables, f: Timeline.Frame, parent: Option<string>, env: Env, mid: Tables)
    requires env.su > 0 && TablesOk(tabs) && Sliceable(f, env) && EndOf(f, env) > StartOf(f, env)
    requires mid == FrameSpread(tabs, f, parent, env)
    ensures TablesFrame(tabs, f, parent, env) == TablesChildren(mid, f, |f.c|, env)
  {
  }

  /** The next child spreads itself with the frame's name as its parent. */
  lemma {:induction false} TablesChildStep(tabs: Tables, f: Timeline.Frame, n: nat, env: Env)
    requires env.su > 0 && TablesOk(tabs) && Sliceable(f, env) && n < |f.c|
    ensures TablesChildren(tabs, f, n + 1, env)
            == TablesFrame(TablesChildren(tabs, f, n, env), f.c[n], Some(NameOf(f, env)), env)
  {
  }

  lemma {:induction false} ScriptsChildStep(sc: Option<Scripts>, f: Timeline.Frame, n: nat, env: Env)
    requires ScriptsOk(sc) && Sliceable(f, env) && n < |f.c|
    ensures ScriptsChildren(sc, f, n + 1, env) == ScriptsFrame(ScriptsChildren(sc, f, n, env), f.c[n], env)
  {
  }

  /** The next root spreads itself without a parent. */
  lemma {:induction false} TablesRootStep(tabs: Tables, roots: seq<Timeline.Frame>, n: nat, env: Env)
    requires env.su > 0 && TablesOk(tabs) && n < |roots| && forall f :: f in roots ==> Sliceable(f, env)
    ensures TablesRoots(tabs, roots, n + 1, env) == TablesFrame(TablesRoots(tabs, roots, n, env), roots[n], None, env)
  {
  }

  /** A frame with no span changes no slice, and nor do the frames below it. */
  lemma {:induction false} TablesFrameIdle(tabs: Tables, f: Timeline.Frame, parent: Option<string>, env: Env)
    requires env.su > 0 && TablesOk(tabs) && Sliceable(f, env) && EndOf(f, env) <= StartOf(f, env)
    ensures TablesFrame(tabs, f, parent, env) == tabs
  {
  }

  /** A frame with a positive span records its script period, if it evaluates a script,
      then hands on to its children. */
  lemma {:induction false} ScriptsFrameRecords(sc: Option<Scripts>, f: Timeline.Frame, env: Env, mid: Option<Scripts>)
    requires ScriptsOk(sc) && Sliceable(f, env) && EndOf(f, env) > StartOf(f, env)
    requires mid == if f.js.Some? then Some(RecordScript(sc, f.t, f.js.value, NameOf(f, env), PeriodOf(f, env), env.cpuMain))
                    else sc
    ensures ScriptsFrame(sc, f, env) == ScriptsChildren(mid, f, |f.c|, env)
  {
  }

  lemma {:induction false} ScriptsFrameIdle(sc: Option<Scripts>, f: Timeline.Frame, env: Env)
    requires ScriptsOk(sc) && Sliceable(f, env) && EndOf(f, env) <= StartOf(f, env)
    ensures ScriptsFrame(sc, f, env) == sc
  {
  }

  // ---------------------------------------------------------------------------------------
  // What the pass keeps

  /** One slice update keeps every cell a fraction of a slice, given no event is named like
      the total row and the parent has a row. */
  lemma AdjustInKeeps(tabs: Tables, count: nat, th: Thread, j: nat, name: string, parent: Option<string>,
                      elapsed: int, su: nat)
    requires su > 0 && TablesOk(tabs) && ShapedAll(tabs, count) && AllUnit(tabs) && 0 <= elapsed
    requires name != Total && parent != Some(Total)
    requires parent.Some? && th in tabs.vals ==> parent.value in tabs.vals[th].vals
    ensures AllUnit(AdjustIn(tabs, th, j, name, parent, elapsed, su))
  {
    if th in tabs.vals {
      AdjustInUnit(tabs.vals[th], count, j, name, parent, Fraction(elapsed, su));
    }
  }

  /** Every frame's name, and every name below it, is one of its thread's names in
      `threads`, and none is the total row's key; children run on their parent's thread. */
  ghost predicate RowsKnown(f: Timeline.Frame, env: Env, threads: Dict<Thread, seq<string>>)
    decreases f
  {
    && f.n < |env.lookup| && f.t in threads.vals && env.lookup[f.n] in threads.vals[f.t]
    && env.lookup[f.n] != Total
    && forall c :: c in f.c ==> c.t == f.t && RowsKnown(c, env, threads)
  }

  /** The table of every registered thread has a row for each of the thread's names. */
  ghost predicate Rowed(tabs: Tables, threads: Dict<Thread, seq<string>>) {
    forall t, nm :: t in tabs.vals && t in threads.vals && nm in threads.vals[t] ==> nm in tabs.vals[t].vals
  }

  /** Well-formed tables with one cell per slice, each a fraction of a slice, and the name
      rows within the total at every slice. */
  ghost predicate Ready(tabs: Tables, count: nat) {
    TablesOk(tabs) && ShapedAll(tabs, count) && AllUnit(tabs) && AllReconciled(tabs, count)
  }

  lemma RowedSame(a: Tables, b: Tables, threads: Dict<Thread, seq<string>>)
    requires Rowed(a, threads) && SameShape(a, b)
    ensures Rowed(b, threads)
  {
    forall t, nm | t in b.vals && t in threads.vals && nm in threads.vals[t]
      ensures nm in b.vals[t].vals
    {
      assert SameRows(a.vals[t], b.vals[t]);
    }
  }

  /** The slices of one frame keep every cell of the thread's table a fraction of a slice. */
  lemma {:induction false} SpreadTabUnit(tab: Table, count: nat, name: string, parent: Option<string>,
                                         start: nat, end: nat, su: nat, first: nat, k: nat)
    requires su > 0 && Shaped(tab, count) && InUnit(tab)
    requires name != Total && parent != Some(Total)
    requires parent.Some? ==> parent.value in tab.vals
    requires start < end && first == start / su && k <= end / su + 1
    ensures InUnit(SpreadTab(tab, name, parent, start, end, su, first, k))
    ensures Reconciled(tab, count) ==> Reconciled(SpreadTab(tab, name, parent, start, end, su, first, k), count)
    decreases k
  {
    if k > first {
      var n := k - 1;
      SpreadTabUnit(tab, count, name, parent, start, end, su, first, n);
      var prev := SpreadTab(tab, name, parent, start, end, su, first, n);
      assert SameRows(tab, prev);
      ElapsedBounds(n, su, start, end);
      var f := Fraction(SliceElapsed(n, su, start, end), su);
      AdjustInUnit(prev, count, n, name, parent, f);
      if Reconciled(tab, count) {
        AdjustReconciled(prev, count, n, name, parent, f);
      }
      SpreadTabStep(tab, name, parent, start, end, su, first, n, k);
    }
  }

  /** One more turn of the loop over slices on one table. */
  lemma {:induction false} SpreadTabStep(tab: Table, name: string, parent: Option<string>,
                                         start: int, end: int, su: nat, first: nat, n: nat, k: nat)
    requires su > 0 && Dicts.Valid(tab) && first <= n && k == n + 1
    ensures SpreadTab(tab, name, parent, start, end, su, first, k)
            == AdjustSlice(SpreadTab(tab, name, parent, start, end, su, first, n),
                           n, name, parent, Fraction(SliceElapsed(n, su, start, end), su))
  {
  }

  /** The same on the tables: other threads' tables are left as they were. */
  lemma SpreadUnit(tabs: Tables, count: nat, th: Thread, name: string, parent: Option<string>,
                   start: nat, end: nat, su: nat, first: nat, k: nat)
    requires su > 0 && TablesOk(tabs) && ShapedAll(tabs, count) && AllUnit(tabs)
    requires name != Total && parent != Some(Total)
    requires parent.Some? && th in tabs.vals ==> parent.value in tabs.vals[th].vals
    requires start < end && first == start / su && k <= end / su + 1
    ensures AllUnit(Spread(tabs, th, name, parent, start, end, su, first, k))
    ensures AllReconciled(tabs, count) ==> AllReconciled(Spread(tabs, th, name, parent, start, end, su, first, k), count)
  {
    if th in tabs.vals {
      SpreadTabUnit(tabs.vals[th], count, name, parent, start, end, su, first, k);
    }
  }

  /** A frame's own slices leave the tables ready for its children. */
  lemma SpreadReady(tabs: Tables, count: nat, f: Timeline.Frame, parent: Option<string>, env: Env,
                    threads: Dict<Thread, seq<string>>, mid: Tables)
    requires env.su > 0 && Ready(tabs, count) && Rowed(tabs, threads)
    requires Sliceable(f, env) && RowsKnown(f, env, threads) && EndOf(f, env) > StartOf(f, env)
    requires parent.Some? ==> parent.value in threads.vals[f.t] && parent.value != Total
    requires mid == FrameSpread(tabs, f, parent, env)
    ensures Ready(mid, count) && Rowed(mid, threads)
  {
    var su := env.su;
    var start, end := StartOf(f, env), EndOf(f, env);
    SpreadUnit(tabs, count, f.t, NameOf(f, env), parent, start, end, su, start / su, end / su + 1);
    ShapedSame(tabs, mid, count);
    RowedSame(tabs, mid, threads);
  }

  /** A frame and everything below it keep every cell a fraction of a slice, when every
      name involved has a row and none is the total row's key. */
  lemma {:induction false} FrameUnit(tabs: Tables, count: nat, f: Timeline.Frame, parent: Option<string>, env: Env,
                                     threads: Dict<Thread, seq<string>>)
    requires env.su > 0 && Ready(tabs, count) && Rowed(tabs, threads)
    requires Sliceable(f, env) && RowsKnown(f, env, threads)
    requires parent.Some? ==> parent.value in threads.vals[f.t] && parent.value != Total
    ensures Ready(TablesFrame(tabs, f, parent, env), count) && Rowed(TablesFrame(tabs, f, parent, env), threads)
    decreases f, |f.c| + 1
  {
    if EndOf(f, env) > StartOf(f, env) {
      var mid := FrameSpread(tabs, f, parent, env);
      SpreadReady(tabs, count, f, parent, env, threads, mid);
      ChildrenUnit(mid, count, f, |f.c|, env, threads);
      TablesFrameSpreads(tabs, f, parent, env, mid);
    } else {
      TablesFrameIdle(tabs, f, parent, env);
    }
  }

  lemma {:induction false} ChildrenUnit(tabs: Tables, count: nat, f: Timeline.Frame, k: nat, env: Env,
                                        threads: Dict<Thread, seq<string>>)
    requires env.su > 0 && Ready(tabs, count) && Rowed(tabs, threads)
    requires Sliceable(f, env) && RowsKnown(f, env, threads) && k <= |f.c|
    ensures Ready(TablesChildren(tabs, f, k, env), count) && Rowed(TablesChildren(tabs, f, k, env), threads)
    decreases f, k
  {
    if k > 0 {
      var n := k - 1;
      ChildrenUnit(tabs, count, f, n, env, threads);
      var prev := TablesChildren(tabs, f, n, env);
      assert f.c[n] in f.c;
      FrameUnit(prev, count, f.c[n], Some(NameOf(f, env)), env, threads);
      TablesChildStep(tabs, f, n, env);
    }
  }

  lemma {:induction false} RootsUnit(tabs: Tables, count: nat, roots: seq<Timeline.Frame>, k: nat, env: Env,
                                     threads: Dict<Thread, seq<string>>)
    requires env.su > 0 && Ready(tabs, count) && Rowed(tabs, threads) && k <= |roots|
    requires forall f :: f in roots ==> Sliceable(f, env) && RowsKnown(f, env, threads)
    ensures Ready(TablesRoots(tabs, roots, k, env), count) && Rowed(TablesRoots(tabs, roots, k, env), threads)
  {
    if k > 0 {
      var n := k - 1;
      RootsUnit(tabs, count, roots, n, env, threads);
      var prev := TablesRoots(tabs, roots, n, env);
      assert roots[n] in roots;
      FrameUnit(prev, count, roots[n], None, env, threads);
      TablesRootStep(tabs, roots, n, env);
    }
  }

  /** The call trees of the timeline stage name only rows of their threads. */
  lemma {:induction false} RowsFromTimeline(f: Timeline.Frame, threads: Dict<Thread, seq<string>>,
                                            lookup: seq<string>, lo: int, hi: Option<int>, env: Env)
    requires Timeline.FrameOk(f, true, threads, lookup, lo, hi)
    requires env.lookup == lookup && Total !in lookup
    ensures RowsKnown(f, env, threads)
    decreases f
  {
    forall c | c in f.c
      ensures RowsKnown(c, env, threads)
    {
      RowsFromTimeline(c, threads, lookup, lo, hi, env);
    }
  }

  /** Over the whole pass, when no event is named like the total row, every cell stays a
      fraction of a slice, and so every converted cell lies between zero and the slice
      width. */
  lemma PassInSlice(tl: Timeline.TState, su: nat, cpuMain: Option<Thread>)
    requires Timeline.Consistent(tl) && Runs(tl) && su > 0 && Total !in tl.nameLookup
    ensures forall f :: f in tl.timelineEvents ==> Sliceable(f, EnvOf(tl, su, cpuMain))
    ensures var count := CeilDiv(Span(tl), su);
            var tabs := TablesRoots(InitTables(tl.threads, count, |tl.threads.keys|),
                                    tl.timelineEvents, |tl.timelineEvents|, EnvOf(tl, su, cpuMain));
            Ready(tabs, count) && WithinSlice(UsecsTables(tabs, su), su)
  {
    var env := EnvOf(tl, su, cpuMain);
    var count := CeilDiv(Span(tl), su);
    var init := InitTables(tl.threads, count, |tl.threads.keys|);
    InitReconciled(tl.threads, count);
    forall f | f in tl.timelineEvents
      ensures Sliceable(f, env) && RowsKnown(f, env, tl.threads)
    {
      FrameFromTimeline(f, tl.threads, tl.nameLookup, tl.startTime.value, tl.endTime, env);
      RowsFromTimeline(f, tl.threads, tl.nameLookup, tl.startTime.value, tl.endTime, env);
    }
    RootsUnit(init, count, tl.timelineEvents, |tl.timelineEvents|, env, tl.threads);
    var tabs := TablesRoots(init, tl.timelineEvents, |tl.timelineEvents|, env);
    UsecsBounds(tabs, su);
  }

  /** A frame and everything below it keep every list of periods free of periods held by
      earlier ones. */
  lemma {:induction false} FrameFresh(sc: Option<Scripts>, f: Timeline.Frame, env: Env)
    requires ScriptsOk(sc) && Sliceable(f, env) && AllFresh(sc)
    ensures AllFresh(ScriptsFrame(sc, f, env))
    decreases f, |f.c| + 1
  {
    if EndOf(f, env) > StartOf(f, env) {
      if f.js.Some? {
        RecordKeepsFresh(sc, f.t, f.js.value, NameOf(f, env), PeriodOf(f, env), env.cpuMain);
        ChildrenFresh(Some(RecordScript(sc, f.t, f.js.value, NameOf(f, env), PeriodOf(f, env), env.cpuMain)),
                      f, |f.c|, env);
      } else {
        ChildrenFresh(sc, f, |f.c|, env);
      }
    }
  }

  lemma {:induction false} ChildrenFresh(sc: Option<Scripts>, f: Timeline.Frame, k: nat, env: Env)
    requires ScriptsOk(sc) && Sliceable(f, env) && k <= |f.c| && AllFresh(sc)
    ensures AllFresh(ScriptsChildren(sc, f, k, env))
    decreases f, k
  {
    if k > 0 {
      ChildrenFresh(sc, f, k - 1, env);
      assert f.c[k - 1] in f.c;
      FrameFresh(ScriptsChildren(sc, f, k - 1, env), f.c[k - 1], env);
    }
  }

  lemma {:induction false} RootsFresh(sc: Option<Scripts>, roots: seq<Timeline.Frame>, k: nat, env: Env)
    requires ScriptsOk(sc) && k <= |roots| && (forall f :: f in roots ==> Sliceable(f, env)) && AllFresh(sc)
    ensures AllFresh(ScriptsRoots(sc, roots, k, env))
  {
    if k > 0 {
      RootsFresh(sc, roots, k - 1, env);
      assert roots[k - 1] in roots;
      FrameFresh(ScriptsRoots(sc, roots, k - 1, env), roots[k - 1], env);
    }
  }

  /** The call trees the timeline stage builds are what the pass needs: closed frames inside
      the trace, each with a known name. */
  lemma {:induction false} FrameFromTimeline(f: Timeline.Frame, threads: Dict<Thread, seq<string>>,
                                             lookup: seq<string>, lo: int, hi: Option<int>, env: Env)
    requires Timeline.FrameOk(f, true, threads, lookup, lo, hi)
    requires env.lookup == lookup && env.start == lo
    ensures Sliceable(f, env)
    decreases f
  {
    forall c | c in f.c
      ensures Sliceable(c, env)
    {
      FrameFromTimeline(c, threads, lookup, lo, hi, env);
    }
  }

  /** Over the whole pass, starting from no scripts, no recorded period lies within an
      earlier one of the same thread, url and name. */
  lemma PassFresh(tl: Timeline.TState, env: Env)
    requires Timeline.Consistent(tl) && tl.startTime.Some?
    requires env.lookup == tl.nameLookup && env.start == tl.startTime.value
    ensures forall f :: f in tl.timelineEvents ==> Sliceable(f, env)
    ensures AllFresh(ScriptsRoots(None, tl.timelineEvents, |tl.timelineEvents|, env))
  {
    forall f | f in tl.timelineEvents
      ensures Sliceable(f, env)
    {
      FrameFromTimeline(f, tl.threads, tl.nameLookup, tl.startTime.value, tl.endTime, env);
    }
    RootsFresh(None, tl.timelineEvents, |tl.timelineEvents|, env);
  }
}
