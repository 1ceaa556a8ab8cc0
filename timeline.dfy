/** ProcessTimelineTraceEvent: the main thread, the thread and event-name registries, and
    one explicit stack of open frames per thread whose closed frames form the call trees. */
module Timeline {
  import opened Wrappers
  import opened Events
  import opened Dicts
  import opened Sorting
  import opened Ingest

  /** A frame of the call tree: thread, event-name id, start and (once closed) end in
      microseconds, the script url of a script-evaluation frame, and the child frames. */
  datatype Frame = Frame(t: Thread, n: nat, s: int, e: Option<int>, js: Option<string>, c: seq<Frame>)

  /** The fields ProcessTimelineTraceEvent reads and writes. `threads` lists, per thread, the
      event names seen on it in first-seen order; `nameLookup[i]` is the name with id `i`. */
  datatype TState = TState(
    threadStack: map<Thread, seq<Frame>>,
    ignoreThreads: set<Thread>,
    threads: Dict<Thread, seq<string>>,
    eventIds: map<string, nat>,
    nameLookup: seq<string>,
    timelineEvents: seq<Frame>,
    startTime: Option<int>,
    endTime: Option<int>,
    mainThread: Option<Thread>)

  const Initial := TState(map[], {}, Empty(), map[], [], [], None, None, None)

  /** The replay server's own requests, whose thread is never the main thread. */
  const ReplayServer: string := "http://127.0.0.1:8888"

  const ScriptEvaluations: set<string> := {"EvaluateScript", "v8.compile", "v8.parseOnBackground"}

  /** The script a new frame is attributed to: the `data.url` of a script evaluation or the
      `data.scriptName` of a function call, when it is an http(s) url. */
  function JsOf(ev: TraceEvent): (r: Option<string>)
    ensures r.Some? ==> StartsWith(r.value, "http")
    ensures r.Some? ==> ev.name in ScriptEvaluations || ev.name == "FunctionCall"
  {
    var data := DataOf(ev);
    if ev.name in ScriptEvaluations && DataUrl(ev).Some? && StartsWith(DataUrl(ev).value, "http") then
      DataUrl(ev)
    else if ev.name == "FunctionCall" && data.Some? && data.value.scriptName.Some?
            && StartsWith(data.value.scriptName.value, "http") then
      data.value.scriptName
    else None
  }

  /** Main-thread detection: the first ResourceSendRequest with a url picks its thread,
      unless the url is the replay server's, which marks the thread as ignored. The picked
      event's timestamp is the trace start, and the event counts as lasting 1 us when it
      has no duration. Returns the state and the event's duration. */
  function DetectMain(st: TState, ev: TraceEvent): (r: (TState, Option<int>))
    requires Valid(st.threads)
    ensures Valid(r.0.threads)
  {
    var th := ThreadOf(ev);
    if st.mainThread.None? && ev.name == "ResourceSendRequest" && DataUrl(ev).Some? then
      if StartsWith(DataUrl(ev).value, ReplayServer) then
        (st.(ignoreThreads := st.ignoreThreads + {th}), ev.dur)
      else
        var threads := if th in st.threads.vals then st.threads else Set(st.threads, th, []);
        var start := if st.startTime.None? || ev.ts < st.startTime.value then ev.ts else st.startTime.value;
        (st.(threads := threads, startTime := Some(start), mainThread := Some(th)),
         if ev.dur.None? then Some(1) else ev.dur)
    else (st, ev.dur)
  }

  /** Once the main thread is known, every thread that is not ignored gets registered by its
      first event not named Program. */
  function RegisterThread(st: TState, ev: TraceEvent): (r: TState)
    requires Valid(st.threads)
    ensures Valid(r.threads)
  {
    var th := ThreadOf(ev);
    if st.mainThread.Some? && th !in st.threads.vals && th !in st.ignoreThreads && ev.name != "Program" then
      st.(threads := Set(st.threads, th, []))
    else st
  }

  /** The event name gets the next id if it is new, and joins its thread's names; the thread
      gets an empty stack if it has none. */
  function RegisterName(st: TState, th: Thread, name: string): (r: TState)
    requires Valid(st.threads) && th in st.threads.vals
    ensures Valid(r.threads)
  {
    var known := name in st.eventIds;
    var names := st.threads.vals[th];
    st.(eventIds := if known then st.eventIds else st.eventIds[name := |st.nameLookup|],
        nameLookup := if known then st.nameLookup else st.nameLookup + [name],
        threads := if name in names then st.threads else Set(st.threads, th, names + [name]),
        threadStack := if th in st.threadStack then st.threadStack else st.threadStack[th := []])
  }

  /** Where a closed frame goes: when it starts no earlier than the trace and does not end
      before it starts, it moves the trace end up to its own end and becomes a child of its
      thread's top open frame, or a root of `timelineEvents` when the stack is empty. */
  function Attach(st: TState, th: Thread, f: Frame): TState
    requires th in st.threadStack && f.e.Some?
  {
    if st.startTime.Some? && f.s >= st.startTime.value && f.e.value >= f.s then
      var end := if st.endTime.None? || f.e.value > st.endTime.value then f.e.value else st.endTime.value;
      var stack := st.threadStack[th];
      if |stack| > 0 then
        var top := stack[|stack| - 1];
        st.(endTime := Some(end),
            threadStack := st.threadStack[th := stack[..|stack| - 1] + [top.(c := top.c + [f])]])
      else st.(endTime := Some(end), timelineEvents := st.timelineEvents + [f])
    else st
  }

  /** Whether the event builds timeline frames: its thread is registered and it begins, ends
      or has a duration. */
  predicate Builds(st: TState, ev: TraceEvent, dur: Option<int>) {
    ThreadOf(ev) in st.threads.vals && (dur.Some? || ev.ph == Begin || ev.ph == End)
  }

  /** The frame part of ProcessTimelineTraceEvent. An E pops its thread's top frame and
      closes it when the names agree (a frame popped by the wrong name is dropped); a B
      pushes a new frame; any other event with a duration is a closed frame of that length. */
  function FrameStep(st: TState, ev: TraceEvent, dur: Option<int>): (r: TState)
    requires Valid(st.threads)
    ensures Valid(r.threads)
  {
    var th := ThreadOf(ev);
    if Builds(st, ev, dur) then
      var id := if ev.name in st.eventIds then st.eventIds[ev.name] else |st.nameLookup|;
      Build(RegisterName(st, th, ev.name), th, id, ev, dur)
    else st
  }

  /** The stack work of a building event whose name has id `id` on thread `th`. */
  function Build(st1: TState, th: Thread, id: nat, ev: TraceEvent, dur: Option<int>): (r: TState)
    requires Valid(st1.threads) && th in st1.threadStack
    requires ev.ph != End && ev.ph != Begin ==> dur.Some?
    ensures Valid(r.threads)
  {
    var stack := st1.threadStack[th];
    if ev.ph == End then
      if |stack| == 0 then st1
      else
        var top := stack[|stack| - 1];
        var st2 := st1.(threadStack := st1.threadStack[th := stack[..|stack| - 1]]);
        if top.n == id then Attach(st2, th, top.(e := Some(ev.ts))) else st2
    else
      var f := Frame(th, id, ev.ts, None, JsOf(ev), []);
      if ev.ph == Begin then st1.(threadStack := st1.threadStack[th := stack + [f]])
      else Attach(st1, th, f.(e := Some(ev.ts + dur.value)))
  }

  /** ProcessTimelineTraceEvent on the state. */
  function TimelineStep(st: TState, ev: TraceEvent): (r: TState)
    requires Valid(st.threads)
    ensures Valid(r.threads)
  {
    var (st1, dur) := DetectMain(st, ev);
    FrameStep(RegisterThread(st1, ev), ev, dur)
  }

  /** The state after a sequence of timeline events. */
  function TimelineFold(st: TState, events: seq<TraceEvent>): (r: TState)
    requires Valid(st.threads)
    ensures Valid(r.threads)
  {
    if events == [] then st else TimelineStep(TimelineFold(st, events[..|events| - 1]), events[|events| - 1])
  }

  // ---------------------------------------------------------------------------------------
  // Consistency

  /** A frame's thread and name are registered, and the name is one of its thread's names;
      a closed frame lies within [lo, hi]; children are closed frames of the same thread. */
  ghost predicate FrameOk(f: Frame, closed: bool, threads: Dict<Thread, seq<string>>,
                          lookup: seq<string>, lo: int, hi: Option<int>)
    decreases f
  {
    && f.t in threads.vals && f.n < |lookup| && lookup[f.n] in threads.vals[f.t]
    && (closed ==> f.e.Some? && lo <= f.s <= f.e.value && hi.Some? && f.e.value <= hi.value)
    && forall c :: c in f.c ==> c.t == f.t && FrameOk(c, true, threads, lookup, lo, hi)
  }

  /** The registries only grow: known threads keep their names. */
  ghost predicate Grows(th: Dict<Thread, seq<string>>, th': Dict<Thread, seq<string>>) {
    forall t :: t in th.vals ==> t in th'.vals && forall nm :: nm in th.vals[t] ==> nm in th'.vals[t]
  }

  lemma {:induction false} FrameOkGrow(f: Frame, closed: bool, th: Dict<Thread, seq<string>>,
                                       lk: seq<string>, lo: int, hi: Option<int>,
                                       th': Dict<Thread, seq<string>>, lk': seq<string>, hi': Option<int>)
    requires FrameOk(f, closed, th, lk, lo, hi)
    requires Grows(th, th')
    requires |lk| <= |lk'| && lk == lk'[..|lk|]
    requires hi.Some? ==> hi'.Some? && hi.value <= hi'.value
    ensures FrameOk(f, closed, th', lk', lo, hi')
    decreases f
  {
    assert lk'[..|lk|][f.n] == lk'[f.n];
    forall c | c in f.c
      ensures FrameOk(c, true, th', lk', lo, hi')
    {
      FrameOkGrow(c, true, th, lk, lo, hi, th', lk', hi');
    }
  }

  /** The invariant of the timeline state. */
  ghost predicate Consistent(st: TState) {
    && Valid(st.threads)
    && (forall i :: 0 <= i < |st.nameLookup| ==>
          st.nameLookup[i] in st.eventIds && st.eventIds[st.nameLookup[i]] == i)
    && (forall nm :: nm in st.eventIds ==>
          st.eventIds[nm] < |st.nameLookup| && st.nameLookup[st.eventIds[nm]] == nm)
    && (st.mainThread.Some? <==> st.startTime.Some?)
    && (st.startTime.None? ==>
          st.threads.keys == [] && st.threadStack == map[] && st.timelineEvents == [] && st.endTime.None?)
    && (st.endTime.Some? ==> st.startTime.Some? && st.startTime.value <= st.endTime.value)
    && (forall t :: t in st.threadStack ==> t in st.threads.vals)
    && (st.startTime.Some? ==> StacksOk(st) && RootsOk(st))
  }

  ghost predicate StacksOk(st: TState)
    requires st.startTime.Some?
  {
    forall t :: t in st.threadStack ==> forall f :: f in st.threadStack[t] ==>
      f.t == t && FrameOk(f, false, st.threads, st.nameLookup, st.startTime.value, st.endTime)
  }

  ghost predicate RootsOk(st: TState)
    requires st.startTime.Some?
  {
    forall f :: f in st.timelineEvents ==>
      FrameOk(f, true, st.threads, st.nameLookup, st.startTime.value, st.endTime)
  }

  lemma InitialConsistent()
    ensures Consistent(Initial)
  {
  }

  /** Growing the registries and moving the trace end later keeps every frame consistent;
      a thread may gain an empty stack. */
  lemma FramesGrow(st: TState, st': TState)
    requires st.startTime.Some? && st'.startTime == st.startTime
    requires StacksOk(st) && RootsOk(st)
    requires Grows(st.threads, st'.threads)
    requires |st.nameLookup| <= |st'.nameLookup| && st.nameLookup == st'.nameLookup[..|st.nameLookup|]
    requires st.endTime.Some? ==> st'.endTime.Some? && st.endTime.value <= st'.endTime.value
    requires st'.timelineEvents == st.timelineEvents
    requires forall t :: t in st'.threadStack ==>
      if t in st.threadStack then st'.threadStack[t] == st.threadStack[t] else st'.threadStack[t] == []
    ensures StacksOk(st') && RootsOk(st')
  {
    var lo := st.startTime.value;
    forall f | f in st'.timelineEvents
      ensures FrameOk(f, true, st'.threads, st'.nameLookup, lo, st'.endTime)
    {
      FrameOkGrow(f, true, st.threads, st.nameLookup, lo, st.endTime, st'.threads, st'.nameLookup, st'.endTime);
    }
    forall t, f | t in st'.threadStack && f in st'.threadStack[t]
      ensures f.t == t && FrameOk(f, false, st'.threads, st'.nameLookup, lo, st'.endTime)
    {
      FrameOkGrow(f, false, st.threads, st.nameLookup, lo, st.endTime, st'.threads, st'.nameLookup, st'.endTime);
    }
  }

  lemma DetectMainConsistent(st: TState, ev: TraceEvent)
    requires Consistent(st)
    ensures Consistent(DetectMain(st, ev).0)
  {
    var st' := DetectMain(st, ev).0;
    if st.mainThread.None? && ev.name == "ResourceSendRequest" && DataUrl(ev).Some?
       && !StartsWith(DataUrl(ev).value, ReplayServer) {
      assert st.threads.vals == map[];
      assert st'.threads.keys == [ThreadOf(ev)];
    }
  }

  lemma RegisterThreadConsistent(st: TState, ev: TraceEvent)
    requires Consistent(st)
    ensures Consistent(RegisterThread(st, ev))
  {
    var st' := RegisterThread(st, ev);
    if st' != st {
      FramesGrow(st, st');
    }
  }

  lemma RegisterNameConsistent(st: TState, th: Thread, name: string)
    requires Consistent(st) && th in st.threads.vals
    ensures Consistent(RegisterName(st, th, name))
    ensures th in RegisterName(st, th, name).threadStack
    ensures name in RegisterName(st, th, name).eventIds
    ensures name in RegisterName(st, th, name).threads.vals[th]
  {
    var st' := RegisterName(st, th, name);
    assert st'.nameLookup[..|st.nameLookup|] == st.nameLookup;
    assert Grows(st.threads, st'.threads);
    if st.startTime.Some? {
      FramesGrow(st, st');
    }
  }

  /** Replacing the top of a thread's stack by an open frame that is consistent. */
  lemma ReplaceTop(st: TState, th: Thread, top': Frame)
    requires Consistent(st) && st.startTime.Some? && th in st.threadStack && |st.threadStack[th]| > 0
    requires top'.t == th
    requires FrameOk(top', false, st.threads, st.nameLookup, st.startTime.value, st.endTime)
    ensures Consistent(st.(threadStack := st.threadStack[th := st.threadStack[th][..|st.threadStack[th]| - 1] + [top']]))
  {
  }

  lemma AttachConsistent(st: TState, th: Thread, f: Frame)
    requires Consistent(st) && th in st.threadStack && f.e.Some? && f.t == th
    requires st.startTime.Some? ==> FrameOk(f, false, st.threads, st.nameLookup, st.startTime.value, st.endTime)
    ensures Consistent(Attach(st, th, f))
  {
    if st.startTime.Some? && f.s >= st.startTime.value && f.e.value >= f.s {
      var lo := st.startTime.value;
      var end := if st.endTime.None? || f.e.value > st.endTime.value then f.e.value else st.endTime.value;
      var st1 := st.(endTime := Some(end));
      FramesGrow(st, st1);
      FrameOkGrow(f, false, st.threads, st.nameLookup, lo, st.endTime, st.threads, st.nameLookup, Some(end));
      assert FrameOk(f, true, st.threads, st.nameLookup, lo, Some(end));
      var stack := st.threadStack[th];
      if |stack| > 0 {
        var top := stack[|stack| - 1];
        assert top in st1.threadStack[th];
        var top' := top.(c := top.c + [f]);
        assert FrameOk(top', false, st.threads, st.nameLookup, lo, Some(end));
        ReplaceTop(st1, th, top');
      }
    }
  }

  /** Dropping the top frame of a stack. */
  lemma PopKeeps(st1: TState, th: Thread)
    requires Consistent(st1) && th in st1.threadStack && |st1.threadStack[th]| > 0
    ensures Consistent(st1.(threadStack := st1.threadStack[th := st1.threadStack[th][..|st1.threadStack[th]| - 1]]))
  {
  }

  /** Pushing a new open frame of a registered name. */
  lemma PushKeeps(st1: TState, th: Thread, f: Frame)
    requires Consistent(st1) && th in st1.threadStack && th in st1.threads.vals
    requires f.t == th && f.c == [] && f.n < |st1.nameLookup| && st1.nameLookup[f.n] in st1.threads.vals[th]
    ensures Consistent(st1.(threadStack := st1.threadStack[th := st1.threadStack[th] + [f]]))
  {
  }

  lemma BuildConsistent(st1: TState, th: Thread, id: nat, ev: TraceEvent, dur: Option<int>)
    requires Consistent(st1) && th in st1.threadStack && th in st1.threads.vals
    requires ev.ph != End && ev.ph != Begin ==> dur.Some?
    requires id < |st1.nameLookup| && st1.nameLookup[id] in st1.threads.vals[th]
    ensures Consistent(Build(st1, th, id, ev, dur))
  {
    if ev.ph == End {
      if |st1.threadStack[th]| > 0 {
        BuildEndConsistent(st1, th, id, ev, dur);
      } else {
        BuildEndIs(st1, th, id, ev, dur);
      }
    } else if ev.ph == Begin {
      var f := Frame(th, id, ev.ts, None, JsOf(ev), []);
      PushKeeps(st1, th, f);
      BuildBeginIs(st1, th, id, ev, dur);
    } else {
      var f := Frame(th, id, ev.ts, Some(ev.ts + dur.value), JsOf(ev), []);
      AttachConsistent(st1, th, f);
      BuildOtherIs(st1, th, id, ev, dur);
    }
  }

  /** An E that finds an open frame. */
  lemma BuildEndConsistent(st1: TState, th: Thread, id: nat, ev: TraceEvent, dur: Option<int>)
    requires Consistent(st1) && th in st1.threadStack && ev.ph == End && |st1.threadStack[th]| > 0
    ensures Consistent(Build(st1, th, id, ev, dur))
  {
    var stack := st1.threadStack[th];
    var top := stack[|stack| - 1];
    assert top in st1.threadStack[th];
    PopKeeps(st1, th);
    var st2 := st1.(threadStack := st1.threadStack[th := stack[..|stack| - 1]]);
    BuildEndIs(st1, th, id, ev, dur);
    if top.n == id {
      AttachConsistent(st2, th, top.(e := Some(ev.ts)));
    }
  }

  /** An E pops the top frame, and closes and attaches it when the ids agree. */
  lemma BuildEndIs(st1: TState, th: Thread, id: nat, ev: TraceEvent, dur: Option<int>)
    requires Valid(st1.threads) && th in st1.threadStack && ev.ph == End
    ensures var stack := st1.threadStack[th];
      Build(st1, th, id, ev, dur)
      == if |stack| == 0 then st1
         else
           var st2 := st1.(threadStack := st1.threadStack[th := stack[..|stack| - 1]]);
           if stack[|stack| - 1].n == id then Attach(st2, th, stack[|stack| - 1].(e := Some(ev.ts))) else st2
  {
  }

  /** A B pushes an open frame. */
  lemma BuildBeginIs(st1: TState, th: Thread, id: nat, ev: TraceEvent, dur: Option<int>)
    requires Valid(st1.threads) && th in st1.threadStack && ev.ph == Begin
    ensures Build(st1, th, id, ev, dur)
      == st1.(threadStack := st1.threadStack[th := st1.threadStack[th] + [Frame(th, id, ev.ts, None, JsOf(ev), [])]])
  {
  }

  /** Any other event attaches a closed frame of its duration. */
  lemma BuildOtherIs(st1: TState, th: Thread, id: nat, ev: TraceEvent, dur: Option<int>)
    requires Valid(st1.threads) && th in st1.threadStack && ev.ph != End && ev.ph != Begin && dur.Some?
    ensures Build(st1, th, id, ev, dur)
      == Attach(st1, th, Frame(th, id, ev.ts, Some(ev.ts + dur.value), JsOf(ev), []))
  {
  }

  lemma FrameStepConsistent(st: TState, ev: TraceEvent, dur: Option<int>)
    requires Consistent(st)
    ensures Consistent(FrameStep(st, ev, dur))
  {
    var th := ThreadOf(ev);
    if Builds(st, ev, dur) {
      RegisterNameConsistent(st, th, ev.name);
      var st1 := RegisterName(st, th, ev.name);
      var id := if ev.name in st.eventIds then st.eventIds[ev.name] else |st.nameLookup|;
      assert id == st1.eventIds[ev.name];
      BuildConsistent(st1, th, id, ev, dur);
    }
  }

  lemma StepConsistent(st: TState, ev: TraceEvent)
    requires Consistent(st)
    ensures Consistent(TimelineStep(st, ev))
  {
    DetectMainConsistent(st, ev);
    var (st1, dur) := DetectMain(st, ev);
    RegisterThreadConsistent(st1, ev);
    FrameStepConsistent(RegisterThread(st1, ev), ev, dur);
  }

  /** Every state reachable from the initial one is consistent: each frame belongs to a
      registered thread and names one of that thread's events, and each closed frame lies
      between the trace start and the trace end. */
  lemma {:induction false} FoldConsistent(st: TState, events: seq<TraceEvent>)
    requires Consistent(st)
    ensures Consistent(TimelineFold(st, events))
    decreases |events|
  {
    if events != [] {
      FoldConsistent(st, events[..|events| - 1]);
      StepConsistent(TimelineFold(st, events[..|events| - 1]), events[|events| - 1]);
    }
  }

  // ---------------------------------------------------------------------------------------
  // What one event does

  function Max(a: Option<int>, b: int): (r: int)
    ensures r >= b && (a.Some? ==> r >= a.value)
    ensures r == b || (a.Some? && r == a.value)
  {
    if a.None? || b > a.value then b else a.value
  }

  /** Whether a closed frame is kept: it starts no earlier than the trace and ends no earlier
      than it starts. */
  predicate Kept(st: TState, f: Frame) {
    f.e.Some? && st.startTime.Some? && f.s >= st.startTime.value && f.e.value >= f.s
  }

  /** Attaching a kept frame under the top open frame, or as a new root. */
  predicate AttachedTo(st: TState, r: TState, th: Thread, stack: seq<Frame>, f: Frame)
    requires th in r.threadStack && f.e.Some?
  {
    && r.endTime == Some(Max(st.endTime, f.e.value))
    && (|stack| > 0 ==>
          && r.threadStack[th] == stack[..|stack| - 1] + [stack[|stack| - 1].(c := stack[|stack| - 1].c + [f])]
          && r.timelineEvents == st.timelineEvents)
    && (|stack| == 0 ==> r.threadStack[th] == [] && r.timelineEvents == st.timelineEvents + [f])
  }

  /** Registering a name touches neither the stacks of known threads nor the trees. */
  lemma RegisterNameKeeps(st: TState, th: Thread, name: string)
    requires Consistent(st) && th in st.threads.vals
    ensures var r := RegisterName(st, th, name);
      && r.timelineEvents == st.timelineEvents && r.endTime == st.endTime && r.startTime == st.startTime
      && r.mainThread == st.mainThread
      && r.threadStack[th] == (if th in st.threadStack then st.threadStack[th] else [])
      && (forall t :: t in st.threadStack ==> t in r.threadStack && r.threadStack[t] == st.threadStack[t])
      && r.eventIds[name] == (if name in st.eventIds then st.eventIds[name] else |st.nameLookup|)
  {
  }

  /** Once the main thread is known, an event of a registered thread goes straight to the
      frame step. */
  lemma StepOfRegistered(st: TState, ev: TraceEvent)
    requires Consistent(st) && st.mainThread.Some? && ThreadOf(ev) in st.threads.vals
    ensures TimelineStep(st, ev) == FrameStep(st, ev, ev.dur)
  {
  }

  /** An E pops the top frame of its thread. The frame is closed at the event's timestamp
      and attached when it carries the event's own name and is kept; otherwise it is dropped
      and neither the trees nor the trace end change. */
  lemma {:induction false} EndPopsTop(st: TState, ev: TraceEvent)
    requires Consistent(st) && st.mainThread.Some? && ev.ph == End
    requires ThreadOf(ev) in st.threads.vals && ThreadOf(ev) in st.threadStack
    requires |st.threadStack[ThreadOf(ev)]| > 0
    ensures var th := ThreadOf(ev);
      var r := TimelineStep(st, ev);
      var stack := st.threadStack[th];
      var top := stack[|stack| - 1];
      var closed := top.(e := Some(ev.ts));
      var matches := ev.name in st.eventIds && top.n == st.eventIds[ev.name];
      && th in r.threadStack
      && (matches && Kept(st, closed) ==> AttachedTo(st, r, th, stack[..|stack| - 1], closed))
      && (!(matches && Kept(st, closed)) ==>
            r.threadStack[th] == stack[..|stack| - 1] && r.timelineEvents == st.timelineEvents
            && r.endTime == st.endTime)
  {
    var th := ThreadOf(ev);
    StepOfRegistered(st, ev);
    RegisterNameKeeps(st, th, ev.name);
    var st1 := RegisterName(st, th, ev.name);
    var stack := st.threadStack[th];
    var top := stack[|stack| - 1];
    assert top in st.threadStack[th];
    assert top.n < |st.nameLookup|;
    var id := st1.eventIds[ev.name];
    assert id == top.n <==> ev.name in st.eventIds && top.n == st.eventIds[ev.name];
    var st2 := st1.(threadStack := st1.threadStack[th := stack[..|stack| - 1]]);
    assert TimelineStep(st, ev) == if top.n == id then Attach(st2, th, top.(e := Some(ev.ts))) else st2;
  }

  /** A B pushes a new open frame, named by the event, onto its thread's stack. */
  lemma {:induction false} BeginPushes(st: TState, ev: TraceEvent)
    requires Consistent(st) && st.mainThread.Some? && ev.ph == Begin
    requires ThreadOf(ev) in st.threads.vals
    ensures var th := ThreadOf(ev);
      var r := TimelineStep(st, ev);
      var stack := if th in st.threadStack then st.threadStack[th] else [];
      && th in r.threadStack && |r.threadStack[th]| == |stack| + 1
      && r.threadStack[th][..|stack|] == stack
      && var f := r.threadStack[th][|stack|];
      && f.t == th && f.s == ev.ts && f.e.None? && f.c == [] && f.js == JsOf(ev)
      && r.nameLookup[f.n] == ev.name
      && r.timelineEvents == st.timelineEvents && r.endTime == st.endTime
  {
    var th := ThreadOf(ev);
    StepOfRegistered(st, ev);
    RegisterNameKeeps(st, th, ev.name);
    RegisterNameConsistent(st, th, ev.name);
    var st1 := RegisterName(st, th, ev.name);
    var stack := st1.threadStack[th];
    var f := Frame(th, st1.eventIds[ev.name], ev.ts, None, JsOf(ev), []);
    assert TimelineStep(st, ev) == st1.(threadStack := st1.threadStack[th := stack + [f]]);
    assert (stack + [f])[..|stack|] == stack;
  }

  /** Any other event with a duration is a frame closed at `ts + dur`, attached when kept. */
  lemma {:induction false} CompleteAttaches(st: TState, ev: TraceEvent)
    requires Consistent(st) && st.mainThread.Some? && ev.ph != Begin && ev.ph != End && ev.dur.Some?
    requires ThreadOf(ev) in st.threads.vals
    ensures var th := ThreadOf(ev);
      var r := TimelineStep(st, ev);
      var stack := if th in st.threadStack then st.threadStack[th] else [];
      var id := if ev.name in st.eventIds then st.eventIds[ev.name] else |st.nameLookup|;
      var f := Frame(th, id, ev.ts, Some(ev.ts + ev.dur.value), JsOf(ev), []);
      && th in r.threadStack && id < |r.nameLookup| && r.nameLookup[id] == ev.name
      && (Kept(st, f) ==> AttachedTo(st, r, th, stack, f))
      && (!Kept(st, f) ==> r.threadStack[th] == stack && r.timelineEvents == st.timelineEvents && r.endTime == st.endTime)
  {
    var th := ThreadOf(ev);
    StepOfRegistered(st, ev);
    RegisterNameKeeps(st, th, ev.name);
    RegisterNameConsistent(st, th, ev.name);
    var st1 := RegisterName(st, th, ev.name);
    var f := Frame(th, st1.eventIds[ev.name], ev.ts, Some(ev.ts + ev.dur.value), JsOf(ev), []);
    FrameStepBuilds(st, ev, ev.dur);
    BuildOtherIs(st1, th, st1.eventIds[ev.name], ev, ev.dur);
    AttachSpec(st1, th, f);
  }

  /** A building event registers its name and does the stack work under the name's id. */
  lemma FrameStepBuilds(st: TState, ev: TraceEvent, dur: Option<int>)
    requires Valid(st.threads) && Builds(st, ev, dur)
    ensures var st1 := RegisterName(st, ThreadOf(ev), ev.name);
      FrameStep(st, ev, dur) == Build(st1, ThreadOf(ev), st1.eventIds[ev.name], ev, dur)
  {
  }

  /** Attaching a frame: a kept frame goes under the top open frame or becomes a root; any
      other frame leaves the state as it was. The registries never change. */
  lemma AttachSpec(st: TState, th: Thread, f: Frame)
    requires th in st.threadStack && f.e.Some?
    ensures var r := Attach(st, th, f);
      && th in r.threadStack && r.eventIds == st.eventIds && r.nameLookup == st.nameLookup
      && (Kept(st, f) ==> AttachedTo(st, r, th, st.threadStack[th], f))
      && (!Kept(st, f) ==> r == st)
  {
  }

  /** Main-thread detection: the first ResourceSendRequest with a url that is not the replay
      server's makes its thread the main thread and its timestamp the trace start. */
  lemma DetectsMainThread(st: TState, ev: TraceEvent)
    requires Consistent(st) && st.mainThread.None? && ev.name == "ResourceSendRequest" && DataUrl(ev).Some?
    ensures var r := TimelineStep(st, ev);
      if StartsWith(DataUrl(ev).value, ReplayServer) then
        r.mainThread.None? && ThreadOf(ev) in r.ignoreThreads && r.threads == st.threads
      else
        r.mainThread == Some(ThreadOf(ev)) && r.startTime == Some(ev.ts) && ThreadOf(ev) in r.threads.vals
  {
    var th := ThreadOf(ev);
    var (st1, dur) := DetectMain(st, ev);
    assert st.threads.vals == map[];
    assert RegisterThread(st1, ev) == st1;
    assert TimelineStep(st, ev) == FrameStep(st1, ev, dur);
    if !StartsWith(DataUrl(ev).value, ReplayServer) && Builds(st1, ev, dur) {
      FrameStepBuilds(st1, ev, dur);
      var st3 := RegisterName(st1, th, ev.name);
      BuildKeeps(st3, th, st3.eventIds[ev.name], ev, dur);
    }
  }

  /** Before the main thread is known, nothing but its detection changes the state. */
  lemma NothingBeforeMainThread(st: TState, ev: TraceEvent)
    requires Consistent(st) && st.mainThread.None?
    requires !(ev.name == "ResourceSendRequest" && DataUrl(ev).Some?)
    ensures TimelineStep(st, ev) == st
  {
  }

  /** One event after the main thread is chosen: main thread and start stay, the end does
      not move earlier, and no thread joins except the event's own. */
  lemma StepKeepsStart(st: TState, ev: TraceEvent)
    requires Valid(st.threads) && st.mainThread.Some?
    ensures var r := TimelineStep(st, ev);
      && r.mainThread == st.mainThread && r.startTime == st.startTime
      && (st.endTime.Some? ==> r.endTime.Some? && st.endTime.value <= r.endTime.value)
      && r.ignoreThreads == st.ignoreThreads
      && (forall t :: t in r.threads.vals && t != ThreadOf(ev) ==> t in st.threads.vals)
  {
    var th := ThreadOf(ev);
    var st1 := RegisterThread(st, ev);
    assert DetectMain(st, ev) == (st, ev.dur);
    if Builds(st1, ev, ev.dur) {
      var st2 := RegisterName(st1, th, ev.name);
      var id := if ev.name in st1.eventIds then st1.eventIds[ev.name] else |st1.nameLookup|;
      assert TimelineStep(st, ev) == Build(st2, th, id, ev, ev.dur);
      BuildKeeps(st2, th, id, ev, ev.dur);
    } else {
      assert TimelineStep(st, ev) == st1;
    }
  }

  /** The stack work leaves the main thread, the start and the registries alone and never
      moves the end earlier. */
  lemma BuildKeeps(st1: TState, th: Thread, id: nat, ev: TraceEvent, dur: Option<int>)
    requires Valid(st1.threads) && th in st1.threadStack
    requires ev.ph != End && ev.ph != Begin ==> dur.Some?
    ensures var r := Build(st1, th, id, ev, dur);
      && r.mainThread == st1.mainThread && r.startTime == st1.startTime
      && r.ignoreThreads == st1.ignoreThreads && r.threads == st1.threads
      && (st1.endTime.Some? ==> r.endTime.Some? && st1.endTime.value <= r.endTime.value)
  {
  }

  /** Once chosen, the main thread and the trace start never change, and the trace end only
      moves later. */
  lemma {:induction false} StartFixed(st: TState, events: seq<TraceEvent>)
    requires Valid(st.threads) && st.mainThread.Some?
    ensures TimelineFold(st, events).mainThread == st.mainThread
    ensures TimelineFold(st, events).startTime == st.startTime
    ensures st.endTime.Some? ==>
      TimelineFold(st, events).endTime.Some? && st.endTime.value <= TimelineFold(st, events).endTime.value
    decreases |events|
  {
    if events != [] {
      StartFixed(st, events[..|events| - 1]);
      StepKeepsStart(TimelineFold(st, events[..|events| - 1]), events[|events| - 1]);
    }
  }

  /** Once the main thread is known, a thread that was ignored is never registered. */
  lemma IgnoredStaysOut(st: TState, ev: TraceEvent, th: Thread)
    requires Valid(st.threads) && st.mainThread.Some? && th in st.ignoreThreads && th !in st.threads.vals
    ensures th in TimelineStep(st, ev).ignoreThreads && th !in TimelineStep(st, ev).threads.vals
  {
    StepKeepsStart(st, ev);
    assert th != ThreadOf(ev) ==> th !in TimelineStep(st, ev).threads.vals;
    if th == ThreadOf(ev) {
      assert RegisterThread(st, ev) == st;
    }
  }

  // ---------------------------------------------------------------------------------------
  // The timeline pass

  predicate IsTimelineRoute(ev: TraceEvent) {
    RouteOf(ev) == ToTimeline
  }

  predicate IsUserTimingRoute(ev: TraceEvent) {
    RouteOf(ev) == ToUserTiming
  }

  lemma FilterSnoc<T>(s: seq<T>, x: T, p: T -> bool)
    ensures Filter(s + [x], p) == Filter(s, p) + (if p(x) then [x] else [])
  {
    FilterAppend(s, [x], p);
    assert [x][1..] == [];
  }

  lemma FoldSnoc(st: TState, s: seq<TraceEvent>, ev: TraceEvent)
    requires Valid(st.threads)
    ensures TimelineFold(st, s + [ev]) == TimelineStep(TimelineFold(st, s), ev)
  {
    assert (s + [ev])[..|s|] == s;
  }

  /** The state after the timeline pass over `events`, routing each event in turn. */
  function Pass(st: TState, events: seq<TraceEvent>): (r: TState)
    requires Valid(st.threads)
    ensures Valid(r.threads)
  {
    if events == [] then st
    else
      var prev := Pass(st, events[..|events| - 1]);
      if IsTimelineRoute(events[|events| - 1]) then TimelineStep(prev, events[|events| - 1]) else prev
  }

  /** The user-timing events of `events`, in order. */
  function UserTimings(events: seq<TraceEvent>): seq<TraceEvent> {
    if events == [] then []
    else UserTimings(events[..|events| - 1])
         + if IsUserTimingRoute(events[|events| - 1]) then [events[|events| - 1]] else []
  }

  /** Routing event by event is folding the timeline events. */
  lemma {:induction false} PassIsFold(st: TState, events: seq<TraceEvent>)
    requires Valid(st.threads)
    ensures Pass(st, events) == TimelineFold(st, Filter(events, IsTimelineRoute))
    decreases |events|
  {
    if events != [] {
      var prefix := events[..|events| - 1];
      var ev := events[|events| - 1];
      assert events == prefix + [ev];
      PassIsFold(st, prefix);
      FilterSnoc(prefix, ev, IsTimelineRoute);
      var done := Filter(prefix, IsTimelineRoute);
      if IsTimelineRoute(ev) {
        FoldSnoc(st, done, ev);
        assert Filter(events, IsTimelineRoute) == done + [ev];
      } else {
        assert Filter(events, IsTimelineRoute) == done;
      }
    }
  }

  /** The user timings collected are the user-timing events, in order. */
  lemma {:induction false} UserTimingsFilter(events: seq<TraceEvent>)
    ensures UserTimings(events) == Filter(events, IsUserTimingRoute)
    decreases |events|
  {
    if events != [] {
      var prefix := events[..|events| - 1];
      var ev := events[|events| - 1];
      assert events == prefix + [ev];
      UserTimingsFilter(prefix);
      FilterSnoc(prefix, ev, IsUserTimingRoute);
    }
  }

  /** One more event of the pass. */
  lemma PassStep(st: TState, input: seq<TraceEvent>, i: nat)
    requires Valid(st.threads) && i < |input|
    ensures Pass(st, input[..i + 1])
      == if IsTimelineRoute(input[i]) then TimelineStep(Pass(st, input[..i]), input[i]) else Pass(st, input[..i])
    ensures UserTimings(input[..i + 1])
      == UserTimings(input[..i]) + if IsUserTimingRoute(input[i]) then [input[i]] else []
  {
    assert input[..i + 1][..i] == input[..i];
  }

  /** The whole pass: the fold of the timeline events, consistent from a consistent start,
      beside the user-timing events. */
  lemma PassWhole(st: TState, input: seq<TraceEvent>)
    requires Consistent(st)
    ensures Pass(st, input[..|input|]) == TimelineFold(st, Filter(input, IsTimelineRoute))
    ensures Consistent(Pass(st, input[..|input|]))
    ensures UserTimings(input[..|input|]) == Filter(input, IsUserTimingRoute)
  {
    assert input[..|input|] == input;
    PassIsFold(st, input);
    UserTimingsFilter(input);
    FoldConsistent(st, Filter(input, IsTimelineRoute));
  }

  /** The timeline fields of the trace object, updated event by event. */
  class TraceTimeline {
    var threadStack: map<Thread, seq<Frame>>
    var ignoreThreads: set<Thread>
    var threads: Dict<Thread, seq<string>>
    var eventIds: map<string, nat>
    var nameLookup: seq<string>
    var timelineEvents: seq<Frame>
    var startTime: Option<int>
    var endTime: Option<int>
    var mainThread: Option<Thread>
    var userTiming: seq<TraceEvent>

    function State(): TState
      reads this
    {
      TState(threadStack, ignoreThreads, threads, eventIds, nameLookup, timelineEvents,
             startTime, endTime, mainThread)
    }

    ghost predicate Valid()
      reads this
    {
      Consistent(State())
    }

    constructor()
      ensures Valid() && State() == Initial && userTiming == []
    {
      threadStack, ignoreThreads, threads, eventIds, nameLookup := map[], {}, Empty(), map[], [];
      timelineEvents, startTime, endTime, mainThread, userTiming := [], None, None, None, [];
      InitialConsistent();
    }

    /** Attaching a closed frame of thread `th` (the tail of ProcessTimelineTraceEvent). */
    method AttachFrame(th: Thread, f: Frame)
      requires Dicts.Valid(threads) && th in threadStack && f.e.Some?
      modifies this
      ensures State() == Attach(old(State()), th, f) && userTiming == old(userTiming)
    {
      if startTime.Some? && f.s >= startTime.value && f.e.value >= f.s {
        if endTime.None? || f.e.value > endTime.value {
          endTime := f.e;
        }
        var stack := threadStack[th];
        if |stack| > 0 {
          var parent := stack[|stack| - 1];
          threadStack := threadStack[th := stack[..|stack| - 1] + [parent.(c := parent.c + [f])]];
        } else {
          timelineEvents := timelineEvents + [f];
        }
      }
    }

    /** ProcessTimelineTraceEvent. */
    method ProcessTimelineTraceEvent(ev: TraceEvent)
      requires Dicts.Valid(threads)
      modifies this
      ensures State() == TimelineStep(old(State()), ev) && userTiming == old(userTiming)
      ensures old(Valid()) ==> Valid()
    {
      if Valid() {
        StepConsistent(State(), ev);
      }
      var dur := DetectMainThread(ev);
      RegisterEventThread(ev);
      BuildFrames(ev, dur);
    }

    /** The main-thread detection part of ProcessTimelineTraceEvent; returns the duration
        the rest of the handler uses. */
    method DetectMainThread(ev: TraceEvent) returns (dur: Option<int>)
      requires Dicts.Valid(threads)
      modifies this
      ensures (State(), dur) == DetectMain(old(State()), ev) && userTiming == old(userTiming)
    {
      var th := ThreadOf(ev);
      dur := ev.dur;
      if mainThread.None? && ev.name == "ResourceSendRequest" && DataUrl(ev).Some? {
        if StartsWith(DataUrl(ev).value, ReplayServer) {
          ignoreThreads := ignoreThreads + {th};
        } else {
          if th !in threads.vals {
            threads := Set(threads, th, []);
          }
          if startTime.None? || ev.ts < startTime.value {
            startTime := Some(ev.ts);
          }
          mainThread := Some(th);
          if dur.None? {
            dur := Some(1);
          }
        }
      }
    }

    /** The thread registration part of ProcessTimelineTraceEvent. */
    method RegisterEventThread(ev: TraceEvent)
      requires Dicts.Valid(threads)
      modifies this
      ensures State() == RegisterThread(old(State()), ev) && userTiming == old(userTiming)
    {
      var th := ThreadOf(ev);
      if mainThread.Some? && th !in threads.vals && th !in ignoreThreads && ev.name != "Program" {
        threads := Set(threads, th, []);
      }
    }

    /** The frame part of ProcessTimelineTraceEvent. */
    method BuildFrames(ev: TraceEvent, dur: Option<int>)
      requires Dicts.Valid(threads)
      modifies this
      ensures State() == FrameStep(old(State()), ev, dur) && userTiming == old(userTiming)
    {
      var th := ThreadOf(ev);
      if th in threads.vals && (dur.Some? || ev.ph == Begin || ev.ph == End) {
        var id := RegisterEventName(th, ev.name);
        StackWork(th, id, ev, dur);
      }
    }

    /** Registering the event's name on its thread; returns the name's id. */
    method RegisterEventName(th: Thread, name: string) returns (id: nat)
      requires Dicts.Valid(threads) && th in threads.vals
      modifies this
      ensures State() == RegisterName(old(State()), th, name) && userTiming == old(userTiming)
      ensures id == (if name in old(eventIds) then old(eventIds)[name] else old(|nameLookup|))
      ensures Dicts.Valid(threads) && th in threadStack
    {
      if name in eventIds {
        id := eventIds[name];
      } else {
        id := |nameLookup|;
        eventIds := eventIds[name := id];
        nameLookup := nameLookup + [name];
      }
      var names := threads.vals[th];
      if name !in names {
        threads := Set(threads, th, names + [name]);
      }
      if th !in threadStack {
        threadStack := threadStack[th := []];
      }
    }

    /** Pushing, popping and attaching frames for an event whose name has id `id`. */
    method StackWork(th: Thread, id: nat, ev: TraceEvent, dur: Option<int>)
      requires Dicts.Valid(threads) && th in threadStack
      requires ev.ph != End && ev.ph != Begin ==> dur.Some?
      modifies this
      ensures State() == Build(old(State()), th, id, ev, dur) && userTiming == old(userTiming)
    {
      var stack := threadStack[th];
      if ev.ph == End {
        if |stack| > 0 {
          var top := stack[|stack| - 1];
          threadStack := threadStack[th := stack[..|stack| - 1]];
          if top.n == id {
            AttachFrame(th, top.(e := Some(ev.ts)));
          }
        }
      } else {
        var f := Frame(th, id, ev.ts, None, JsOf(ev), []);
        if ev.ph == Begin {
          threadStack := threadStack[th := stack + [f]];
        } else {
          AttachFrame(th, f.(e := Some(ev.ts + dur.value)));
        }
      }
    }

    /** ProcessTraceEvent: a timeline event goes to ProcessTimelineTraceEvent, a user-timing
        event is collected, anything else is ignored. */
    method ProcessTraceEvent(ev: TraceEvent)
      requires Dicts.Valid(threads)
      modifies this
      ensures Dicts.Valid(threads)
      ensures RouteOf(ev) == ToTimeline ==> State() == TimelineStep(old(State()), ev)
      ensures RouteOf(ev) != ToTimeline ==> State() == old(State())
      ensures userTiming == old(userTiming) + if IsUserTimingRoute(ev) then [ev] else []
    {
      if RouteOf(ev) == ToTimeline {
        ProcessTimelineTraceEvent(ev);
      } else if RouteOf(ev) == ToUserTiming {
        userTiming := userTiming + [ev];
      }
    }

    /** ProcessTraceEvents: the kept events in timestamp order, each through ProcessTraceEvent. */
    method ProcessTraceEvents(events: seq<TraceEvent>)
      requires Valid()
      modifies this
      ensures Valid()
      ensures State() == TimelineFold(old(State()), Filter(TimelineInput(events), IsTimelineRoute))
      ensures userTiming == old(userTiming) + Filter(TimelineInput(events), IsUserTimingRoute)
    {
      var input := TimelineInput(events);
      PassWhole(State(), input);
      RouteEach(input);
    }

    /** The loop of ProcessTraceEvents over the sorted, kept events. */
    method RouteEach(input: seq<TraceEvent>)
      requires Dicts.Valid(threads)
      modifies this
      ensures State() == Pass(old(State()), input[..|input|])
      ensures userTiming == old(userTiming) + UserTimings(input[..|input|])
    {
      ghost var st0 := State();
      ghost var ut0 := userTiming;
      var i := 0;
      while i < |input|
        invariant 0 <= i <= |input|
        invariant Dicts.Valid(threads)
        invariant State() == Pass(st0, input[..i]) && userTiming == ut0 + UserTimings(input[..i])
      {
        PassStep(st0, input, i);
        ProcessTraceEvent(input[i]);
        i := i + 1;
      }
    }
  }
}
