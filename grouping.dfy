/** The Begin/End grouping shared by ProcessLoadingEvents, ProcessPaintingEvents and
    ProcessRenderingEvents: B and E events collect on a pending list until it balances,
    complete (X) events become groups of their own. */
module Grouping {
  import opened Events

  /** A group of load_list: the merged pair [first, last] (with what lay between, when there
      was something), or the one-event group of a complete event. */
  datatype Group =
    | Pair(first: TraceEvent, last: TraceEvent, inner: seq<TraceEvent>)
    | Single(ev: TraceEvent)

  /** Number of events of phase `p`. */
  function Count(s: seq<TraceEvent>, p: Phase): nat {
    if s == [] then 0 else Count(s[..|s| - 1], p) + (if s[|s| - 1].ph == p then 1 else 0)
  }

  /** Begins minus ends. */
  function Depth(s: seq<TraceEvent>): int {
    Count(s, Begin) - Count(s, End)
  }

  /** The depth of the first `k` events. */
  function PrefixDepth(s: seq<TraceEvent>, k: nat): int
    requires k <= |s|
  {
    Depth(s[..k])
  }

  /** is_balanced pops its stack on every E, which raises on an empty stack; no prefix may
      close more than it opened. */
  ghost predicate NoUnderflow(s: seq<TraceEvent>) {
    forall k :: 0 <= k <= |s| ==> PrefixDepth(s, k) >= 0
  }

  /** `is_balanced`: as many B as E. */
  method IsBalanced(events: seq<TraceEvent>) returns (balanced: bool)
    requires NoUnderflow(events)
    ensures balanced <==> Count(events, Begin) == Count(events, End)
  {
    var stack: seq<Phase> := [];
    for i := 0 to |events|
      invariant |stack| == Depth(events[..i])
    {
      assert events[..i + 1][..i] == events[..i];
      if events[i].ph == Begin {
        stack := stack + [Begin];
      } else if events[i].ph == End {
        assert PrefixDepth(events, i + 1) >= 0;
        stack := stack[..|stack| - 1];
      }
    }
    assert events[..|events|] == events;
    balanced := |stack| == 0;
  }

  /** `merge_events`: the first and last event as the group's pair, and the events between. */
  function MergeEvents(a: seq<TraceEvent>): (g: Group)
    requires |a| > 0
    ensures g.Pair? && g.first == a[0] && g.last == a[|a| - 1]
    ensures |a| >= 2 ==> Members(g) == a
  {
    Pair(a[0], a[|a| - 1], if |a| > 2 then a[1..|a| - 1] else [])
  }

  /** The events a pair group was merged from. */
  function Members(g: Group): seq<TraceEvent>
    requires g.Pair?
  {
    [g.first] + g.inner + [g.last]
  }

  /** A list that balances for the first time at its last event. */
  ghost predicate FirstBalanced(s: seq<TraceEvent>) {
    |s| >= 2 && Depth(s) == 0 && forall k :: 0 < k < |s| ==> PrefixDepth(s, k) > 0
  }

  /** The pending list: empty, or open at every nonempty prefix. */
  ghost predicate Open(s: seq<TraceEvent>) {
    forall k :: 0 < k <= |s| ==> PrefixDepth(s, k) > 0
  }

  /** The depth of the pending list after a prefix of the input: an E that arrives when
      nothing is pending is dropped. */
  function PendingDepth(s: seq<TraceEvent>): nat {
    if s == [] then 0 else DepthAfter(PendingDepth(s[..|s| - 1]), s[|s| - 1].ph)
  }

  /** The pending depth after one more event of phase `ph`. */
  function DepthAfter(d: nat, ph: Phase): nat {
    if ph == Begin then d + 1
    else if ph == End then (if d > 0 then d - 1 else 0)
    else d
  }

  /** The B and E events of the input that are not dropped, in order. */
  function KeptPairs(s: seq<TraceEvent>): seq<TraceEvent> {
    if s == [] then [] else KeptPairs(s[..|s| - 1]) + KeptOf(s[|s| - 1], PendingDepth(s[..|s| - 1]))
  }

  /** A B is kept, and so is an E that finds something pending. */
  function KeptOf(e: TraceEvent, d: nat): seq<TraceEvent> {
    if e.ph == Begin || (e.ph == End && d > 0) then [e] else []
  }

  /** The B and E events of the input. */
  function PairEvents(s: seq<TraceEvent>): seq<TraceEvent> {
    if s == [] then []
    else PairEvents(s[..|s| - 1]) + (if s[|s| - 1].ph in {Begin, End} then [s[|s| - 1]] else [])
  }

  /** The complete events that become groups; with `needDur` only those with a duration. */
  function Completes(s: seq<TraceEvent>, needDur: bool): seq<TraceEvent> {
    if s == [] then [] else Completes(s[..|s| - 1], needDur) + CompleteOf(s[|s| - 1], needDur)
  }

  function CompleteOf(e: TraceEvent, needDur: bool): seq<TraceEvent> {
    if e.ph == Complete && (!needDur || e.dur.Some?) then [e] else []
  }

  /** The members of the pair groups, concatenated in group order. */
  function PairMembers(groups: seq<Group>): seq<TraceEvent> {
    if groups == [] then [] else PairMembers(groups[..|groups| - 1]) + PairPart(groups[|groups| - 1])
  }

  function PairPart(g: Group): seq<TraceEvent> {
    if g.Pair? then Members(g) else []
  }

  /** The events of the one-event groups, in group order. */
  function SingleEvents(groups: seq<Group>): seq<TraceEvent> {
    if groups == [] then [] else SingleEvents(groups[..|groups| - 1]) + SinglePart(groups[|groups| - 1])
  }

  function SinglePart(g: Group): seq<TraceEvent> {
    if g.Single? then [g.ev] else []
  }

  ghost predicate TsSorted(s: seq<TraceEvent>) {
    forall i, j :: 0 <= i < j < |s| ==> s[i].ts <= s[j].ts
  }

  lemma DepthAppend(s: seq<TraceEvent>, e: TraceEvent)
    ensures (s + [e])[..|s|] == s
    ensures Depth(s + [e]) == Depth(s) + (if e.ph == Begin then 1 else if e.ph == End then -1 else 0)
  {
    assert (s + [e])[..|s|] == s;
  }

  /** Appending a B, or an E to a nonempty open list, keeps every prefix from underflowing;
      the result is either still open or balances for the first time. */
  lemma PushOpen(prev: seq<TraceEvent>, ev: TraceEvent)
    requires Open(prev)
    requires ev.ph == Begin || (ev.ph == End && |prev| > 0)
    ensures NoUnderflow(prev + [ev])
    ensures Depth(prev + [ev]) != 0 ==> Open(prev + [ev])
    ensures Depth(prev + [ev]) == 0 ==>
      FirstBalanced(prev + [ev]) && prev[0].ph == Begin && ev.ph == End
  {
    var p := prev + [ev];
    DepthAppend(prev, ev);
    if |prev| > 0 {
      assert prev[..|prev|] == prev;
      assert PrefixDepth(prev, |prev|) == Depth(prev) > 0;
    }
    forall k | 0 < k <= |prev|
      ensures PrefixDepth(p, k) > 0
    {
      assert p[..k] == prev[..k];
      assert PrefixDepth(prev, k) > 0;
    }
    assert p[..0] == [];
    assert PrefixDepth(p, 0) == 0;
    assert p[..|p|] == p;
    assert PrefixDepth(p, |p|) == Depth(p) >= 0;
    if Depth(p) == 0 {
      assert |prev| > 0;
      assert PrefixDepth(prev, 1) > 0;
      assert prev[..1] == [] + [prev[0]];
      DepthAppend([], prev[0]);
      assert Depth([] + [prev[0]]) == Depth(prev[..1]) == PrefixDepth(prev, 1);
    }
  }

  /** One more input event: how the kept list grows. */
  lemma KeptStep(s: seq<TraceEvent>, ev: TraceEvent)
    ensures KeptPairs(s + [ev]) == KeptPairs(s) + KeptOf(ev, PendingDepth(s))
  {
    assert (s + [ev])[..|s|] == s;
  }

  /** One more input event: how the pending depth moves. */
  lemma DepthStep(s: seq<TraceEvent>, ev: TraceEvent)
    ensures PendingDepth(s + [ev]) == DepthAfter(PendingDepth(s), ev.ph)
  {
    assert (s + [ev])[..|s|] == s;
  }

  /** One more input event: how the complete events grow. */
  lemma CompletesStep(s: seq<TraceEvent>, ev: TraceEvent, needDur: bool)
    ensures Completes(s + [ev], needDur) == Completes(s, needDur) + CompleteOf(ev, needDur)
  {
    assert (s + [ev])[..|s|] == s;
  }

  /** One more group: how the pair members grow. */
  lemma PairsStep(groups: seq<Group>, g: Group)
    ensures PairMembers(groups + [g]) == PairMembers(groups) + PairPart(g)
  {
    assert (groups + [g])[..|groups|] == groups;
  }

  /** One more group: how the single events grow. */
  lemma SinglesStep(groups: seq<Group>, g: Group)
    ensures SingleEvents(groups + [g]) == SingleEvents(groups) + SinglePart(g)
  {
    assert (groups + [g])[..|groups|] == groups;
  }

  /** What every emitted group satisfies: a pair group balances first at its last event,
      opens with a B and closes with an E (not before it opens, on time-ordered input); a
      one-event group holds a complete event. */
  ghost predicate GroupsOk(groups: seq<Group>, sorted: bool) {
    forall g :: g in groups ==>
      if g.Pair? then
        FirstBalanced(Members(g)) && g.first.ph == Begin && g.last.ph == End
        && (sorted ==> g.first.ts <= g.last.ts)
      else g.ev.ph == Complete
  }

  /** One iteration of the grouping loop on the groups so far and the pending list. */
  ghost function Next(groups: seq<Group>, pending: seq<TraceEvent>, ev: TraceEvent, needDur: bool)
    : (seq<Group>, seq<TraceEvent>)
  {
    if ev.ph == Begin || ev.ph == End then
      if ev.ph == End && pending == [] then (groups, pending)
      else Push(groups, pending + [ev])
    else if ev.ph == Complete && (!needDur || ev.dur.Some?) then (groups + [Single(ev)], pending)
    else (groups, pending)
  }

  /** A pending list that balances becomes a merged group; otherwise it stays pending. */
  ghost function Push(groups: seq<Group>, p: seq<TraceEvent>): (seq<Group>, seq<TraceEvent>)
    requires |p| > 0
  {
    if Depth(p) == 0 then (groups + [MergeEvents(p)], []) else (groups, p)
  }

  /** The loop invariant of GroupBeginEnd after the input prefix `s`. */
  ghost predicate Inv(s: seq<TraceEvent>, groups: seq<Group>, pending: seq<TraceEvent>,
                      needDur: bool, sorted: bool)
  {
    && PairMembers(groups) + pending == KeptPairs(s)
    && SingleEvents(groups) == Completes(s, needDur)
    && GroupsOk(groups, sorted)
    && Open(pending)
    && Depth(pending) == PendingDepth(s)
    && (|pending| > 0 ==> pending[0] in s)
  }

  lemma NextKeepsInv(s: seq<TraceEvent>, groups: seq<Group>, pending: seq<TraceEvent>,
                      ev: TraceEvent, needDur: bool, sorted: bool)
    requires Inv(s, groups, pending, needDur, sorted)
    requires sorted ==> forall e :: e in s ==> e.ts <= ev.ts
    ensures Inv(s + [ev], Next(groups, pending, ev, needDur).0, Next(groups, pending, ev, needDur).1,
                needDur, sorted)
  {
    if (ev.ph == Begin || ev.ph == End) && !(ev.ph == End && pending == []) {
      PushKeepsInv(s, groups, pending, ev, needDur, sorted);
    } else if ev.ph == Complete && (!needDur || ev.dur.Some?) {
      assert Next(groups, pending, ev, needDur) == (groups + [Single(ev)], pending);
      SingleKeepsInv(s, groups, pending, ev, needDur, sorted);
    } else {
      assert Next(groups, pending, ev, needDur) == (groups, pending);
      KeptStep(s, ev);
      DepthStep(s, ev);
      CompletesStep(s, ev, needDur);
    }
  }

  /** The case of a complete event: it becomes a group of its own. */
  lemma SingleKeepsInv(s: seq<TraceEvent>, groups: seq<Group>, pending: seq<TraceEvent>,
                       ev: TraceEvent, needDur: bool, sorted: bool)
    requires Inv(s, groups, pending, needDur, sorted)
    requires ev.ph == Complete && (!needDur || ev.dur.Some?)
    ensures Inv(s + [ev], groups + [Single(ev)], pending, needDur, sorted)
  {
    SingleLists(s, groups, pending, ev, needDur);
    GroupsOkAppend(groups, Single(ev), sorted);
  }

  /** A complete event adds nothing to the kept list and one group to the single events. */
  lemma SingleLists(s: seq<TraceEvent>, groups: seq<Group>, pending: seq<TraceEvent>,
                    ev: TraceEvent, needDur: bool)
    requires PairMembers(groups) + pending == KeptPairs(s)
    requires SingleEvents(groups) == Completes(s, needDur)
    requires ev.ph == Complete && (!needDur || ev.dur.Some?)
    ensures PairMembers(groups + [Single(ev)]) + pending == KeptPairs(s + [ev])
    ensures SingleEvents(groups + [Single(ev)]) == Completes(s + [ev], needDur)
    ensures PendingDepth(s + [ev]) == PendingDepth(s)
  {
    SingleKept(s, groups, ev);
    SingleCompletes(s, groups, ev, needDur);
    DepthStep(s, ev);
  }

  lemma SingleKept(s: seq<TraceEvent>, groups: seq<Group>, ev: TraceEvent)
    requires ev.ph == Complete
    ensures KeptPairs(s + [ev]) == KeptPairs(s)
    ensures PairMembers(groups + [Single(ev)]) == PairMembers(groups)
  {
    KeptStep(s, ev);
    PairsStep(groups, Single(ev));
    assert KeptOf(ev, PendingDepth(s)) == [];
    assert PairPart(Single(ev)) == [];
  }

  lemma SingleCompletes(s: seq<TraceEvent>, groups: seq<Group>, ev: TraceEvent, needDur: bool)
    requires ev.ph == Complete && (!needDur || ev.dur.Some?)
    ensures Completes(s + [ev], needDur) == Completes(s, needDur) + [ev]
    ensures SingleEvents(groups + [Single(ev)]) == SingleEvents(groups) + [ev]
  {
    CompletesStep(s, ev, needDur);
    SinglesStep(groups, Single(ev));
    assert CompleteOf(ev, needDur) == [ev];
    assert SinglePart(Single(ev)) == [ev];
  }

  /** The case of a B or E that joins the pending list. */
  lemma PushKeepsInv(s: seq<TraceEvent>, groups: seq<Group>, pending: seq<TraceEvent>,
                     ev: TraceEvent, needDur: bool, sorted: bool)
    requires Inv(s, groups, pending, needDur, sorted)
    requires sorted ==> forall e :: e in s ==> e.ts <= ev.ts
    requires ev.ph == Begin || (ev.ph == End && pending != [])
    ensures Inv(s + [ev], Next(groups, pending, ev, needDur).0, Next(groups, pending, ev, needDur).1,
                needDur, sorted)
  {
    var p := pending + [ev];
    assert Next(groups, pending, ev, needDur) == Push(groups, p);
    PushLists(s, pending, ev, needDur);
    PushOpen(pending, ev);
    if Depth(p) == 0 {
      CloseKeepsInv(s, groups, pending, ev, needDur, sorted);
    } else {
      OpenKeepsInv(s, groups, pending, ev, needDur, sorted);
    }
  }

  /** A B, or an E while something is pending, is kept and moves the pending depth with the
      pending list's own depth. */
  lemma PushLists(s: seq<TraceEvent>, pending: seq<TraceEvent>, ev: TraceEvent, needDur: bool)
    requires Open(pending) && Depth(pending) == PendingDepth(s)
    requires ev.ph == Begin || (ev.ph == End && pending != [])
    ensures KeptPairs(s + [ev]) == KeptPairs(s) + [ev]
    ensures Completes(s + [ev], needDur) == Completes(s, needDur)
    ensures PendingDepth(s + [ev]) == Depth(pending + [ev])
  {
    KeptStep(s, ev);
    DepthStep(s, ev);
    CompletesStep(s, ev, needDur);
    DepthAppend(pending, ev);
    assert CompleteOf(ev, needDur) == [];
    if pending != [] {
      assert pending[..|pending|] == pending;
      assert PrefixDepth(pending, |pending|) == PendingDepth(s) > 0;
    }
    assert KeptOf(ev, PendingDepth(s)) == [ev];
  }

  /** The case of a B or E that leaves the pending list open. */
  lemma OpenKeepsInv(s: seq<TraceEvent>, groups: seq<Group>, pending: seq<TraceEvent>,
                     ev: TraceEvent, needDur: bool, sorted: bool)
    requires Inv(s, groups, pending, needDur, sorted)
    requires KeptPairs(s + [ev]) == KeptPairs(s) + [ev]
    requires Completes(s + [ev], needDur) == Completes(s, needDur)
    requires Open(pending + [ev]) && Depth(pending + [ev]) == PendingDepth(s + [ev])
    ensures Inv(s + [ev], groups, pending + [ev], needDur, sorted)
  {
    AppendLast(PairMembers(groups), pending, KeptPairs(s), ev);
    assert pending == [] || (pending + [ev])[0] == pending[0];
  }

  /** The case of an E that balances the pending list: it becomes a merged group. */
  lemma CloseKeepsInv(s: seq<TraceEvent>, groups: seq<Group>, pending: seq<TraceEvent>,
                      ev: TraceEvent, needDur: bool, sorted: bool)
    requires Inv(s, groups, pending, needDur, sorted)
    requires sorted ==> forall e :: e in s ==> e.ts <= ev.ts
    requires KeptPairs(s + [ev]) == KeptPairs(s) + [ev]
    requires PendingDepth(s + [ev]) == 0 && Completes(s + [ev], needDur) == Completes(s, needDur)
    requires FirstBalanced(pending + [ev]) && pending[0].ph == Begin && ev.ph == End
    ensures Inv(s + [ev], groups + [MergeEvents(pending + [ev])], [], needDur, sorted)
  {
    var g := MergeEvents(pending + [ev]);
    CloseLists(groups, pending, ev, KeptPairs(s));
    assert sorted ==> g.first.ts <= g.last.ts;
    GroupsOkAppend(groups, g, sorted);
  }

  /** Closing the pending list moves its events into the new group's members. */
  lemma CloseLists(groups: seq<Group>, pending: seq<TraceEvent>, ev: TraceEvent,
                   kept: seq<TraceEvent>)
    requires PairMembers(groups) + pending == kept && |pending| > 0
    ensures PairMembers(groups + [MergeEvents(pending + [ev])]) == kept + [ev]
    ensures SingleEvents(groups + [MergeEvents(pending + [ev])]) == SingleEvents(groups)
  {
    var g := MergeEvents(pending + [ev]);
    assert Members(g) == pending + [ev];
    PairsStep(groups, g);
    SinglesStep(groups, g);
    assert PairPart(g) == pending + [ev] && SinglePart(g) == [];
    AppendLast(PairMembers(groups), pending, kept, ev);
  }

  lemma AppendLast(a: seq<TraceEvent>, b: seq<TraceEvent>, k: seq<TraceEvent>, e: TraceEvent)
    requires a + b == k
    ensures a + (b + [e]) == k + [e]
  {
  }

  lemma GroupsOkAppend(groups: seq<Group>, g: Group, sorted: bool)
    requires GroupsOk(groups, sorted)
    requires g.Pair? ==>
      FirstBalanced(Members(g)) && g.first.ph == Begin && g.last.ph == End
      && (sorted ==> g.first.ts <= g.last.ts)
    requires g.Single? ==> g.ev.ph == Complete
    ensures GroupsOk(groups + [g], sorted)
  {
  }

  /** The body of the grouping loop for one event: a B joins the pending list, an E joins
      it unless nothing is pending (the source only warns), and a pending list that
      balances becomes a merged group; a complete event becomes a group of its own. */
  method GroupStep(groups: seq<Group>, pending: seq<TraceEvent>, ev: TraceEvent, needDur: bool)
    returns (groups': seq<Group>, pending': seq<TraceEvent>)
    requires Open(pending)
    ensures (groups', pending') == Next(groups, pending, ev, needDur)
  {
    groups', pending' := groups, pending;
    if ev.ph == Begin || ev.ph == End {
      if ev.ph == End && |pending| == 0 {
        return;
      }
      PushOpen(pending, ev);
      pending' := pending + [ev];
      var bal := IsBalanced(pending');
      if bal {
        groups' := groups + [MergeEvents(pending')];
        pending' := [];
      }
    } else if ev.ph == Complete && (!needDur || ev.dur.Some?) {
      groups' := groups + [Single(ev)];
    }
  }

  /** The groups and the pending list after the grouping loop has seen `s`. */
  ghost function GroupsOf(s: seq<TraceEvent>, needDur: bool): (seq<Group>, seq<TraceEvent>)
  {
    if s == [] then ([], [])
    else Next(GroupsOf(s[..|s| - 1], needDur).0, GroupsOf(s[..|s| - 1], needDur).1, s[|s| - 1], needDur)
  }

  /** Everything the loop invariant says holds of the fold. */
  lemma {:induction false} GroupsOfInv(s: seq<TraceEvent>, needDur: bool, sorted: bool)
    requires sorted ==> TsSorted(s)
    ensures Inv(s, GroupsOf(s, needDur).0, GroupsOf(s, needDur).1, needDur, sorted)
  {
    if s != [] {
      var init := s[..|s| - 1];
      var ev := s[|s| - 1];
      assert s == init + [ev];
      GroupsOfInv(init, needDur, sorted);
      if sorted {
        forall e | e in init
          ensures e.ts <= ev.ts
        {
          var j :| 0 <= j < |init| && init[j] == e;
          assert s[j] == e;
        }
      }
      NextKeepsInv(init, GroupsOf(init, needDur).0, GroupsOf(init, needDur).1, ev, needDur, sorted);
    }
  }

  /** The grouping loop of ProcessLoadingEvents (and of the painting and rendering
      extractors): `needDur` is the rendering extractor's rule that a complete event
      without a duration is skipped. The B and E events that are kept, minus the
      unbalanced rest `pending` that the source discards, are exactly the members of the
      pair groups, each of which balances first at its last event; the complete events are
      exactly the one-event groups. */
  method GroupBeginEnd(events: seq<TraceEvent>, needDur: bool)
    returns (groups: seq<Group>, pending: seq<TraceEvent>)
    ensures (groups, pending) == GroupsOf(events, needDur)
    ensures PairMembers(groups) + pending == KeptPairs(events)
    ensures SingleEvents(groups) == Completes(events, needDur)
    ensures GroupsOk(groups, TsSorted(events))
    ensures Depth(pending) == PendingDepth(events)
  {
    groups, pending := [], [];
    for i := 0 to |events|
      invariant (groups, pending) == GroupsOf(events[..i], needDur)
    {
      GroupsOfInv(events[..i], needDur, false);
      assert events[..i + 1][..i] == events[..i];
      groups, pending := GroupStep(groups, pending, events[i], needDur);
    }
    assert events[..|events|] == events;
    GroupsOfInv(events, needDur, TsSorted(events));
  }

  /** On a stream that never closes more than it opened, no E is dropped: the kept events
      are all the B and E events, and the pending depth is the plain depth. With a balanced
      stream, then, every B and E ends up in a merged group. */
  lemma {:induction false} NoDropWhenNested(s: seq<TraceEvent>)
    requires NoUnderflow(s)
    ensures KeptPairs(s) == PairEvents(s)
    ensures PendingDepth(s) == Depth(s)
  {
    if s != [] {
      var init := s[..|s| - 1];
      forall k | 0 <= k <= |init|
        ensures PrefixDepth(init, k) >= 0
      {
        assert init[..k] == s[..k];
        assert PrefixDepth(s, k) >= 0;
      }
      NoDropWhenNested(init);
      assert s == init + [s[|s| - 1]];
      DepthAppend(init, s[|s| - 1]);
      assert s[..|s|] == s;
      assert PrefixDepth(s, |s|) >= 0;
    }
  }
}
