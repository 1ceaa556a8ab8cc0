/** The CPU-slice arithmetic of ProcessTimelineEvents, ProcessTimelineEvent and
    AdjustTimelineSlice: the slice width, the share of a frame in each slice, and the
    per-slice update of one thread's rows. */
module Slices {
  import opened Wrappers
  import opened Dicts

  /** The most slices a trace is cut into before the width grows tenfold. */
  const MaxSlices: nat := 2000

  /** The row that sums all names of a thread. */
  const Total: string := "total"

  function Pow10(e: nat): (r: nat)
    ensures r >= 1
  {
    if e == 0 then 1 else 10 * Pow10(e - 1)
  }

  /** `int(math.ceil(a / b))` for a non-negative numerator. */
  function CeilDiv(a: nat, b: nat): nat
    requires b > 0
  {
    (a + b - 1) / b
  }

  /** `CeilDiv(a, b)` is the least number of width-`b` slices covering `a`. */
  lemma CeilDivLeast(a: nat, b: nat)
    requires b > 0
    ensures CeilDiv(a, b) * b >= a
    ensures CeilDiv(a, b) == 0 || (CeilDiv(a, b) - 1) * b < a
  {
    var q := (a + b - 1) / b;
    assert q * b <= a + b - 1 < q * b + b;
  }

  lemma CeilDivAtMost(a: nat, b: nat)
    requires b > 0
    ensures CeilDiv(a, b) <= a
  {
    var c := CeilDiv(a, b);
    CeilDivLeast(a, b);
    if c > a {
      MulMono(a, c - 1, b);
      MulMono(1, b, a);
      assert false;
    }
  }

  /** Ten times wider slices mean fewer of them, once there are more than one. */
  lemma CeilDivShrinks(a: nat, p: nat)
    requires p > 0 && CeilDiv(a, p) > 1
    ensures CeilDiv(a, 10 * p) < CeilDiv(a, p)
  {
    var c := CeilDiv(a, p);
    var c' := CeilDiv(a, 10 * p);
    CeilDivLeast(a, p);
    CeilDivLeast(a, 10 * p);
    if c' >= c {
      assert (c' - 1) * (10 * p) < a;
      MulMono(c - 1, c' - 1, 10 * p);
      Tenfold(c, p);
      assert false;
    }
  }

  /** `(c - 1)` slices of ten times the width cover more than `c` slices of the width. */
  lemma Tenfold(c: nat, p: nat)
    requires c > 1
    ensures (c - 1) * (10 * p) >= c * p
  {
    calc {
      (c - 1) * (10 * p);
    ==
      (10 * c - 10) * p;
    ==
      c * p + (9 * c - 10) * p;
    >= { MulMono(0, 9 * c - 10, p); }
      c * p;
    }
  }

  /** The slice width: the trace span is cut into slices whose width is a power of ten, one
      microsecond when the span is at most 2000 us, and otherwise the width just below the
      first power of ten that gives at most 2000 slices. */
  method SliceUsecs(total: nat) returns (sliceUsecs: nat, sliceCount: nat)
    ensures exists e :: 0 <= e <= total && sliceUsecs == Pow10(e)
    ensures sliceUsecs > 0 && sliceCount == CeilDiv(total, sliceUsecs)
    ensures total <= MaxSlices ==> sliceUsecs == 1
    ensures total > MaxSlices ==> sliceCount > MaxSlices && CeilDiv(total, 10 * sliceUsecs) <= MaxSlices
  {
    var exp: nat := 0;
    var lastExp: nat := 0;
    var count := total;
    assert CeilDiv(total, Pow10(0)) == total by { CeilDivLeast(total, 1); }
    while count > MaxSlices
      invariant count == CeilDiv(total, Pow10(exp))
      invariant exp == 0 ==> lastExp == 0
      invariant exp > 0 ==> lastExp == exp - 1 && CeilDiv(total, Pow10(lastExp)) > MaxSlices
      invariant exp <= total
      invariant exp > 0 ==> total > MaxSlices
      decreases count
    {
      CeilDivAtMost(total, Pow10(exp));
      CeilDivShrinks(total, Pow10(exp));
      PowBelow(total, exp);
      lastExp := exp;
      exp := exp + 1;
      count := CeilDiv(total, Pow10(exp));
    }
    sliceUsecs := Pow10(lastExp);
    sliceCount := CeilDiv(total, sliceUsecs);
    assert 0 <= lastExp <= total && sliceUsecs == Pow10(lastExp);
    if total > MaxSlices {
      assert exp > 0 && Pow10(exp) == 10 * sliceUsecs;
    }
  }

  /** What SliceUsecs promises of the width it picks for a span of `total` microseconds. */
  ghost predicate IsSliceWidth(total: nat, su: nat) {
    && (exists e :: 0 <= e <= total && su == Pow10(e))
    && su > 0
    && (total <= MaxSlices ==> su == 1)
    && (total > MaxSlices ==> CeilDiv(total, su) > MaxSlices && CeilDiv(total, 10 * su) <= MaxSlices)
  }

  /** While more than 2000 slices remain, the exponent stays below the span. */
  lemma PowBelow(total: nat, exp: nat)
    requires CeilDiv(total, Pow10(exp)) > MaxSlices
    ensures exp + 1 <= total
  {
    PowAtLeast(exp);
    var p := Pow10(exp);
    CeilDivLeast(total, p);
    MulMono(1, CeilDiv(total, p) - 1, p);
  }

  lemma {:induction false} PowAtLeast(e: nat)
    ensures Pow10(e) >= e + 1
  {
    if e > 0 {
      PowAtLeast(e - 1);
    }
  }

  function Min(a: int, b: int): int { if a < b then a else b }
  function Max(a: int, b: int): int { if a > b then a else b }
  function RMin(a: real, b: real): real { if a < b then a else b }
  function RMax(a: real, b: real): real { if a > b then a else b }

  /** The microseconds of [start, end) that fall in slice `j`. */
  function SliceElapsed(j: int, su: nat, start: int, end: int): int {
    Min((j + 1) * su, end) - Max(j * su, start)
  }

  /** Every slice from the first to the last one the frame touches gets between 0 and a
      full slice width. */
  lemma ElapsedBounds(j: int, su: nat, start: nat, end: nat)
    requires su > 0 && start < end && start / su <= j <= end / su
    ensures 0 <= SliceElapsed(j, su, start, end) <= su
  {
    DivBounds(start, su);
    DivBounds(end, su);
    assert (start / su) * su <= j * su by { MulMono(start / su, j, su); }
    assert j * su <= (end / su) * su by { MulMono(j, end / su, su); }
  }

  lemma DivBounds(a: nat, su: nat)
    requires su > 0
    ensures (a / su) * su <= a < (a / su) * su + su
  {
  }

  lemma MulMono(a: int, b: int, su: nat)
    requires a <= b
    ensures a * su <= b * su
  {
  }

  /** The elapsed times of slices `first` through `k`. */
  function ElapsedSum(first: int, k: int, su: nat, start: int, end: int): int
    decreases k - first
  {
    if k < first then 0 else ElapsedSum(first, k - 1, su, start, end) + SliceElapsed(k, su, start, end)
  }

  /** The elapsed times of a frame's slices add up to its span. */
  lemma ElapsedSumIsSpan(su: nat, start: nat, end: nat)
    requires su > 0 && start < end
    ensures ElapsedSum(start / su, end / su, su, start, end) == end - start
  {
    var last := end / su;
    DivBounds(start, su);
    DivBounds(end, su);
    MulMono(start / su, last, su);
    ElapsedPrefix(last, last, su, start, end);
    assert (last + 1) * su == last * su + su;
  }

  lemma {:induction false} ElapsedPrefix(k: int, last: int, su: nat, start: nat, end: nat)
    requires su > 0 && start < end && last == end / su
    requires start / su <= k <= last
    ensures ElapsedSum(start / su, k, su, start, end) == Min((k + 1) * su, end) - start
    decreases k - start / su
  {
    var first := start / su;
    DivBounds(start, su);
    DivBounds(end, su);
    if k == first {
      assert ElapsedSum(first, k - 1, su, start, end) == 0;
    } else {
      ElapsedPrefix(k - 1, last, su, start, end);
      MulMono(first + 1, k, su);
      MulMono(k, last, su);
      assert (first + 1) * su == first * su + su;
      assert (k - 1 + 1) * su == k * su;
    }
  }

  // ---------------------------------------------------------------------------------------
  // One thread's rows: `total` first, then one row per event name, each with one cell per
  // slice holding the busy fraction of that slice.

  type Table = Dict<string, seq<real>>

  predicate HasCell(tab: Table, key: string, i: nat) {
    key in tab.vals && i < |tab.vals[key]|
  }

  /** Every key listed has a cell at slice `i`. */
  predicate Covers(tab: Table, keys: seq<string>, i: nat) {
    forall j :: 0 <= j < |keys| ==> HasCell(tab, keys[j], i)
  }

  /** The total row first, and every row with one cell per slice. */
  ghost predicate Shaped(tab: Table, count: nat) {
    && Valid(tab) && Total in tab.vals && |tab.keys| > 0 && tab.keys[0] == Total
    && forall k :: k in tab.vals ==> |tab.vals[k]| == count
  }

  /** Every cell holds a fraction of a slice. */
  ghost predicate InUnit(tab: Table) {
    forall k, j :: k in tab.vals && 0 <= j < |tab.vals[k]| ==> 0.0 <= tab.vals[k][j] <= 1.0
  }

  /** Cells of slice `i` are non-negative. */
  ghost predicate NonNegAt(tab: Table, i: nat) {
    forall k :: k in tab.vals && i < |tab.vals[k]| ==> 0.0 <= tab.vals[k][i]
  }

  /** The same rows, the same lengths, and every cell outside slice `i` unchanged. */
  ghost predicate SameBut(tab: Table, r: Table, i: nat) {
    && r.keys == tab.keys && r.vals.Keys == tab.vals.Keys
    && (forall k :: k in r.vals ==> |r.vals[k]| == |tab.vals[k]|)
    && (forall k, j :: k in r.vals && 0 <= j < |r.vals[k]| && j != i ==> r.vals[k][j] == tab.vals[k][j])
  }

  function SetCell(tab: Table, key: string, i: nat, v: real): (r: Table)
    requires Valid(tab) && HasCell(tab, key, i)
    ensures Valid(r) && SameBut(tab, r, i)
    ensures r.vals[key][i] == v
    ensures forall k :: k in r.vals && k != key ==> r.vals[k] == tab.vals[k]
  {
    Set(tab, key, tab.vals[key][i := v])
  }

  /** The fraction of a slice that `elapsed` microseconds fill, at most one. */
  function Fraction(elapsed: int, su: nat): (r: real)
    requires su > 0
    ensures r <= 1.0
    ensures 0 <= elapsed ==> 0.0 <= r
  {
    RMin(1.0, elapsed as real / su as real)
  }

  /** The rows named in `keys`, other than `name` and the total, summed at slice `i`. */
  function OthersAt(keys: seq<string>, tab: Table, i: nat, name: string): real
    requires Covers(tab, keys, i)
  {
    if keys == [] then 0.0
    else (if keys[0] == name || keys[0] == Total then 0.0 else tab.vals[keys[0]][i])
         + OthersAt(keys[1..], tab, i, name)
  }

  /** The rebalancing loop of AdjustTimelineSlice, as intended: walking the rows in order,
      every row other than the event's own and the total is cut down to what is still
      available of the slice, and uses that up. Returns the rows and what is left. */
  function Rebalance(tab: Table, keys: seq<string>, i: nat, name: string, avail: real): (r: (Table, real))
    requires Valid(tab) && Covers(tab, keys, i)
    ensures Valid(r.0) && SameBut(tab, r.0, i)
    ensures forall k :: k in r.0.vals && (k !in keys || k == name || k == Total) ==> r.0.vals[k] == tab.vals[k]
    ensures forall j :: 0 <= j < |keys| && keys[j] != name && keys[j] != Total ==>
      r.0.vals[keys[j]][i] <= tab.vals[keys[j]][i]
    ensures 0.0 <= avail && NonNegAt(tab, i) ==> 0.0 <= r.1 <= avail && NonNegAt(r.0, i)
    decreases |keys|
  {
    if keys == [] then (tab, avail)
    else if keys[0] == name || keys[0] == Total then Rebalance(tab, keys[1..], i, name, avail)
    else Rebalance(SetCell(tab, keys[0], i, RMin(tab.vals[keys[0]][i], avail)), keys[1..], i, name,
                   RMax(0.0, avail - RMin(tab.vals[keys[0]][i], avail)))
  }

  /** What the rebalancing keeps plus what is left is what was available: the other rows
      share at most the part of the slice the event does not fill. */
  lemma {:induction false} RebalanceShares(tab: Table, keys: seq<string>, i: nat, name: string, avail: real)
    requires Valid(tab) && Covers(tab, keys, i)
    requires Distinct(keys) && 0.0 <= avail && NonNegAt(tab, i)
    ensures var r := Rebalance(tab, keys, i, name, avail);
      OthersAt(keys, r.0, i, name) + r.1 == avail
    decreases |keys|, 1
  {
    if keys != [] {
      if keys[0] == name || keys[0] == Total {
        RebalanceShares(tab, keys[1..], i, name, avail);
      } else {
        SharesCut(tab, keys, i, name, avail);
      }
    }
  }

  /** The step of `RebalanceShares` for a row that is cut. */
  lemma {:induction false} SharesCut(tab: Table, keys: seq<string>, i: nat, name: string, avail: real)
    requires Valid(tab) && Covers(tab, keys, i)
    requires Distinct(keys) && 0.0 <= avail && NonNegAt(tab, i)
    requires keys != [] && keys[0] != name && keys[0] != Total
    ensures var r := Rebalance(tab, keys, i, name, avail);
      OthersAt(keys, r.0, i, name) + r.1 == avail
    decreases |keys|, 0
  {
    var k := keys[0];
    assert k !in keys[1..];
    var v := RMin(tab.vals[k][i], avail);
    var tab1 := SetCell(tab, k, i, v);
    RebalanceCut(tab, keys, i, name, avail);
    assert RMax(0.0, avail - v) == avail - v;
    assert NonNegAt(tab1, i);
    RebalanceShares(tab1, keys[1..], i, name, avail - v);
    var r := Rebalance(tab1, keys[1..], i, name, avail - v);
    assert Rebalance(tab, keys, i, name, avail) == r;
    var rest := OthersAt(keys[1..], r.0, i, name);
    assert rest + r.1 == avail - v;
    assert r.0.vals[k] == tab1.vals[k];
    assert OthersAt(keys, r.0, i, name) == v + rest;
  }

  /** The first row walked, when it is neither the event's own nor the total, is cut to what
      is available, and the rest walk on with what is left. */
  lemma RebalanceCut(tab: Table, keys: seq<string>, i: nat, name: string, avail: real)
    requires Valid(tab) && Covers(tab, keys, i)
    requires keys != [] && keys[0] != name && keys[0] != Total
    ensures var v := RMin(tab.vals[keys[0]][i], avail);
      Rebalance(tab, keys, i, name, avail)
      == Rebalance(SetCell(tab, keys[0], i, v), keys[1..], i, name, RMax(0.0, avail - v))
  {
  }

  /** The rebalancing loop as the source writes it: only the event's own row is skipped, so
      the total row, which comes first, is walked as well. */
  function RebalanceAsWritten(tab: Table, keys: seq<string>, i: nat, name: string, avail: real): (r: (Table, real))
    requires Valid(tab) && Covers(tab, keys, i)
    ensures Valid(r.0) && SameBut(tab, r.0, i)
    ensures forall k :: k in r.0.vals && (k !in keys || k == name) ==> r.0.vals[k] == tab.vals[k]
    ensures forall j :: 0 <= j < |keys| && keys[j] != name ==> r.0.vals[keys[j]][i] <= tab.vals[keys[j]][i]
    ensures 0.0 <= avail && NonNegAt(tab, i) ==> 0.0 <= r.1 <= avail && NonNegAt(r.0, i)
    decreases |keys|
  {
    if keys == [] then (tab, avail)
    else if keys[0] == name then RebalanceAsWritten(tab, keys[1..], i, name, avail)
    else RebalanceAsWritten(SetCell(tab, keys[0], i, RMin(tab.vals[keys[0]][i], avail)), keys[1..], i, name,
                            RMax(0.0, avail - RMin(tab.vals[keys[0]][i], avail)))
  }

  /** As written, the total row comes first and holds more than is available (it has
      overflowed past a whole slice), so walking it uses up everything available: every
      other row of the event's thread is then cut to nothing at this slice. */
  lemma RebalanceAsWrittenDropsRows(tab: Table, i: nat, name: string, avail: real)
    requires Valid(tab) && Covers(tab, tab.keys, i) && NonNegAt(tab, i)
    requires |tab.keys| > 0 && tab.keys[0] == Total && name != Total
    requires 0.0 <= avail <= tab.vals[Total][i]
    ensures forall j :: 0 <= j < |tab.keys| && tab.keys[j] != name && tab.keys[j] != Total ==>
      RebalanceAsWritten(tab, tab.keys, i, name, avail).0.vals[tab.keys[j]][i] == 0.0
    ensures RebalanceAsWritten(tab, tab.keys, i, name, avail).1 == 0.0
  {
    var t1 := SetCell(tab, Total, i, avail);
    assert RMin(tab.vals[Total][i], avail) == avail && RMax(0.0, avail - avail) == 0.0;
    assert RebalanceAsWritten(tab, tab.keys, i, name, avail) == RebalanceAsWritten(t1, tab.keys[1..], i, name, 0.0);
    assert NonNegAt(t1, i);
    AsWrittenZero(t1, tab.keys[1..], i, name);
    ZeroShift(RebalanceAsWritten(t1, tab.keys[1..], i, name, 0.0).0, tab.keys, i, name, Total);
  }

  /** With nothing left available, the loop as written cuts every row it walks to nothing. */
  lemma {:induction false} AsWrittenZero(tab: Table, keys: seq<string>, i: nat, name: string)
    requires Valid(tab) && Covers(tab, keys, i) && NonNegAt(tab, i)
    ensures forall j :: 0 <= j < |keys| && keys[j] != name ==>
      RebalanceAsWritten(tab, keys, i, name, 0.0).0.vals[keys[j]][i] == 0.0
    ensures RebalanceAsWritten(tab, keys, i, name, 0.0).1 == 0.0
    decreases |keys|, 1
  {
    if keys != [] {
      if keys[0] == name {
        var r := RebalanceAsWritten(tab, keys[1..], i, name, 0.0);
        assert RebalanceAsWritten(tab, keys, i, name, 0.0) == r;
        AsWrittenZero(tab, keys[1..], i, name);
        ZeroShift(r.0, keys, i, name, name);
      } else {
        AsWrittenZeroCut(tab, keys, i, name);
      }
    }
  }

  /** The step of `AsWrittenZero` for a row that is walked. */
  lemma {:induction false} AsWrittenZeroCut(tab: Table, keys: seq<string>, i: nat, name: string)
    requires Valid(tab) && Covers(tab, keys, i) && NonNegAt(tab, i)
    requires keys != [] && keys[0] != name
    ensures forall j :: 0 <= j < |keys| && keys[j] != name ==>
      RebalanceAsWritten(tab, keys, i, name, 0.0).0.vals[keys[j]][i] == 0.0
    ensures RebalanceAsWritten(tab, keys, i, name, 0.0).1 == 0.0
    decreases |keys|, 0
  {
    var t1 := SetCell(tab, keys[0], i, RMin(tab.vals[keys[0]][i], 0.0));
    assert RMin(tab.vals[keys[0]][i], 0.0) == 0.0 && RMax(0.0, 0.0 - 0.0) == 0.0;
    assert NonNegAt(t1, i);
    var r := RebalanceAsWritten(t1, keys[1..], i, name, 0.0);
    assert RebalanceAsWritten(tab, keys, i, name, 0.0) == r;
    AsWrittenZero(t1, keys[1..], i, name);
    assert keys[0] !in keys[1..] ==> r.0.vals[keys[0]] == t1.vals[keys[0]];
    ZeroShift(r.0, keys, i, name, name);
  }

  /** Reindexing: the rows after the first are zero, and so is the first unless it is the
      event's own or `skip`. */
  lemma ZeroShift(r: Table, keys: seq<string>, i: nat, name: string, skip: string)
    requires keys != [] && Covers(r, keys, i)
    requires keys[0] != name && keys[0] != skip ==> r.vals[keys[0]][i] == 0.0
    requires forall j :: 0 <= j < |keys[1..]| && keys[1..][j] != name && keys[1..][j] != skip ==>
      r.vals[keys[1..][j]][i] == 0.0
    ensures forall j :: 0 <= j < |keys| && keys[j] != name && keys[j] != skip ==> r.vals[keys[j]][i] == 0.0
  {
    forall j | 0 < j < |keys| && keys[j] != name && keys[j] != skip
      ensures r.vals[keys[j]][i] == 0.0
    {
      assert keys[j] == keys[1..][j - 1];
    }
  }

  /** The intended loop leaves the total alone, so the first row after it keeps what is
      available of it. */
  lemma RebalanceKeepsAvailable(tab: Table, i: nat, name: string, avail: real)
    requires Valid(tab) && Covers(tab, tab.keys, i)
    requires |tab.keys| > 1 && tab.keys[0] == Total && tab.keys[1] != name
    ensures Rebalance(tab, tab.keys, i, name, avail).0.vals[tab.keys[1]][i]
         == RMin(tab.vals[tab.keys[1]][i], avail)
  {
    var keys := tab.keys;
    var a := keys[1];
    assert keys[1..][0] == a;
    assert a != Total && a !in keys[1..][1..] by { assert Distinct(keys); }
    var r := Rebalance(tab, keys[1..], i, name, avail);
    assert Rebalance(tab, keys, i, name, avail) == r;
    RebalanceStep(tab, keys[1..], i, name, avail);
  }

  /** One row walked: it is cut to what is available, and the rest walk on from there. */
  lemma RebalanceStep(tab: Table, keys: seq<string>, i: nat, name: string, avail: real)
    requires Valid(tab) && Covers(tab, keys, i)
    requires keys != [] && keys[0] != name && keys[0] != Total && keys[0] !in keys[1..]
    ensures Rebalance(tab, keys, i, name, avail).0.vals[keys[0]][i] == RMin(tab.vals[keys[0]][i], avail)
  {
    RebalanceCut(tab, keys, i, name, avail);
  }

  /** AdjustTimelineSlice on one thread's rows: the event's fraction is added to its row and
      to the total; the parent's row (and the total) give it back when the parent holds at
      least that much; the event's row is capped at a whole slice; and a total above a whole
      slice is rebalanced. A missing row or a slice past the end raises an error that the
      source swallows: the rows keep whatever was already written. (Rows always have one cell
      per slice, so the rebalancing never meets a short row.) */
  function AdjustSlice(tab: Table, i: nat, name: string, parent: Option<string>, f: real): (r: Table)
    requires Valid(tab)
    ensures Valid(r) && SameBut(tab, r, i)
    ensures parent == Some(name) ==> r == tab
    ensures !HasCell(tab, name, i) ==> r == tab
  {
    if parent == Some(name) || !HasCell(tab, name, i) then tab
    else if !HasCell(tab, Total, i) then SetCell(tab, name, i, tab.vals[name][i] + f)
    else if parent.Some? && !HasCell(tab, parent.value, i) then Added(tab, i, name, f)
    else Settle(Debited(tab, i, name, parent, f), i, name, f)
  }

  /** With the event's row, the total row and the parent's row all present, the step adds,
      gives back, caps and settles. */
  lemma AdjustSliceSettles(tab: Table, i: nat, name: string, parent: Option<string>, f: real)
    requires Valid(tab) && HasCell(tab, name, i) && HasCell(tab, Total, i) && parent != Some(name)
    requires parent.Some? ==> HasCell(tab, parent.value, i)
    ensures Debited(tab, i, name, parent, f) == Cap(Debit(Added(tab, i, name, f), i, parent, f), name, i)
    ensures AdjustSlice(tab, i, name, parent, f) == Settle(Debited(tab, i, name, parent, f), i, name, f)
  {
  }

  /** An overflowing total is brought back to a whole slice by the rebalancing loop as the
      source writes it, walking every row but the event's own, the total included. */
  function Settle(t3: Table, i: nat, name: string, f: real): (r: Table)
    requires Valid(t3) && HasCell(t3, Total, i)
    ensures Valid(r) && SameBut(t3, r, i)
  {
    if t3.vals[Total][i] > 1.0 && Covers(t3, t3.keys, i) then
      Finish(RebalanceAsWritten(t3, t3.keys, i, name, RMax(0.0, 1.0 - f)), i)
    else t3
  }

  /** The total becomes the part of the slice the rebalancing did not leave over. */
  function Finish(rb: (Table, real), i: nat): (r: Table)
    requires Valid(rb.0) && HasCell(rb.0, Total, i)
    ensures Valid(r) && SameBut(rb.0, r, i)
  {
    SetCell(rb.0, Total, i, RMin(1.0, RMax(0.0, 1.0 - rb.1)))
  }

  /** `d` added to one cell. */
  function AddTo(tab: Table, key: string, i: nat, d: real): (r: Table)
    requires Valid(tab) && HasCell(tab, key, i)
    ensures Valid(r) && SameBut(tab, r, i)
    ensures r.vals[key][i] == tab.vals[key][i] + d
    ensures forall k :: k in r.vals && k != key ==> r.vals[k] == tab.vals[k]
  {
    SetCell(tab, key, i, tab.vals[key][i] + d)
  }

  /** The fraction added to the event's row and to the total row. */
  function Added(tab: Table, i: nat, name: string, f: real): (r: Table)
    requires Valid(tab) && HasCell(tab, name, i) && HasCell(tab, Total, i)
    ensures Valid(r) && SameBut(tab, r, i)
  {
    AddTo(AddTo(tab, name, i, f), Total, i, f)
  }

  /** The rows after the additions, the parent's debit and the cap, before any rebalancing. */
  function Debited(tab: Table, i: nat, name: string, parent: Option<string>, f: real): (r: Table)
    requires Valid(tab) && HasCell(tab, name, i) && HasCell(tab, Total, i)
    requires parent.Some? ==> HasCell(tab, parent.value, i)
    ensures Valid(r) && SameBut(tab, r, i)
  {
    Cap(Debit(Added(tab, i, name, f), i, parent, f), name, i)
  }

  /** The event's row is held to a whole slice. */
  function Cap(t2: Table, name: string, i: nat): (r: Table)
    requires Valid(t2) && HasCell(t2, name, i)
    ensures Valid(r) && SameBut(t2, r, i)
    ensures r.vals[name][i] == RMin(1.0, t2.vals[name][i])
    ensures forall k :: k in r.vals && k != name ==> r.vals[k] == t2.vals[k]
  {
    SetCell(t2, name, i, RMin(1.0, t2.vals[name][i]))
  }

  /** The parent gives the fraction back, to itself and to the total, when it holds that much. */
  function Debit(t1: Table, i: nat, parent: Option<string>, f: real): (r: Table)
    requires Valid(t1) && HasCell(t1, Total, i)
    requires parent.Some? ==> HasCell(t1, parent.value, i)
    ensures Valid(r) && SameBut(t1, r, i)
  {
    if parent.Some? && t1.vals[parent.value][i] >= f then AddTo(AddTo(t1, parent.value, i, -f), Total, i, -f)
    else t1
  }

  /** When the event and its parent are different names with rows (none of them the total
      row), the step gets as far as the rebalancing. */
  ghost predicate Adjustable(tab: Table, count: nat, i: nat, name: string, parent: Option<string>) {
    && Shaped(tab, count) && i < count && name in tab.vals && name != Total
    && parent != Some(name) && parent != Some(Total)
    && (parent.Some? ==> parent.value in tab.vals)
  }

  /** Whether the parent gives the fraction back: it holds at least that much. */
  predicate Debits(tab: Table, i: nat, parent: Option<string>, f: real)
    requires parent.Some? ==> HasCell(tab, parent.value, i)
  {
    parent.Some? && tab.vals[parent.value][i] >= f
  }

  /** The event's row and the total gain the fraction; nothing else changes. */
  lemma AddedValues(tab: Table, i: nat, name: string, f: real)
    requires Valid(tab) && HasCell(tab, name, i) && HasCell(tab, Total, i) && name != Total
    ensures var r := Added(tab, i, name, f);
      && r.vals[name][i] == tab.vals[name][i] + f
      && r.vals[Total][i] == tab.vals[Total][i] + f
      && forall k :: k in r.vals && k != name && k != Total ==> r.vals[k] == tab.vals[k]
  {
  }

  /** The parent and the total lose the fraction when the parent holds that much. */
  lemma DebitValues(t1: Table, i: nat, parent: Option<string>, f: real)
    requires Valid(t1) && HasCell(t1, Total, i) && parent != Some(Total)
    requires parent.Some? ==> HasCell(t1, parent.value, i)
    ensures var r := Debit(t1, i, parent, f);
      && r.vals[Total][i] == t1.vals[Total][i] - (if Debits(t1, i, parent, f) then f else 0.0)
      && (parent.Some? ==> r.vals[parent.value][i] == t1.vals[parent.value][i] - (if Debits(t1, i, parent, f) then f else 0.0))
      && forall k :: k in r.vals && k != Total && Some(k) != parent ==> r.vals[k] == t1.vals[k]
  {
  }

  /** Before any rebalancing: the event's row gains the fraction up to a whole slice, the
      parent gives it back when it holds that much, the total moves by the difference. */
  lemma DebitedValues(tab: Table, count: nat, i: nat, name: string, parent: Option<string>, f: real)
    requires Adjustable(tab, count, i, name, parent)
    ensures var r := Debited(tab, i, name, parent, f);
      && r.vals[name][i] == RMin(1.0, tab.vals[name][i] + f)
      && r.vals[Total][i] == tab.vals[Total][i] + f - (if Debits(tab, i, parent, f) then f else 0.0)
      && (parent.Some? ==>
            r.vals[parent.value][i] == tab.vals[parent.value][i] - (if Debits(tab, i, parent, f) then f else 0.0))
      && forall k :: k in r.vals && k != name && k != Total && Some(k) != parent ==> r.vals[k] == tab.vals[k]
  {
    var t1 := Added(tab, i, name, f);
    AddedValues(tab, i, name, f);
    var t2 := Debit(t1, i, parent, f);
    DebitValues(t1, i, parent, f);
    assert Debits(t1, i, parent, f) == Debits(tab, i, parent, f);
    assert t2.vals[name] == t1.vals[name];
  }

  /** AdjustSlice goes through `Debited`, then settles, with every row present at slice `i`. */
  lemma AdjustUnfold(tab: Table, count: nat, i: nat, name: string, parent: Option<string>, f: real)
    requires Adjustable(tab, count, i, name, parent)
    ensures var t3 := Debited(tab, i, name, parent, f);
      && Shaped(t3, count) && Covers(t3, t3.keys, i)
      && AdjustSlice(tab, i, name, parent, f) == Settle(t3, i, name, f)
  {
    DebitedCovers(tab, count, i, name, parent, f);
    assert HasCell(tab, name, i) && HasCell(tab, Total, i);
    assert parent.Some? ==> HasCell(tab, parent.value, i);
  }

  lemma DebitedCovers(tab: Table, count: nat, i: nat, name: string, parent: Option<string>, f: real)
    requires Adjustable(tab, count, i, name, parent)
    ensures var t3 := Debited(tab, i, name, parent, f);
      Shaped(t3, count) && Covers(t3, t3.keys, i)
  {
    SameButShaped(tab, Debited(tab, i, name, parent, f), count, i);
  }

  /** Changing the cells of one slice keeps every row one cell per slice. */
  lemma SameButShaped(tab: Table, r: Table, count: nat, i: nat)
    requires Shaped(tab, count) && i < count && Valid(r) && SameBut(tab, r, i)
    ensures Shaped(r, count) && Covers(r, r.keys, i)
  {
    forall j | 0 <= j < |r.keys|
      ensures HasCell(r, r.keys[j], i)
    {
      assert r.keys[j] in tab.vals;
    }
  }

  /** Cells of slice `i` are non-negative, and all but the total within a whole slice. */
  ghost predicate SettleReady(t3: Table, i: nat) {
    NonNegAt(t3, i) && forall k :: k in t3.vals && k != Total && i < |t3.vals[k]| ==> t3.vals[k][i] <= 1.0
  }

  /** A row the rebalancing loop walks never grows. */
  lemma AsWrittenLowers(tab: Table, keys: seq<string>, i: nat, name: string, avail: real, k: string)
    requires Valid(tab) && Covers(tab, keys, i)
    requires var r := RebalanceAsWritten(tab, keys, i, name, avail); k in r.0.vals && i < |r.0.vals[k]|
    requires k != name
    ensures RebalanceAsWritten(tab, keys, i, name, avail).0.vals[k][i] <= tab.vals[k][i]
  {
    if k in keys {
      var j :| 0 <= j < |keys| && keys[j] == k;
    }
  }

  /** An overflowing total is settled by the rebalancing. */
  lemma SettleUnfold(t3: Table, i: nat, name: string, f: real)
    requires Valid(t3) && HasCell(t3, Total, i) && Covers(t3, t3.keys, i) && t3.vals[Total][i] > 1.0
    ensures Settle(t3, i, name, f) == Finish(RebalanceAsWritten(t3, t3.keys, i, name, RMax(0.0, 1.0 - f)), i)
  {
  }

  /** Settling leaves the event's row alone. After an overflow the total row, which comes
      first, uses up everything available: every other row is cut to nothing at this slice
      and the total becomes a whole slice. */
  lemma SettleOverflow(t3: Table, i: nat, name: string, f: real)
    requires Valid(t3) && HasCell(t3, Total, i) && Covers(t3, t3.keys, i) && NonNegAt(t3, i)
    requires t3.keys[0] == Total && name in t3.vals && name != Total && 0.0 <= f <= 1.0
    ensures var r := Settle(t3, i, name, f);
      && r.vals[name] == t3.vals[name]
      && (t3.vals[Total][i] > 1.0 ==>
            && r.vals[Total][i] == 1.0
            && forall k :: k in r.vals && k != name && k != Total ==> HasCell(r, k, i) && r.vals[k][i] == 0.0)
      && (t3.vals[Total][i] <= 1.0 ==> r == t3)
  {
    if t3.vals[Total][i] > 1.0 {
      var avail := RMax(0.0, 1.0 - f);
      var rb := RebalanceAsWritten(t3, t3.keys, i, name, avail);
      var r := Finish(rb, i);
      SettleUnfold(t3, i, name, f);
      RebalanceAsWrittenDropsRows(t3, i, name, avail);
      assert RMin(1.0, RMax(0.0, 1.0 - rb.1)) == 1.0;
      forall k | k in r.vals && k != name && k != Total
        ensures HasCell(r, k, i) && r.vals[k][i] == 0.0
      {
        var j :| 0 <= j < |t3.keys| && t3.keys[j] == k;
      }
    }
  }

  /** Cells of slice `i` are fractions of a slice. */
  ghost predicate UnitAt(tab: Table, i: nat) {
    forall k :: k in tab.vals && i < |tab.vals[k]| ==> 0.0 <= tab.vals[k][i] <= 1.0
  }

  /** Settling brings every cell of the slice into range, provided only the total was out. */
  lemma SettleUnit(t3: Table, i: nat, name: string, f: real)
    requires Valid(t3) && HasCell(t3, Total, i) && Covers(t3, t3.keys, i) && SettleReady(t3, i)
    requires t3.vals[Total][i] <= 1.0 || 0.0 <= f
    ensures UnitAt(Settle(t3, i, name, f), i)
  {
    if t3.vals[Total][i] > 1.0 {
      var avail := RMax(0.0, 1.0 - f);
      var rb := RebalanceAsWritten(t3, t3.keys, i, name, avail);
      var r := Finish(rb, i);
      SettleUnfold(t3, i, name, f);
      forall k | k in r.vals && i < |r.vals[k]|
        ensures 0.0 <= r.vals[k][i] <= 1.0
      {
        if k != Total && k != name {
          AsWrittenLowers(t3, t3.keys, i, name, avail, k);
        }
      }
    }
  }

  /** Cells within range at slice `i` and unchanged elsewhere keep the whole table in range. */
  lemma UnitFromSlice(tab: Table, r: Table, i: nat)
    requires InUnit(tab) && SameBut(tab, r, i) && UnitAt(r, i)
    ensures InUnit(r)
  {
    forall k, j | k in r.vals && 0 <= j < |r.vals[k]|
      ensures 0.0 <= r.vals[k][j] <= 1.0
    {
      if j != i {
        assert r.vals[k][j] == tab.vals[k][j];
      }
    }
  }

  /** The event's row gains its fraction, capped at a whole slice. */
  lemma AdjustNameRow(tab: Table, count: nat, i: nat, name: string, parent: Option<string>, f: real)
    requires Adjustable(tab, count, i, name, parent) && NonNegAt(tab, i) && 0.0 <= f <= 1.0
    ensures AdjustSlice(tab, i, name, parent, f).vals[name][i] == RMin(1.0, tab.vals[name][i] + f)
  {
    AdjustUnfold(tab, count, i, name, parent, f);
    DebitedValues(tab, count, i, name, parent, f);
    DebitedNonNeg(tab, count, i, name, parent, f);
    SettleOverflow(Debited(tab, i, name, parent, f), i, name, f);
  }

  /** Without overflow, the parent gives the fraction back exactly when it holds at least
      that much, the total moves by the same amounts, and no other row changes. */
  lemma AdjustNoOverflow(tab: Table, count: nat, i: nat, name: string, parent: Option<string>, f: real)
    requires Adjustable(tab, count, i, name, parent)
    requires tab.vals[Total][i] + f - (if Debits(tab, i, parent, f) then f else 0.0) <= 1.0
    ensures var r := AdjustSlice(tab, i, name, parent, f);
      && r.vals[Total][i] == tab.vals[Total][i] + f - (if Debits(tab, i, parent, f) then f else 0.0)
      && (parent.Some? ==>
            r.vals[parent.value][i] == tab.vals[parent.value][i] - (if Debits(tab, i, parent, f) then f else 0.0))
      && forall k :: k in r.vals && k != name && k != Total && Some(k) != parent ==> r.vals[k] == tab.vals[k]
  {
    AdjustUnfold(tab, count, i, name, parent, f);
    DebitedValues(tab, count, i, name, parent, f);
    var t3 := Debited(tab, i, name, parent, f);
    assert Settle(t3, i, name, f) == t3;
  }

  /** Before any rebalancing, a slice with non-negative cells keeps them non-negative and
      every row but the total within a whole slice. */
  lemma DebitedNonNeg(tab: Table, count: nat, i: nat, name: string, parent: Option<string>, f: real)
    requires Adjustable(tab, count, i, name, parent) && NonNegAt(tab, i) && 0.0 <= f
    ensures NonNegAt(Debited(tab, i, name, parent, f), i)
    ensures UnitAt(tab, i) ==> SettleReady(Debited(tab, i, name, parent, f), i)
  {
    DebitedValues(tab, count, i, name, parent, f);
    var t3 := Debited(tab, i, name, parent, f);
    forall k | k in t3.vals && i < |t3.vals[k]|
      ensures 0.0 <= t3.vals[k][i] && (UnitAt(tab, i) && k != Total ==> t3.vals[k][i] <= 1.0)
    {
      if k != name && k != Total && Some(k) != parent {
        assert t3.vals[k] == tab.vals[k];
      }
    }
  }

  /** After an overflow the total is a whole slice and every row but the event's own is
      empty at this slice. */
  lemma AdjustOverflow(tab: Table, count: nat, i: nat, name: string, parent: Option<string>, f: real)
    requires Adjustable(tab, count, i, name, parent) && NonNegAt(tab, i) && 0.0 <= f <= 1.0
    requires tab.vals[Total][i] + f - (if Debits(tab, i, parent, f) then f else 0.0) > 1.0
    ensures var r := AdjustSlice(tab, i, name, parent, f);
      && r.vals[Total][i] == 1.0
      && forall k :: k in r.vals && k != name && k != Total ==> HasCell(r, k, i) && r.vals[k][i] == 0.0
  {
    AdjustUnfold(tab, count, i, name, parent, f);
    DebitedValues(tab, count, i, name, parent, f);
    DebitedNonNeg(tab, count, i, name, parent, f);
    SettleOverflow(Debited(tab, i, name, parent, f), i, name, f);
  }

  /** Every cell stays a fraction of a slice. */
  lemma AdjustInUnit(tab: Table, count: nat, i: nat, name: string, parent: Option<string>, f: real)
    requires Shaped(tab, count) && InUnit(tab) && 0.0 <= f <= 1.0
    requires name != Total && parent != Some(Total)
    requires parent.Some? ==> parent.value in tab.vals
    ensures InUnit(AdjustSlice(tab, i, name, parent, f))
  {
    if Adjustable(tab, count, i, name, parent) {
      assert UnitAt(tab, i) && NonNegAt(tab, i);
      AdjustUnfold(tab, count, i, name, parent, f);
      DebitedNonNeg(tab, count, i, name, parent, f);
      var t3 := Debited(tab, i, name, parent, f);
      SettleUnit(t3, i, name, f);
      var r := Settle(t3, i, name, f);
      assert SameBut(tab, r, i);
      UnitFromSlice(tab, r, i);
    } else {
      assert AdjustSlice(tab, i, name, parent, f) == tab;
    }
  }

  // ---------------------------------------------------------------------------------------
  // The event-name rows against the total row

  /** The rows named in `keys`, other than the total, summed at slice `i`. */
  function NamesAt(keys: seq<string>, tab: Table, i: nat): real
    requires Covers(tab, keys, i)
  {
    if keys == [] then 0.0
    else (if keys[0] == Total then 0.0 else tab.vals[keys[0]][i]) + NamesAt(keys[1..], tab, i)
  }

  /** At every slice the event-name rows together fill no more than the total row. */
  ghost predicate Reconciled(tab: Table, count: nat) {
    forall j :: 0 <= j < count ==>
      HasCell(tab, Total, j) && Covers(tab, tab.keys, j) && NamesAt(tab.keys, tab, j) <= tab.vals[Total][j]
  }

  /** Rewriting one cell moves the sum of the name rows by the change, unless the cell is
      the total's or its row is not summed. */
  lemma {:induction false} NamesSetCell(keys: seq<string>, tab: Table, k: string, i: nat, v: real)
    requires Valid(tab) && HasCell(tab, k, i) && Covers(tab, keys, i) && Distinct(keys)
    ensures Covers(SetCell(tab, k, i, v), keys, i)
    ensures NamesAt(keys, SetCell(tab, k, i, v), i)
         == NamesAt(keys, tab, i) + (if k in keys && k != Total then v - tab.vals[k][i] else 0.0)
    decreases |keys|
  {
    var r := SetCell(tab, k, i, v);
    if keys != [] {
      assert Distinct(keys[1..]) by {
        forall a, b | 0 <= a < b < |keys[1..]| ensures keys[1..][a] != keys[1..][b] {
          assert keys[1..][a] == keys[a + 1] && keys[1..][b] == keys[b + 1];
        }
      }
      NamesSetCell(keys[1..], tab, k, i, v);
      assert keys[0] !in keys[1..];
      assert k in keys <==> k == keys[0] || k in keys[1..];
    }
  }

  /** `NamesSetCell` for a cell moved by `d` in a row of the table. */
  lemma NamesAddTo(tab: Table, k: string, i: nat, d: real)
    requires Valid(tab) && HasCell(tab, k, i) && Covers(tab, tab.keys, i)
    ensures var r := AddTo(tab, k, i, d);
      && Covers(r, tab.keys, i)
      && NamesAt(tab.keys, r, i) == NamesAt(tab.keys, tab, i) + (if k == Total then 0.0 else d)
  {
    assert k in tab.keys;
    NamesSetCell(tab.keys, tab, k, i, tab.vals[k][i] + d);
  }

  /** Sums of rows agreeing at slice `j` agree. */
  lemma {:induction false} NamesElsewhere(keys: seq<string>, tab: Table, r: Table, j: nat)
    requires Covers(tab, keys, j) && Covers(r, keys, j)
    requires forall n :: 0 <= n < |keys| ==> r.vals[keys[n]][j] == tab.vals[keys[n]][j]
    ensures NamesAt(keys, r, j) == NamesAt(keys, tab, j)
    decreases |keys|
  {
    if keys != [] {
      assert forall n :: 0 <= n < |keys[1..]| ==> keys[1..][n] == keys[n + 1];
      NamesElsewhere(keys[1..], tab, r, j);
    }
  }

  /** When every name row but `name`'s is empty at slice `i`, the sum is `name`'s cell. */
  lemma {:induction false} NamesOnly(keys: seq<string>, r: Table, i: nat, name: string)
    requires Covers(r, keys, i) && Distinct(keys) && name != Total
    requires forall n :: 0 <= n < |keys| && keys[n] != name && keys[n] != Total ==> r.vals[keys[n]][i] == 0.0
    ensures NamesAt(keys, r, i) == if name in keys then r.vals[name][i] else 0.0
    decreases |keys|
  {
    if keys != [] {
      assert forall n :: 0 <= n < |keys[1..]| ==> keys[1..][n] == keys[n + 1];
      assert Distinct(keys[1..]) by {
        forall a, b | 0 <= a < b < |keys[1..]| ensures keys[1..][a] != keys[1..][b] {
          assert keys[1..][a] == keys[a + 1] && keys[1..][b] == keys[b + 1];
        }
      }
      NamesOnly(keys[1..], r, i, name);
      assert keys[0] !in keys[1..];
      assert name in keys <==> name == keys[0] || name in keys[1..];
    }
  }

  /** Before the rebalancing, the name rows gain no more than the total does: the event's
      row and the total gain the fraction, the parent's row and the total give it back
      together, and the cap only lowers the event's row. */
  lemma DebitedNames(tab: Table, count: nat, i: nat, name: string, parent: Option<string>, f: real)
    requires Adjustable(tab, count, i, name, parent)
    ensures var t3 := Debited(tab, i, name, parent, f);
      && Covers(tab, tab.keys, i) && Covers(t3, t3.keys, i)
      && NamesAt(t3.keys, t3, i) - t3.vals[Total][i] <= NamesAt(tab.keys, tab, i) - tab.vals[Total][i]
  {
    SameButShaped(tab, tab, count, i);
    var t1 := Added(tab, i, name, f);
    AddedNames(tab, i, name, f);
    SameButShaped(tab, t1, count, i);
    var t2 := Debit(t1, i, parent, f);
    DebitNames(t1, i, parent, f);
    SameButShaped(t1, t2, count, i);
    CapNames(t2, name, i);
  }

  lemma AddedNames(tab: Table, i: nat, name: string, f: real)
    requires Valid(tab) && HasCell(tab, name, i) && HasCell(tab, Total, i) && Covers(tab, tab.keys, i)
    requires name != Total
    ensures var t1 := Added(tab, i, name, f);
      Covers(t1, t1.keys, i) && NamesAt(t1.keys, t1, i) - t1.vals[Total][i] == NamesAt(tab.keys, tab, i) - tab.vals[Total][i]
  {
    var t1a := AddTo(tab, name, i, f);
    NamesAddTo(tab, name, i, f);
    NamesAddTo(t1a, Total, i, f);
  }

  lemma DebitNames(t1: Table, i: nat, parent: Option<string>, f: real)
    requires Valid(t1) && HasCell(t1, Total, i) && Covers(t1, t1.keys, i) && parent != Some(Total)
    requires parent.Some? ==> HasCell(t1, parent.value, i)
    ensures var t2 := Debit(t1, i, parent, f);
      Covers(t2, t2.keys, i) && NamesAt(t2.keys, t2, i) - t2.vals[Total][i] == NamesAt(t1.keys, t1, i) - t1.vals[Total][i]
  {
    if Debits(t1, i, parent, f) {
      GiveBackNames(t1, i, parent.value, f);
    }
  }

  /** The parent's row and the total both give back `f`. */
  lemma GiveBackNames(t1: Table, i: nat, p: string, f: real)
    requires Valid(t1) && HasCell(t1, Total, i) && Covers(t1, t1.keys, i) && p != Total && HasCell(t1, p, i)
    ensures var t2 := AddTo(AddTo(t1, p, i, -f), Total, i, -f);
      Covers(t2, t2.keys, i) && NamesAt(t2.keys, t2, i) - t2.vals[Total][i] == NamesAt(t1.keys, t1, i) - t1.vals[Total][i]
  {
    var t2a := AddTo(t1, p, i, -f);
    NamesAddTo(t1, p, i, -f);
    NamesAddTo(t2a, Total, i, -f);
  }

  lemma CapNames(t2: Table, name: string, i: nat)
    requires Valid(t2) && HasCell(t2, name, i) && HasCell(t2, Total, i) && Covers(t2, t2.keys, i) && name != Total
    ensures var t3 := Cap(t2, name, i);
      Covers(t3, t3.keys, i) && NamesAt(t3.keys, t3, i) - t3.vals[Total][i] <= NamesAt(t2.keys, t2, i) - t2.vals[Total][i]
  {
    NamesAddTo(t2, name, i, RMin(1.0, t2.vals[name][i]) - t2.vals[name][i]);
  }

  /** Settling keeps the name rows within the total: without an overflow nothing changes,
      after one only the event's row is left, within a whole slice, and the total is one. */
  lemma SettleReconciled(t3: Table, i: nat, name: string, f: real)
    requires Valid(t3) && HasCell(t3, Total, i) && Covers(t3, t3.keys, i) && SettleReady(t3, i)
    requires t3.keys[0] == Total && name in t3.vals && name != Total && 0.0 <= f <= 1.0
    requires NamesAt(t3.keys, t3, i) <= t3.vals[Total][i]
    ensures var r := Settle(t3, i, name, f);
      Covers(r, r.keys, i) && NamesAt(r.keys, r, i) <= r.vals[Total][i]
  {
    var r := Settle(t3, i, name, f);
    SettleOverflow(t3, i, name, f);
    assert Covers(r, r.keys, i) by {
      forall n | 0 <= n < |r.keys| ensures HasCell(r, r.keys[n], i) {
        assert HasCell(t3, t3.keys[n], i);
      }
    }
    if t3.vals[Total][i] > 1.0 {
      NamesOnly(r.keys, r, i, name);
    }
  }

  /** One slice update keeps the name rows within the total at every slice. */
  lemma AdjustReconciled(tab: Table, count: nat, i: nat, name: string, parent: Option<string>, f: real)
    requires Shaped(tab, count) && InUnit(tab) && Reconciled(tab, count) && 0.0 <= f <= 1.0
    requires name != Total && parent != Some(Total)
    requires parent.Some? ==> parent.value in tab.vals
    ensures Reconciled(AdjustSlice(tab, i, name, parent, f), count)
  {
    if Adjustable(tab, count, i, name, parent) {
      assert UnitAt(tab, i) && NonNegAt(tab, i);
      AdjustUnfold(tab, count, i, name, parent, f);
      DebitedNonNeg(tab, count, i, name, parent, f);
      DebitedNames(tab, count, i, name, parent, f);
      var t3 := Debited(tab, i, name, parent, f);
      SettleReconciled(t3, i, name, f);
      ReconciledElsewhere(tab, Settle(t3, i, name, f), count, i);
    } else {
      assert AdjustSlice(tab, i, name, parent, f) == tab;
    }
  }

  /** A table reconciled at slice `i` and equal to a reconciled one at every other slice is
      reconciled. */
  lemma ReconciledElsewhere(tab: Table, r: Table, count: nat, i: nat)
    requires Shaped(tab, count) && Reconciled(tab, count) && i < count && Valid(r) && SameBut(tab, r, i)
    requires Covers(r, r.keys, i) && HasCell(r, Total, i) && NamesAt(r.keys, r, i) <= r.vals[Total][i]
    ensures Reconciled(r, count)
  {
    SameButShaped(tab, r, count, i);
    forall j | 0 <= j < count
      ensures HasCell(r, Total, j) && Covers(r, r.keys, j) && NamesAt(r.keys, r, j) <= r.vals[Total][j]
    {
      ShapedCovers(r, count, j);
      if j != i {
        ShapedCovers(tab, count, j);
        NamesElsewhere(tab.keys, tab, r, j);
      }
    }
  }

  /** A shaped table has every row's cell at every slice. */
  lemma ShapedCovers(tab: Table, count: nat, j: nat)
    requires Shaped(tab, count) && j < count
    ensures HasCell(tab, Total, j) && Covers(tab, tab.keys, j)
  {
  }
}
