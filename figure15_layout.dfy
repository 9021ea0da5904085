/**
 * The data layout of plotBarClusers: flow lengths sorted ascending, then
 * for each flow type in the caller's order a bar series made of the slots
 * (positions among the flow lengths) where that type has a cell, with the
 * cell's mean and stddev, its colour, and its offset within each cluster.
 */
module Figure15Layout {
  import opened Wrappers
  import opened Figure15Data

  // ---------------------------------------------------------------------
  // sorted(plot_data.keys())

  predicate StrictlyIncreasing(s: seq<int>)
  {
    forall i, j :: 0 <= i < j < |s| ==> s[i] < s[j]
  }

  lemma HeadIsLeast(s: seq<int>, x: int)
    requires StrictlyIncreasing(s) && x in s
    ensures s[0] <= x
  {
    var i :| 0 <= i < |s| && s[i] == x;
    assert i == 0 || s[0] < s[i];
  }

  lemma InTail(s: seq<int>, x: int)
    requires x in s && x != s[0]
    ensures x in s[1..]
  {
    var i :| 0 <= i < |s| && s[i] == x;
    assert s[1..][i - 1] == x;
  }

  /** Insert x into its place in an ascending list. */
  function Insert(x: int, s: seq<int>): (r: seq<int>)
    requires StrictlyIncreasing(s) && x !in s
    ensures StrictlyIncreasing(r) && |r| == |s| + 1
    ensures forall k :: k in r <==> k == x || k in s
    decreases |s|
  {
    if s == [] then [x]
    else if x < s[0] then
      assert forall j :: 0 <= j < |s| ==> x < s[j] by {
        forall j | 0 <= j < |s| ensures x < s[j] { assert j == 0 || s[0] < s[j]; }
      }
      [x] + s
    else
      var rest := Insert(x, s[1..]);
      assert forall j :: 0 <= j < |rest| ==> s[0] < rest[j] by {
        forall j | 0 <= j < |rest| ensures s[0] < rest[j] {
          assert rest[j] in rest;
          if rest[j] != x {
            var i :| 0 <= i < |s[1..]| && s[1..][i] == rest[j];
            assert s[1..][i] == s[i + 1];
          }
        }
      }
      [s[0]] + rest
  }

  /** sorted() of a dict's keys (distinct integers): insertion sort. */
  function SortKeys(keys: seq<int>): (r: seq<int>)
    requires Distinct(keys)
    ensures StrictlyIncreasing(r) && |r| == |keys|
    ensures forall k :: k in r <==> k in keys
    decreases |keys|
  {
    if keys == [] then []
    else
      assert keys[0] !in keys[1..];
      Insert(keys[0], SortKeys(keys[1..]))
  }

  /** Every element of `a` occurs in `b`. */
  predicate Within(a: seq<int>, b: seq<int>)
  {
    forall i :: 0 <= i < |a| ==> a[i] in b
  }

  lemma TailIncreasing(s: seq<int>)
    requires StrictlyIncreasing(s) && s != []
    ensures StrictlyIncreasing(s[1..])
  {
    forall i, j | 0 <= i < j < |s| - 1
      ensures s[1..][i] < s[1..][j]
    {
      assert s[1..][i] == s[i + 1] && s[1..][j] == s[j + 1];
    }
  }

  lemma NonEmptyHasMember(a: seq<int>, b: seq<int>)
    requires Within(a, b)
    ensures a != [] ==> b != []
  {
    if a != [] {
      assert a[0] in b;
    }
  }

  lemma TailsShareMembers(a: seq<int>, b: seq<int>)
    requires StrictlyIncreasing(a) && StrictlyIncreasing(b)
    requires a != [] && b != [] && a[0] == b[0]
    requires Within(a, b)
    ensures Within(a[1..], b[1..])
  {
    forall i | 0 <= i < |a| - 1
      ensures a[1..][i] in b[1..]
    {
      assert a[1..][i] == a[i + 1] && a[0] < a[i + 1];
      InTail(b, a[i + 1]);
    }
  }

  /** A strictly increasing list is determined by its elements. */
  lemma {:induction false} IncreasingUnique(a: seq<int>, b: seq<int>)
    requires StrictlyIncreasing(a) && StrictlyIncreasing(b)
    requires Within(a, b) && Within(b, a)
    ensures a == b
    decreases |a|
  {
    NonEmptyHasMember(a, b);
    NonEmptyHasMember(b, a);
    if a != [] && b != [] {
      HeadIsLeast(a, b[0]);
      HeadIsLeast(b, a[0]);
      TailsShareMembers(a, b);
      TailsShareMembers(b, a);
      TailIncreasing(a);
      TailIncreasing(b);
      IncreasingUnique(a[1..], b[1..]);
      assert a == [a[0]] + a[1..] && b == [b[0]] + b[1..];
    }
  }
  /** Sorting an ascending key list changes nothing. */
  lemma SortKeysOfIncreasing(s: seq<int>)
    requires StrictlyIncreasing(s)
    ensures Distinct(s) && SortKeys(s) == s
  {
    IncreasingUnique(SortKeys(s), s);
  }

  /** Two key orders of the same keys sort to the same flow lengths: the
      layout does not depend on the order the dict keeps its keys in. */
  lemma KeyOrderIrrelevant(d1: PlotData, d2: PlotData)
    requires WellFormed(d1) && WellFormed(d2) && d1.rows.Keys == d2.rows.Keys
    ensures SortKeys(d1.keys) == SortKeys(d2.keys)
  {
    KeysAreRows(d1);
    KeysAreRows(d2);
    IncreasingUnique(SortKeys(d1.keys), SortKeys(d2.keys));
  }

  /** The paper figure's flow lengths come out as its flow_completion_times
      list. */
  lemma PaperFlowLengths()
    ensures SortKeys(PaperData().data.keys) == FLOW_COMPLETION_TIMES
  {
    FlowCompletionTimesIncreasing();
    SortKeysOfIncreasing(FLOW_COMPLETION_TIMES);
  }

  lemma FlowCompletionTimesIncreasing()
    ensures StrictlyIncreasing(FLOW_COMPLETION_TIMES)
  {
    var s := FLOW_COMPLETION_TIMES;
    forall i, j | 0 <= i < j < |s|
      ensures s[i] < s[j]
    {
      assert forall k :: 0 <= k < |s| - 1 ==> s[k] < s[k + 1];
      Chain(s, i, j);
    }
  }

  /** Consecutive increase carries over to any two positions. */
  lemma {:induction false} Chain(s: seq<int>, i: int, j: int)
    requires forall k :: 0 <= k < |s| - 1 ==> s[k] < s[k + 1]
    requires 0 <= i < j < |s|
    ensures s[i] < s[j]
    decreases j - i
  {
    if i + 1 < j {
      Chain(s, i + 1, j);
    }
  }

  // ---------------------------------------------------------------------
  // One series

  /** The parallel vectors (ind, means, stddevs) of one flow type. */
  datatype Bars = Bars(ind: seq<int>, means: seq<real>, stddevs: seq<real>)

  /** Every listed flow length has an entry. */
  predicate Covers(data: Rows, lens: seq<int>)
  {
    forall i :: 0 <= i < |lens| ==> lens[i] in data
  }

  /** The inner loop's result for flow type t over the flow lengths `lens`:
      one bar for each slot whose cell has t, in slot order. */
  function Column(data: Rows, lens: seq<int>, t: string): (c: Bars)
    requires Covers(data, lens)
    ensures |c.ind| == |c.means| == |c.stddevs| <= |lens|
    ensures StrictlyIncreasing(c.ind)
    ensures forall k :: 0 <= k < |c.ind| ==>
      && 0 <= c.ind[k] < |lens|
      && t in data[lens[c.ind[k]]]
      && c.means[k] == data[lens[c.ind[k]]][t].mean
      && c.stddevs[k] == data[lens[c.ind[k]]][t].stddev
    ensures forall i :: 0 <= i < |lens| && t in data[lens[i]] ==> i in c.ind
    decreases |lens|
  {
    if lens == [] then Bars([], [], [])
    else
      var init := lens[..|lens| - 1];
      var c := Column(data, init, t);
      var last := lens[|lens| - 1];
      if t in data[last] then
        Bars(c.ind + [|lens| - 1], c.means + [data[last][t].mean],
             c.stddevs + [data[last][t].stddev])
      else c
  }

  /** The slots whose cell has t. */
  function Present(data: Rows, lens: seq<int>, t: string): set<int>
    requires Covers(data, lens)
  {
    set i | 0 <= i < |lens| && t in data[lens[i]]
  }

  lemma PresentStep(data: Rows, lens: seq<int>, t: string)
    requires Covers(data, lens) && lens != []
    ensures var n := |lens| - 1;
      Present(data, lens, t) ==
        Present(data, lens[..n], t) + (if t in data[lens[n]] then {n} else {})
  {
    var n := |lens| - 1;
    var init := lens[..n];
    forall i
      ensures i in Present(data, lens, t) <==>
        i in Present(data, init, t) + (if t in data[lens[n]] then {n} else {})
    {
      if 0 <= i < n {
        assert init[i] == lens[i];
      }
    }
  }

  /** The series has exactly one bar per flow length whose cell contains
      the type. */
  lemma {:induction false} ColumnLength(data: Rows, lens: seq<int>, t: string)
    requires Covers(data, lens)
    ensures |Column(data, lens, t).ind| == |Present(data, lens, t)|
    decreases |lens|
  {
    if lens == [] {
      assert Present(data, lens, t) == {};
    } else {
      var n := |lens| - 1;
      ColumnLength(data, lens[..n], t);
      PresentStep(data, lens, t);
      assert n !in Present(data, lens[..n], t);
    }
  }

  /** With every cell present, the slots are 0, 1, ..., |lens| - 1. */
  lemma {:induction false} CompleteColumnHasNoGaps(data: Rows, lens: seq<int>, t: string)
    requires Covers(data, lens)
    requires forall i :: 0 <= i < |lens| ==> t in data[lens[i]]
    ensures Column(data, lens, t).ind == seq(|lens|, i => i)
    decreases |lens|
  {
    if lens != [] {
      CompleteColumnHasNoGaps(data, lens[..|lens| - 1], t);
    }
  }

  /** The sorted keys of a well-formed dict are exactly its entries. */
  lemma SortedKeysCoverRows(d: PlotData)
    requires WellFormed(d)
    ensures Covers(d.rows, SortKeys(d.keys))
    ensures forall n :: n in SortKeys(d.keys) <==> n in d.rows
  {
    KeysAreRows(d);
  }

  /** In the paper figure every flow type has a bar at every flow length. */
  lemma PaperColumnsComplete(t: string)
    requires t in SERIES
    ensures Covers(PaperData().data.rows, FLOW_COMPLETION_TIMES)
    ensures Column(PaperData().data.rows, FLOW_COMPLETION_TIMES, t).ind ==
      seq(|FLOW_COMPLETION_TIMES|, i => i)
  {
    var d := PaperData().data;
    KeysAreRows(d);
    CompleteColumnHasNoGaps(d.rows, FLOW_COMPLETION_TIMES, t);
  }

  // ---------------------------------------------------------------------
  // All series

  /** One `ax.bar(...)` call: its legend label, its offset within each
      cluster (type_count, scaled by the bar width when drawn), its colour
      and its bars. */
  datatype Series = Series(legend: string, offset: int, color: string, bars: Bars)

  /** What plotBarClusers lays out: the x-axis flow lengths and the series
      in legend order. */
  datatype Layout = Layout(flowLens: seq<int>, series: seq<Series>)

  /** `0.9/len(flow_types)` raises ZeroDivisionError on an empty list;
      `flow_type_colors[flow_type]` raises KeyError for a type without a
      colour. */
  datatype PlotError = NoFlowTypes | MissingColor(flowType: string)

  /** j is the first flow type without a colour. */
  predicate FirstUncoloured(flowTypes: seq<string>, colors: map<string, string>, j: int)
  {
    0 <= j < |flowTypes| && flowTypes[j] !in colors
    && forall k :: 0 <= k < j ==> flowTypes[k] in colors
  }

  /** rect_labels: the legend labels. */
  function Labels(series: seq<Series>): seq<string>
  {
    seq(|series|, j requires 0 <= j < |series| => series[j].legend)
  }

  /** One more flow length adds at most its own bar. */
  lemma ColumnStep(data: Rows, lens: seq<int>, t: string, i: int)
    requires Covers(data, lens) && 0 <= i < |lens|
    ensures Covers(data, lens[..i]) && Covers(data, lens[..i + 1])
    ensures var c := Column(data, lens[..i], t);
      Column(data, lens[..i + 1], t) ==
        if t in data[lens[i]] then
          Bars(c.ind + [i], c.means + [data[lens[i]][t].mean],
               c.stddevs + [data[lens[i]][t].stddev])
        else c
  {
    assert lens[..i + 1][..i] == lens[..i];
    assert lens[..i + 1][i] == lens[i];
  }

  /** The inner loop of plotBarClusers for one flow type: walk the sorted
      flow lengths, counting slots in ind_count, and append the slot, mean
      and stddev of each cell that has the type. */
  method BuildColumn(plotData: Rows, flowLens: seq<int>, flowType: string)
    returns (bars: Bars)
    requires Covers(plotData, flowLens)
    ensures bars == Column(plotData, flowLens, flowType)
  {
    var indCount := 0;
    var ind: seq<int> := [];
    var means: seq<real> := [];
    var stddevs: seq<real> := [];
    var i := 0;
    while i < |flowLens|
      invariant 0 <= i <= |flowLens| && indCount == i
      invariant Bars(ind, means, stddevs) == Column(plotData, flowLens[..i], flowType)
    {
      var flowLen := flowLens[i];
      ColumnStep(plotData, flowLens, flowType, i);
      if flowType in plotData[flowLen] {
        ind := ind + [indCount];
        means := means + [plotData[flowLen][flowType].mean];
        stddevs := stddevs + [plotData[flowLen][flowType].stddev];
      }
      indCount := indCount + 1;
      i := i + 1;
    }
    assert flowLens[..i] == flowLens;
    bars := Bars(ind, means, stddevs);
  }

  /** The bar series of each flow type in caller order, as the outer loop
      of plotBarClusers builds them: the inner loop for the type, then its
      colour, which raises KeyError when missing. */
  method BuildSeries(rows: Rows, flowLens: seq<int>, flowTypes: seq<string>,
                     colors: map<string, string>)
    returns (r: Result<seq<Series>, PlotError>)
    requires Covers(rows, flowLens)
    ensures r.Ok? <==> forall j :: 0 <= j < |flowTypes| ==> flowTypes[j] in colors
    ensures r.Err? ==>
      exists j :: FirstUncoloured(flowTypes, colors, j) && r.error == MissingColor(flowTypes[j])
    ensures r.Ok? ==> |r.value| == |flowTypes|
    ensures r.Ok? ==> forall j :: 0 <= j < |flowTypes| ==>
      r.value[j] == Series(flowTypes[j], j, colors[flowTypes[j]],
                           Column(rows, flowLens, flowTypes[j]))
  {
    var typeCount := 0;
    var rects: seq<Series> := [];
    var j := 0;
    while j < |flowTypes|
      invariant 0 <= j <= |flowTypes| && typeCount == j && |rects| == j
      invariant forall k :: 0 <= k < j ==> flowTypes[k] in colors
      invariant forall k :: 0 <= k < j ==>
        rects[k] == Series(flowTypes[k], k, colors[flowTypes[k]],
                           Column(rows, flowLens, flowTypes[k]))
    {
      var flowType := flowTypes[j];
      var bars := BuildColumn(rows, flowLens, flowType);
      if flowType !in colors {
        assert FirstUncoloured(flowTypes, colors, j);
        return Err(MissingColor(flowType));
      }
      rects := rects + [Series(flowType, typeCount, colors[flowType], bars)];
      typeCount := typeCount + 1;
      j := j + 1;
    }
    return Ok(rects);
  }

  /** The layout part of plotBarClusers: sort the flow lengths, take the bar
      width (ZeroDivisionError without flow types), then build the series. */
  method LayoutBars(plotData: PlotData, flowTypes: seq<string>, colors: map<string, string>)
    returns (r: Result<Layout, PlotError>)
    requires WellFormed(plotData)
    ensures flowTypes == [] ==> r == Err(NoFlowTypes)
    ensures r.Ok? <==> flowTypes != [] && forall j :: 0 <= j < |flowTypes| ==> flowTypes[j] in colors
    ensures r.Err? && flowTypes != [] ==>
      exists j :: FirstUncoloured(flowTypes, colors, j) && r.error == MissingColor(flowTypes[j])
    ensures r.Ok? ==> r.value.flowLens == SortKeys(plotData.keys)
    ensures r.Ok? ==> StrictlyIncreasing(r.value.flowLens)
    ensures r.Ok? ==> forall n :: n in r.value.flowLens <==> n in plotData.rows
    ensures r.Ok? ==> Labels(r.value.series) == flowTypes
    ensures r.Ok? ==> forall j :: 0 <= j < |flowTypes| ==>
      r.value.series[j] == Series(flowTypes[j], j, colors[flowTypes[j]],
                                  Column(plotData.rows, r.value.flowLens, flowTypes[j]))
  {
    var flowLens := SortKeys(plotData.keys);
    SortedKeysCoverRows(plotData);
    if |flowTypes| == 0 {
      return Err(NoFlowTypes);
    }
    var built := BuildSeries(plotData.rows, flowLens, flowTypes, colors);
    match built {
      case Err(e) =>
        return Err(e);
      case Ok(rects) =>
        assert Labels(rects) == flowTypes;
        return Ok(Layout(flowLens, rects));
    }
  }
}
