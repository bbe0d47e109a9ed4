/** The plot-selection block of the dashboard page: which render calls the
    page makes, and in what order, for a given selection and set of
    checkboxes. The drawing itself is outside the model; each render call
    is a `PlotRequest`. */
module Plots {
  import opened Sequences

  /** One render call: a pair plot or heat map of the selected columns, a line
      plot of `y` against the time axis `x`, a histogram of one column, or the
      scatter plot of `y` against `x` coloured by `hue` and sized by `size`. */
  datatype PlotRequest =
    | Pairplot(vars: seq<string>)
    | Heatmap(vars: seq<string>)
    | Line(x: string, y: string)
    | Hist(column: string)
    | Scatter(x: string, y: string, hue: string, size: string)

  /** The five checkboxes. A box the page does not show counts as unticked. */
  datatype Toggles = Toggles(pairplot: bool, heatmap: bool, timeSeries: bool, histograms: bool, scatter: bool)

  /** A select box left at its default or set by the user to an option index. */
  datatype Choice = Default | Picked(index: nat)

  /** The widget values of one pass over the page: the multiselect (in click
      order), the checkboxes and the three select boxes. */
  datatype Widgets = Widgets(selected: seq<string>, toggles: Toggles, timeAxis: Choice, hue: Choice, size: Choice)

  predicate Fits(c: Choice, n: nat) {
    c.Picked? ==> c.index < n
  }

  /** `st.selectbox(label, options, index=default)`. */
  function Pick(options: seq<string>, default: nat, c: Choice): (r: string)
    requires default < |options| && Fits(c, |options|)
    ensures r in options
    ensures c == Default ==> r == options[default]
  {
    match c
    case Default => options[default]
    case Picked(i) => options[i]
  }

  /** What the widgets guarantee: the multiselect returns distinct labels of the
      table, and each select box returns one of its options. */
  predicate ValidWidgets(columns: seq<string>, w: Widgets) {
    Distinct(w.selected) &&
    (forall i :: 0 <= i < |w.selected| ==> w.selected[i] in columns) &&
    Fits(w.timeAxis, |columns|) && Fits(w.hue, |w.selected|) && Fits(w.size, |w.selected|)
  }

  const TimeColumn := "time"

  /** The time-axis select box, whose options are all the table's columns. */
  function TimeAxis(columns: seq<string>, w: Widgets): (r: string)
    requires TimeColumn in columns && Fits(w.timeAxis, |columns|)
    ensures r in columns
  {
    Pick(columns, 0, w.timeAxis)
  }

  /** The line plots are drawn: two or more selected columns, a `time` column
      in the table and its checkbox ticked. */
  predicate LinesShown(columns: seq<string>, w: Widgets) {
    |w.selected| > 1 && TimeColumn in columns && w.toggles.timeSeries
  }

  /** The scatter plot is drawn: three or more selected columns and its checkbox ticked. */
  predicate ScatterShown(w: Widgets) {
    |w.selected| >= 3 && w.toggles.scatter
  }

  /** One line plot per selected column other than the time axis. */
  function Lines(time: string, selected: seq<string>): seq<PlotRequest> {
    if selected == [] then []
    else (if selected[0] != time then [Line(time, selected[0])] else []) + Lines(time, selected[1..])
  }

  /** One histogram per selected column. */
  function Hists(selected: seq<string>): seq<PlotRequest> {
    seq(|selected|, i requires 0 <= i < |selected| => Hist(selected[i]))
  }

  /** The render calls of each checkbox, once two or more columns are selected. */
  function PairplotCalls(w: Widgets): seq<PlotRequest> {
    if w.toggles.pairplot then [Pairplot(w.selected)] else []
  }

  function HeatmapCalls(w: Widgets): seq<PlotRequest> {
    if w.toggles.heatmap then [Heatmap(w.selected)] else []
  }

  function LineCalls(columns: seq<string>, w: Widgets): seq<PlotRequest>
    requires ValidWidgets(columns, w)
  {
    if LinesShown(columns, w) then Lines(TimeAxis(columns, w), w.selected) else []
  }

  function HistCalls(w: Widgets): seq<PlotRequest> {
    if w.toggles.histograms then Hists(w.selected) else []
  }

  function ScatterCalls(w: Widgets): seq<PlotRequest>
    requires Fits(w.hue, |w.selected|) && Fits(w.size, |w.selected|)
  {
    if ScatterShown(w) then
      [Scatter(w.selected[0], w.selected[1], Pick(w.selected, 0, w.hue), Pick(w.selected, 1, w.size))]
    else []
  }

  /** The render calls of one pass over the page, in the order they are made. */
  function PlotPlan(columns: seq<string>, w: Widgets): seq<PlotRequest>
    requires ValidWidgets(columns, w)
  {
    if |w.selected| <= 1 then []
    else PairplotCalls(w) + HeatmapCalls(w) + LineCalls(columns, w) + HistCalls(w) + ScatterCalls(w)
  }

  // ---------------------------------------------------------------------
  // The page code itself, emitting one render call at a time
  // ---------------------------------------------------------------------

  /** The loop over the selection for the line plots: one call per column
      other than the time axis, in selection order. */
  method EmitLines(timeCol: string, selected: seq<string>) returns (calls: seq<PlotRequest>)
    ensures calls == Lines(timeCol, selected)
  {
    calls := [];
    for i := 0 to |selected|
      invariant calls == Lines(timeCol, selected[..i])
    {
      if selected[i] != timeCol {
        calls := calls + [Line(timeCol, selected[i])];
      }
      LinesAppend(timeCol, selected[..i], selected[i]);
      assert selected[..i + 1] == selected[..i] + [selected[i]];
    }
    assert selected[..|selected|] == selected;
  }

  /** The loop over the selection for the histograms: one call per column, in
      selection order. */
  method EmitHists(selected: seq<string>) returns (calls: seq<PlotRequest>)
    ensures calls == Hists(selected)
  {
    calls := [];
    for i := 0 to |selected|
      invariant calls == Hists(selected[..i])
    {
      calls := calls + [Hist(selected[i])];
      assert Hists(selected[..i + 1]) == Hists(selected[..i]) + [Hist(selected[i])];
    }
    assert selected[..|selected|] == selected;
  }

  /** The selection block of the page: each ticked and eligible checkbox
      issues its render calls, in the page's order. */
  method RenderPlots(columns: seq<string>, w: Widgets) returns (plan: seq<PlotRequest>)
    requires ValidWidgets(columns, w)
    ensures plan == PlotPlan(columns, w)
  {
    plan := [];
    var selected := w.selected;
    if |selected| > 1 {
      if w.toggles.pairplot {
        plan := plan + [Pairplot(selected)];
      }
      if w.toggles.heatmap {
        plan := plan + [Heatmap(selected)];
      }
      assert plan == PairplotCalls(w) + HeatmapCalls(w);
      if TimeColumn in columns && w.toggles.timeSeries {
        var timeCol := Pick(columns, 0, w.timeAxis);
        var lines := EmitLines(timeCol, selected);
        plan := plan + lines;
      }
      assert plan == PairplotCalls(w) + HeatmapCalls(w) + LineCalls(columns, w);
      if w.toggles.histograms {
        var hists := EmitHists(selected);
        plan := plan + hists;
      }
      assert plan == PairplotCalls(w) + HeatmapCalls(w) + LineCalls(columns, w) + HistCalls(w);
      if |selected| >= 3 && w.toggles.scatter {
        var hueCol := Pick(selected, 0, w.hue);
        var sizeCol := Pick(selected, 1, w.size);
        plan := plan + [Scatter(selected[0], selected[1], hueCol, sizeCol)];
      }
    }
  }

  // ---------------------------------------------------------------------
  // Line plots
  // ---------------------------------------------------------------------

  /** Extending the selection by one column adds at most its line plot at the end. */
  lemma {:induction false} LinesAppend(time: string, s: seq<string>, c: string)
    ensures Lines(time, s + [c]) == Lines(time, s) + (if c != time then [Line(time, c)] else [])
  {
    if s != [] {
      assert (s + [c])[1..] == s[1..] + [c];
      LinesAppend(time, s[1..], c);
    }
  }

  lemma {:induction false} LinesConcat(time: string, a: seq<string>, b: seq<string>)
    ensures Lines(time, a + b) == Lines(time, a) + Lines(time, b)
  {
    if a == [] {
      assert a + b == b;
    } else {
      assert (a + b)[1..] == a[1..] + b;
      LinesConcat(time, a[1..], b);
    }
  }

  /** Without the time axis among them, every selected column gets its line plot, in order. */
  lemma {:induction false} LinesWithoutTime(time: string, s: seq<string>)
    requires time !in s
    ensures |Lines(time, s)| == |s|
    ensures forall i :: 0 <= i < |s| ==> Lines(time, s)[i] == Line(time, s[i])
  {
    if s != [] {
      LinesWithoutTime(time, s[1..]);
      assert forall i :: 1 <= i < |s| ==> Lines(time, s)[i] == Lines(time, s[1..])[i - 1];
    }
  }

  /** With the time axis at position `k` of a selection without repeats, the
      line plots are those of the columns before `k` followed by those after it. */
  lemma LinesSkipping(time: string, s: seq<string>, k: nat)
    requires Distinct(s) && k < |s| && s[k] == time
    ensures |Lines(time, s)| == |s| - 1
    ensures forall i :: 0 <= i < k ==> Lines(time, s)[i] == Line(time, s[i])
    ensures forall i :: k <= i < |s| - 1 ==> Lines(time, s)[i] == Line(time, s[i + 1])
  {
    var pre, post := s[..k], s[k + 1..];
    assert s == pre + [time] + post;
    assert time !in pre && time !in post;
    LinesConcat(time, pre + [time], post);
    LinesAppend(time, pre, time);
    LinesWithoutTime(time, pre);
    LinesWithoutTime(time, post);
    var lines := Lines(time, s);
    assert lines == Lines(time, pre) + Lines(time, post);
    forall i | 0 <= i < k ensures lines[i] == Line(time, s[i]) {
      assert lines[i] == Lines(time, pre)[i];
    }
    forall i | k <= i < |s| - 1 ensures lines[i] == Line(time, s[i + 1]) {
      assert lines[i] == Lines(time, post)[i - k];
    }
  }

  /** The line plots follow the selection order and skip exactly the time axis:
      with the time axis at position `k`, plot `i` is of column `i` before `k`
      and of column `i + 1` from `k` on. */
  lemma {:induction false} LinesInSelectionOrder(time: string, s: seq<string>)
    requires Distinct(s)
    ensures |Lines(time, s)| == |s| - (if time in s then 1 else 0)
    ensures time !in s ==> forall i :: 0 <= i < |s| ==> Lines(time, s)[i] == Line(time, s[i])
    ensures forall k :: 0 <= k < |s| && s[k] == time ==>
      (forall i :: 0 <= i < k ==> Lines(time, s)[i] == Line(time, s[i])) &&
      (forall i :: k <= i < |s| - 1 ==> Lines(time, s)[i] == Line(time, s[i + 1]))
  {
    if time !in s {
      LinesWithoutTime(time, s);
    } else {
      var k :| 0 <= k < |s| && s[k] == time;
      LinesSkipping(time, s, k);
      forall k' | 0 <= k' < |s| && s[k'] == time ensures k' == k {
      }
    }
  }

  // ---------------------------------------------------------------------
  // The plan as a whole
  // ---------------------------------------------------------------------

  /** The position of a render call's kind in the page: pair plot, heat map,
      line plots, histograms, scatter plot. */
  function Stage(p: PlotRequest): nat {
    match p
    case Pairplot(_) => 0
    case Heatmap(_) => 1
    case Line(_, _) => 2
    case Hist(_) => 3
    case Scatter(_, _, _, _) => 4
  }

  predicate StagesOrdered(s: seq<PlotRequest>) {
    forall i, j :: 0 <= i < j < |s| ==> Stage(s[i]) <= Stage(s[j])
  }

  predicate AllInStage(s: seq<PlotRequest>, k: nat) {
    forall i :: 0 <= i < |s| ==> Stage(s[i]) == k
  }

  predicate StagesAtMost(s: seq<PlotRequest>, k: nat) {
    forall i :: 0 <= i < |s| ==> Stage(s[i]) <= k
  }

  /** Appending calls of stage `k` after calls of stage at most `k` keeps the order. */
  lemma AppendStage(a: seq<PlotRequest>, b: seq<PlotRequest>, k: nat)
    requires StagesOrdered(a) && StagesAtMost(a, k) && AllInStage(b, k)
    ensures StagesOrdered(a + b) && StagesAtMost(a + b, k)
  {
    forall i, j | 0 <= i < j < |a + b| ensures Stage((a + b)[i]) <= Stage((a + b)[j]) {
      if j >= |a| {
        assert (a + b)[j] == b[j - |a|];
        if i >= |a| {
          assert (a + b)[i] == b[i - |a|];
        } else {
          assert (a + b)[i] == a[i];
        }
      } else {
        assert (a + b)[i] == a[i] && (a + b)[j] == a[j];
      }
    }
    forall i | 0 <= i < |a + b| ensures Stage((a + b)[i]) <= k {
      if i >= |a| {
        assert (a + b)[i] == b[i - |a|];
      } else {
        assert (a + b)[i] == a[i];
      }
    }
  }

  lemma {:induction false} LinesStage(time: string, s: seq<string>)
    ensures AllInStage(Lines(time, s), 2)
  {
    if s != [] {
      LinesStage(time, s[1..]);
    }
  }

  /** Five blocks, each of a single stage, in stage order. */
  lemma OrderedBlocks(b0: seq<PlotRequest>, b1: seq<PlotRequest>, b2: seq<PlotRequest>,
                      b3: seq<PlotRequest>, b4: seq<PlotRequest>)
    requires AllInStage(b0, 0) && AllInStage(b1, 1) && AllInStage(b2, 2)
    requires AllInStage(b3, 3) && AllInStage(b4, 4)
    ensures StagesOrdered(b0 + b1 + b2 + b3 + b4)
  {
    AppendStage([], b0, 0);
    assert [] + b0 == b0;
    AppendStage(b0, b1, 1);
    AppendStage(b0 + b1, b2, 2);
    AppendStage(b0 + b1 + b2, b3, 3);
    AppendStage(b0 + b1 + b2 + b3, b4, 4);
  }

  /** The render calls come in the page's order: pair plot, heat map, line
      plots, histograms, scatter plot. */
  lemma PlanInPageOrder(columns: seq<string>, w: Widgets)
    requires ValidWidgets(columns, w)
    ensures StagesOrdered(PlotPlan(columns, w))
  {
    if |w.selected| > 1 {
      var b0, b1, b2, b3, b4 := PairplotCalls(w), HeatmapCalls(w), LineCalls(columns, w), HistCalls(w), ScatterCalls(w);
      if LinesShown(columns, w) {
        LinesStage(TimeAxis(columns, w), w.selected);
      }
      assert AllInStage(b0, 0) && AllInStage(b1, 1) && AllInStage(b2, 2);
      assert AllInStage(b3, 3) && AllInStage(b4, 4);
      OrderedBlocks(b0, b1, b2, b3, b4);
    }
  }

  /** How many render calls of stage `k` a plan holds. */
  function CountStage(s: seq<PlotRequest>, k: nat): nat {
    if s == [] then 0 else (if Stage(s[0]) == k then 1 else 0) + CountStage(s[1..], k)
  }

  lemma {:induction false} CountStageAppend(a: seq<PlotRequest>, b: seq<PlotRequest>, k: nat)
    ensures CountStage(a + b, k) == CountStage(a, k) + CountStage(b, k)
  {
    if a == [] {
      assert a + b == b;
    } else {
      assert (a + b)[1..] == a[1..] + b;
      CountStageAppend(a[1..], b, k);
    }
  }

  lemma {:induction false} CountUniform(s: seq<PlotRequest>, k: nat, k': nat)
    requires AllInStage(s, k)
    ensures CountStage(s, k') == if k' == k then |s| else 0
  {
    if s != [] {
      CountUniform(s[1..], k, k');
    }
  }

  /** Five blocks, each of a single stage, counted stage by stage. */
  lemma CountBlocks(b0: seq<PlotRequest>, b1: seq<PlotRequest>, b2: seq<PlotRequest>,
                    b3: seq<PlotRequest>, b4: seq<PlotRequest>, k: nat)
    requires AllInStage(b0, 0) && AllInStage(b1, 1) && AllInStage(b2, 2)
    requires AllInStage(b3, 3) && AllInStage(b4, 4)
    ensures CountStage(b0 + b1 + b2 + b3 + b4, k) ==
      if k == 0 then |b0| else if k == 1 then |b1| else if k == 2 then |b2|
      else if k == 3 then |b3| else if k == 4 then |b4| else 0
  {
    CountStageAppend(b0, b1, k);
    CountStageAppend(b0 + b1, b2, k);
    CountStageAppend(b0 + b1 + b2, b3, k);
    CountStageAppend(b0 + b1 + b2 + b3, b4, k);
    CountUniform(b0, 0, k);
    CountUniform(b1, 1, k);
    CountUniform(b2, 2, k);
    CountUniform(b3, 3, k);
    CountUniform(b4, 4, k);
  }

  /** How many render calls of each kind the page makes: none of any kind with
      fewer than two selected columns; otherwise one pair plot and one heat map
      when ticked, one line plot per selected column other than the time axis,
      one histogram per selected column, and a single scatter plot. */
  lemma PlanCounts(columns: seq<string>, w: Widgets)
    requires ValidWidgets(columns, w)
    ensures CountStage(PlotPlan(columns, w), 0) == if |w.selected| > 1 && w.toggles.pairplot then 1 else 0
    ensures CountStage(PlotPlan(columns, w), 1) == if |w.selected| > 1 && w.toggles.heatmap then 1 else 0
    ensures CountStage(PlotPlan(columns, w), 2) ==
      if LinesShown(columns, w) then |w.selected| - (if TimeAxis(columns, w) in w.selected then 1 else 0) else 0
    ensures CountStage(PlotPlan(columns, w), 3) == if |w.selected| > 1 && w.toggles.histograms then |w.selected| else 0
    ensures CountStage(PlotPlan(columns, w), 4) == if ScatterShown(w) then 1 else 0
  {
    var sel := w.selected;
    if |sel| > 1 {
      var b0, b1, b2, b3, b4 := PairplotCalls(w), HeatmapCalls(w), LineCalls(columns, w), HistCalls(w), ScatterCalls(w);
      if LinesShown(columns, w) {
        LinesStage(TimeAxis(columns, w), sel);
        LinesInSelectionOrder(TimeAxis(columns, w), sel);
      }
      assert AllInStage(b0, 0) && AllInStage(b1, 1) && AllInStage(b2, 2);
      assert AllInStage(b3, 3) && AllInStage(b4, 4);
      CountBlocks(b0, b1, b2, b3, b4, 0);
      CountBlocks(b0, b1, b2, b3, b4, 1);
      CountBlocks(b0, b1, b2, b3, b4, 2);
      CountBlocks(b0, b1, b2, b3, b4, 3);
      CountBlocks(b0, b1, b2, b3, b4, 4);
    }
  }

  /** What each render call is about. Pair plot and heat map take exactly the
      selected columns; a line plot puts a selected column other than the time
      axis against the time axis, and only when the table has a `time` column;
      a histogram is of a selected column; the scatter plot puts the first
      selected column on x and the second on y, in click order, with hue and
      size among the selected columns. */
  predicate Describes(columns: seq<string>, w: Widgets, p: PlotRequest)
    requires ValidWidgets(columns, w)
  {
    match p
    case Pairplot(vars) => vars == w.selected
    case Heatmap(vars) => vars == w.selected
    case Line(x, y) => LinesShown(columns, w) && x == TimeAxis(columns, w) && y in w.selected && y != x
    case Hist(c) => c in w.selected
    case Scatter(x, y, hue, size) =>
      |w.selected| >= 3 && x == w.selected[0] && y == w.selected[1] &&
      hue in w.selected && size in w.selected
  }

  lemma {:induction false} LinesDescribe(columns: seq<string>, w: Widgets, s: seq<string>)
    requires ValidWidgets(columns, w) && LinesShown(columns, w)
    requires forall i :: 0 <= i < |s| ==> s[i] in w.selected
    ensures forall i :: 0 <= i < |Lines(TimeAxis(columns, w), s)| ==>
      Describes(columns, w, Lines(TimeAxis(columns, w), s)[i])
  {
    if s != [] {
      LinesDescribe(columns, w, s[1..]);
      var time := TimeAxis(columns, w);
      var head := if s[0] != time then [Line(time, s[0])] else [];
      assert Lines(time, s) == head + Lines(time, s[1..]);
    }
  }

  /** Every render call the page makes is one `Describes` allows. */
  lemma PlanContents(columns: seq<string>, w: Widgets)
    requires ValidWidgets(columns, w)
    ensures forall i :: 0 <= i < |PlotPlan(columns, w)| ==> Describes(columns, w, PlotPlan(columns, w)[i])
  {
    var sel := w.selected;
    if |sel| > 1 {
      var b0, b1, b2, b3, b4 := PairplotCalls(w), HeatmapCalls(w), LineCalls(columns, w), HistCalls(w), ScatterCalls(w);
      if LinesShown(columns, w) {
        LinesDescribe(columns, w, sel);
      }
      var plan := b0 + b1 + b2 + b3 + b4;
      assert PlotPlan(columns, w) == plan;
      assert forall i :: 0 <= i < |b0| ==> Describes(columns, w, b0[i]);
      assert forall i :: 0 <= i < |b1| ==> Describes(columns, w, b1[i]);
      assert forall i :: 0 <= i < |b3| ==> Describes(columns, w, b3[i]);
      assert forall i :: 0 <= i < |b4| ==> Describes(columns, w, b4[i]);
    }
  }

  /** Nothing is drawn with fewer than two selected columns, whatever is ticked. */
  lemma PlanNeedsTwoColumns(columns: seq<string>, w: Widgets)
    requires ValidWidgets(columns, w) && |w.selected| < 2
    ensures PlotPlan(columns, w) == []
  {
  }

  /** A table without a `time` column never gets line plots. */
  lemma NoTimeColumnNoLines(columns: seq<string>, w: Widgets)
    requires ValidWidgets(columns, w) && TimeColumn !in columns
    ensures forall i :: 0 <= i < |PlotPlan(columns, w)| ==> !PlotPlan(columns, w)[i].Line?
  {
    PlanContents(columns, w);
  }

  /** Selecting B, then A, then C and ticking only the scatter plot with the
      default hue and size: x is B and y is A, following click order. */
  lemma ScatterFollowsClickOrder()
    ensures PlotPlan(["A", "B", "C"], Widgets(["B", "A", "C"], Toggles(false, false, false, false, true), Default, Default, Default))
      == [Scatter("B", "A", "B", "A")]
  {
  }

  /** A table with a `time` column, X and Y selected, the time series ticked
      and `time` as the axis: exactly one line plot for X and one for Y. */
  lemma TimeSeriesOfTwoColumns()
    ensures PlotPlan(["time", "X", "Y"], Widgets(["X", "Y"], Toggles(false, false, true, false, false), Default, Default, Default))
      == [Line("time", "X"), Line("time", "Y")]
  {
  }

  /** Two selected columns, no `time` column and every box ticked: pair plot,
      heat map and one histogram per column, but no line or scatter plot. */
  lemma TwoColumnsWithoutTime()
    ensures PlotPlan(["A", "B"], Widgets(["A", "B"], Toggles(true, true, true, true, true), Default, Default, Default))
      == [Pairplot(["A", "B"]), Heatmap(["A", "B"]), Hist("A"), Hist("B")]
  {
  }
}
