/** widgets/chart.py: chart type, point count and update mode, then the four
    axes in a fixed order, then one series per entry. */
module ChartWidget {
  import opened Wrappers
  import opened Strings
  import opened Emit
  import Helpers

  /** `CHART_TYPES`. */
  const ChartTypes: map<string, string> := map[
    "NONE" := "LV_CHART_TYPE_NONE", "LINE" := "LV_CHART_TYPE_LINE",
    "BAR" := "LV_CHART_TYPE_BAR", "SCATTER" := "LV_CHART_TYPE_SCATTER"]

  /** `UPDATE_MODES`. */
  const UpdateModes: map<string, string> := map[
    "SHIFT" := "LV_CHART_UPDATE_MODE_SHIFT", "CIRCULAR" := "LV_CHART_UPDATE_MODE_CIRCULAR"]

  /** The axis keys and their constants, in the order `to_code` visits them. */
  const AxisOrder: seq<(string, string)> := [
    ("axis_primary_y", "LV_CHART_AXIS_PRIMARY_Y"), ("axis_secondary_y", "LV_CHART_AXIS_SECONDARY_Y"),
    ("axis_primary_x", "LV_CHART_AXIS_PRIMARY_X"), ("axis_secondary_x", "LV_CHART_AXIS_SECONDARY_X")]

  const DefaultSeriesColor := "lv_palette_main(LV_PALETTE_RED)"

  /** An axis mapping after `AXIS_SCHEMA`. */
  datatype Axis = Axis(minValue: Option<Value>, maxValue: Option<Value>, divLineCount: Option<nat>)

  /** A series after `SERIES_SCHEMA`; `kind` is an upper-cased `CHART_TYPES` key. */
  datatype Series = Series(id: string, color: Option<Value>, points: seq<Value>, kind: Option<string>)

  /** A chart configuration; the three optional scalars are `None` until the
      schema supplies their defaults. */
  datatype ChartConf = ChartConf(kind: Option<string>, pointCount: Option<int>, updateMode: Option<string>,
                                 axes: map<string, Axis>, series: seq<Series>)

  /** `CHART_SCHEMA`'s defaults and enums: type `LINE`, point count 10 (a
      non-negative integer), update mode `SHIFT`; the enums accept any case. */
  function Schema(c: ChartConf): (r: Result<ChartConf, string>)
    ensures r.Ok? <==>
      && (c.kind.Some? ==> Upper(c.kind.value) in ChartTypes)
      && (c.pointCount.Some? ==> c.pointCount.value >= 0)
      && (c.updateMode.Some? ==> Upper(c.updateMode.value) in UpdateModes)
    ensures r.Ok? ==> r.value.kind == Some(if c.kind.Some? then Upper(c.kind.value) else "LINE")
    ensures r.Ok? ==> r.value.pointCount == Some(c.pointCount.GetOr(10))
    ensures r.Ok? ==> r.value.updateMode == Some(if c.updateMode.Some? then Upper(c.updateMode.value) else "SHIFT")
    ensures r.Ok? ==> r.value.axes == c.axes && r.value.series == c.series
  {
    var kind := if c.kind.Some? then Upper(c.kind.value) else "LINE";
    var mode := if c.updateMode.Some? then Upper(c.updateMode.value) else "SHIFT";
    var count := c.pointCount.GetOr(10);
    if kind !in ChartTypes then Err("Unknown value " + kind)
    else if count < 0 then Err("Value must be at least 0")
    else if mode !in UpdateModes then Err("Unknown value " + mode)
    else Ok(ChartConf(Some(kind), Some(count), Some(mode), c.axes, c.series))
  }

  predicate Validated(c: ChartConf) {
    && c.kind.Some? && c.kind.value in ChartTypes
    && c.pointCount.Some?
    && c.updateMode.Some? && c.updateMode.value in UpdateModes
  }

  /** What `_configure_axis` emits for one axis. */
  function AxisOps(obj: string, axes: map<string, Axis>, key: string, axisConst: string): seq<Op> {
    if key in axes then
      var a := axes[key];
      (if a.minValue.Some? && a.maxValue.Some?
       then [Call("chart_set_range", [Var(obj), Lit(axisConst), V(a.minValue.value), V(a.maxValue.value)])] else [])
      + (if a.divLineCount.Some?
         then [Call("chart_set_div_line_count", [Var(obj), Num(a.divLineCount.value), Num(a.divLineCount.value)])] else [])
    else []
  }

  function AxesOps(obj: string, axes: map<string, Axis>, order: seq<(string, string)>): seq<Op>
    decreases |order|
  {
    if |order| == 0 then []
    else AxesOps(obj, axes, order[..|order| - 1]) + AxisOps(obj, axes, order[|order| - 1].0, order[|order| - 1].1)
  }

  /** What `_add_series` emits: the series is always added on the primary Y
      axis, in red unless it has a colour. */
  function SeriesOp(obj: string, s: Series): Op {
    Call("chart_add_series", [Var(obj), if s.color.Some? then V(s.color.value) else Lit(DefaultSeriesColor),
                              Lit("LV_CHART_AXIS_PRIMARY_Y")])
  }

  function SeriesOps(obj: string, ss: seq<Series>): seq<Op>
    decreases |ss|
  {
    if |ss| == 0 then [] else SeriesOps(obj, ss[..|ss| - 1]) + [SeriesOp(obj, ss[|ss| - 1])]
  }

  /** Everything `to_code` emits, in order. */
  function ChartOps(obj: string, c: ChartConf): seq<Op>
    requires Validated(c)
  {
    HeaderOps(obj, c) + AxesOps(obj, c.axes, AxisOrder) + SeriesOps(obj, c.series)
  }

  /** The type, the point count and the update mode. */
  function HeaderOps(obj: string, c: ChartConf): (r: seq<Op>)
    requires Validated(c)
    ensures |r| == 3
  {
    [ Call("chart_set_type", [Var(obj), Lit(ChartTypes[c.kind.value])]),
      Call("chart_set_point_count", [Var(obj), Num(c.pointCount.value)]),
      Call("chart_set_update_mode", [Var(obj), Lit(UpdateModes[c.updateMode.value])]) ]
  }

  /** `ChartType._configure_axis`. */
  method ConfigureAxis(code: Code, obj: string, axes: map<string, Axis>, key: string, axisConst: string)
    modifies code
    ensures code.ops == old(code.ops) + AxisOps(obj, axes, key, axisConst)
    ensures code.defines == old(code.defines) && code.warnings == old(code.warnings)
  {
    if key in axes {
      var axis := axes[key];
      if axis.minValue.Some? && axis.maxValue.Some? {
        code.Call("chart_set_range", [Var(obj), Lit(axisConst), V(axis.minValue.value), V(axis.maxValue.value)]);
      }
      if axis.divLineCount.Some? {
        var divCount := axis.divLineCount.value;
        code.Call("chart_set_div_line_count", [Var(obj), Num(divCount), Num(divCount)]);
      }
    }
  }

  /** `ChartType._add_series`; the series type lookup and the points loop
      emit nothing. */
  method AddSeries(code: Code, obj: string, s: Series)
    modifies code
    ensures code.ops == old(code.ops) + [SeriesOp(obj, s)]
    ensures code.defines == old(code.defines) && code.warnings == old(code.warnings)
  {
    var color := if s.color.Some? then V(s.color.value) else Lit(DefaultSeriesColor);
    code.Call("chart_add_series", [Var(obj), color, Lit("LV_CHART_AXIS_PRIMARY_Y")]);
  }

  /** `ChartType.to_code`. */
  method ToCode(code: Code, uses: Helpers.Uses, obj: string, c: ChartConf)
    requires Validated(c)
    modifies code, uses
    ensures code.ops == old(code.ops) + ChartOps(obj, c)
    ensures code.defines == old(code.defines) && code.warnings == old(code.warnings)
    ensures uses.componentsRequired == old(uses.componentsRequired) + {"chart"}
    ensures uses.lvUses == old(uses.lvUses)
  {
    uses.AddComponent("chart");
    code.Call("chart_set_type", [Var(obj), Lit(ChartTypes[c.kind.value])]);
    code.Call("chart_set_point_count", [Var(obj), Num(c.pointCount.value)]);
    code.Call("chart_set_update_mode", [Var(obj), Lit(UpdateModes[c.updateMode.value])]);
    ConfigureAxes(code, obj, c.axes);
    AddAllSeries(code, obj, c.series);
  }

  /** The loop over the four axes of `AxisOrder`. */
  method ConfigureAxes(code: Code, obj: string, axes: map<string, Axis>)
    modifies code
    ensures code.ops == old(code.ops) + AxesOps(obj, axes, AxisOrder)
    ensures code.defines == old(code.defines) && code.warnings == old(code.warnings)
  {
    var i := 0;
    while i < |AxisOrder|
      invariant 0 <= i <= |AxisOrder|
      invariant code.ops == old(code.ops) + AxesOps(obj, axes, AxisOrder[..i])
      invariant code.defines == old(code.defines) && code.warnings == old(code.warnings)
    {
      assert AxisOrder[..i + 1][..i] == AxisOrder[..i];
      ConfigureAxis(code, obj, axes, AxisOrder[i].0, AxisOrder[i].1);
      i := i + 1;
    }
    assert AxisOrder[..i] == AxisOrder;
  }

  /** The loop over the series. */
  method AddAllSeries(code: Code, obj: string, ss: seq<Series>)
    modifies code
    ensures code.ops == old(code.ops) + SeriesOps(obj, ss)
    ensures code.defines == old(code.defines) && code.warnings == old(code.warnings)
  {
    var j := 0;
    while j < |ss|
      invariant 0 <= j <= |ss|
      invariant code.ops == old(code.ops) + SeriesOps(obj, ss[..j])
      invariant code.defines == old(code.defines) && code.warnings == old(code.warnings)
    {
      assert ss[..j + 1][..j] == ss[..j];
      AddSeries(code, obj, ss[j]);
      j := j + 1;
    }
    assert ss[..j] == ss;
  }

  /** The defaults: a line chart of 10 points that shifts. */
  lemma Defaults(obj: string)
    ensures Schema(ChartConf(None, None, None, map[], [])).Ok?
    ensures var c := Schema(ChartConf(None, None, None, map[], [])).value;
      Validated(c) && ChartOps(obj, c)[..3] == [
        Call("chart_set_type", [Var(obj), Lit("LV_CHART_TYPE_LINE")]),
        Call("chart_set_point_count", [Var(obj), Num(10)]),
        Call("chart_set_update_mode", [Var(obj), Lit("LV_CHART_UPDATE_MODE_SHIFT")])]
  {
    assert Upper("LINE") == "LINE" && Upper("SHIFT") == "SHIFT";
  }

  /** A range is set for an axis exactly when both bounds are given, and the
      division line count is passed twice. */
  lemma AxisRange(obj: string, axes: map<string, Axis>, key: string, axisConst: string)
    ensures var ops := AxisOps(obj, axes, key, axisConst);
      && (CountCalls(ops, "chart_set_range") == 1 <==> key in axes && axes[key].minValue.Some? && axes[key].maxValue.Some?)
      && (forall op | op in ops && op.fn == "chart_set_div_line_count" :: op.args[1] == op.args[2])
  {
    var ops := AxisOps(obj, axes, key, axisConst);
    if key in axes {
      var a := axes[key];
      var r := if a.minValue.Some? && a.maxValue.Some?
        then [Call("chart_set_range", [Var(obj), Lit(axisConst), V(a.minValue.value), V(a.maxValue.value)])] else [];
      var d := if a.divLineCount.Some?
        then [Call("chart_set_div_line_count", [Var(obj), Num(a.divLineCount.value), Num(a.divLineCount.value)])] else [];
      CountCallsAppend(r, d, "chart_set_range");
      assert d == [] || d[..0] == [];
    }
  }

  /** One `chart_add_series` per series, in list order: the k-th emitted
      operation belongs to the k-th series. */
  lemma {:induction false} SeriesInOrder(obj: string, ss: seq<Series>)
    ensures |SeriesOps(obj, ss)| == |ss|
    ensures forall k :: 0 <= k < |ss| ==> SeriesOps(obj, ss)[k] == SeriesOp(obj, ss[k])
    decreases |ss|
  {
    if |ss| > 0 {
      SeriesInOrder(obj, ss[..|ss| - 1]);
    }
  }

  /** A series' points and type change nothing that is emitted. */
  lemma PointsIgnored(obj: string, s: Series, points: seq<Value>, kind: Option<string>)
    ensures SeriesOp(obj, s.(points := points, kind := kind)) == SeriesOp(obj, s)
  {
  }

  /** Axes are configured in the order primary Y, secondary Y, primary X,
      secondary X, after the three header calls and before the series. */
  lemma AxesInOrder(obj: string, c: ChartConf)
    requires Validated(c)
    ensures ChartOps(obj, c)[3..] ==
      AxisOps(obj, c.axes, "axis_primary_y", "LV_CHART_AXIS_PRIMARY_Y")
      + AxisOps(obj, c.axes, "axis_secondary_y", "LV_CHART_AXIS_SECONDARY_Y")
      + AxisOps(obj, c.axes, "axis_primary_x", "LV_CHART_AXIS_PRIMARY_X")
      + AxisOps(obj, c.axes, "axis_secondary_x", "LV_CHART_AXIS_SECONDARY_X")
      + SeriesOps(obj, c.series)
  {
    AxesFour(obj, c.axes);
    var rest := AxesOps(obj, c.axes, AxisOrder) + SeriesOps(obj, c.series);
    assert ChartOps(obj, c) == HeaderOps(obj, c) + rest;
    assert (HeaderOps(obj, c) + rest)[3..] == rest;
  }

  /** The four axes of `AxisOrder`, one after the other. */
  lemma AxesFour(obj: string, a: map<string, Axis>)
    ensures AxesOps(obj, a, AxisOrder) ==
      AxisOps(obj, a, "axis_primary_y", "LV_CHART_AXIS_PRIMARY_Y")
      + AxisOps(obj, a, "axis_secondary_y", "LV_CHART_AXIS_SECONDARY_Y")
      + AxisOps(obj, a, "axis_primary_x", "LV_CHART_AXIS_PRIMARY_X")
      + AxisOps(obj, a, "axis_secondary_x", "LV_CHART_AXIS_SECONDARY_X")
  {
    var o := AxisOrder;
    var a1 := AxisOps(obj, a, "axis_primary_y", "LV_CHART_AXIS_PRIMARY_Y");
    var a2 := AxisOps(obj, a, "axis_secondary_y", "LV_CHART_AXIS_SECONDARY_Y");
    var a3 := AxisOps(obj, a, "axis_primary_x", "LV_CHART_AXIS_PRIMARY_X");
    var a4 := AxisOps(obj, a, "axis_secondary_x", "LV_CHART_AXIS_SECONDARY_X");
    assert o[..1][..0] == [] && o[..2][..1] == o[..1] && o[..3][..2] == o[..2] && o[..4][..3] == o[..3];
    assert AxesOps(obj, a, o[..1]) == a1;
    assert AxesOps(obj, a, o[..2]) == a1 + a2;
    assert AxesOps(obj, a, o[..3]) == a1 + a2 + a3;
    assert o[..4] == o;
  }
}
