/** widgets/lv_bar.py: the bar widget's schema check and its `to_code`. */
module BarWidget {
  import opened Wrappers
  import opened Emit

  const KeyValue := "value"
  const KeyStartValue := "start_value"
  const KeyMin := "min_value"
  const KeyMax := "max_value"
  const KeyMode := "mode"
  const KeyAnimated := "animated"
  const RangeMode := "LV_BAR_MODE_RANGE"

  /** `validate_bar`, on a configuration whose values have been converted. */
  function ValidateBar(config: Config): (r: Result<Config, string>)
    ensures r.Ok? <==>
      && (KeyStartValue in config ==> KeyMode in config && config[KeyMode] == Str(RangeMode))
      && ((KeyMin in config) <==> (KeyMax in config))
    ensures r.Ok? ==> r.value == config
    ensures r.Err? && KeyStartValue in config && (KeyMode !in config || config[KeyMode] != Str(RangeMode)) ==>
      r.error == "start_value is only allowed when mode is set to 'RANGE'"
  {
    if (KeyMode !in config || config[KeyMode] != Str(RangeMode)) && KeyStartValue in config then
      Err("start_value is only allowed when mode is set to 'RANGE'")
    else if (KeyMin in config) != (KeyMax in config) then
      Err("If either min_value or max_value is set, both must be set")
    else
      Ok(config)
  }

  /** `BAR_SCHEMA`: the `animated` default, then `validate_bar`. */
  function Schema(config: Config): (r: Result<Config, string>)
    ensures r.Ok? ==> KeyAnimated in r.value
    ensures r.Ok? ==> r.value[KeyAnimated] == (if KeyAnimated in config then config[KeyAnimated] else Bool(true))
    ensures r.Ok? ==> forall k :: k in config ==> k in r.value && r.value[k] == config[k]
  {
    ValidateBar(if KeyAnimated in config then config else config[KeyAnimated := Bool(true)])
  }

  /** What the source demands of the configuration `to_code` receives. */
  predicate Validated(config: Config) {
    KeyAnimated in config && (KeyMin in config ==> KeyMax in config)
  }

  function ModeOps(obj: string, config: Config): seq<Op> {
    if Given(config, KeyMode) then [Call("bar_set_mode", [Var(obj), V(config[KeyMode])])] else []
  }

  function RangeOps(obj: string, config: Config): seq<Op>
    requires Validated(config)
  {
    if KeyMin in config then [Call("bar_set_range", [Var(obj), V(config[KeyMin]), V(config[KeyMax])])] else []
  }

  function SetValueOps(obj: string, config: Config): seq<Op>
    requires Validated(config)
  {
    if Given(config, KeyValue) then [Call("bar_set_value", [Var(obj), V(config[KeyValue]), V(config[KeyAnimated])])] else []
  }

  function SetStartValueOps(obj: string, config: Config): seq<Op>
    requires Validated(config)
  {
    if Given(config, KeyStartValue) then [Call("bar_set_start_value", [Var(obj), V(config[KeyStartValue]), V(config[KeyAnimated])])] else []
  }

  function ValueOps(obj: string, config: Config): seq<Op>
    requires Validated(config)
  {
    SetValueOps(obj, config) + SetStartValueOps(obj, config)
  }

  /** Everything `to_code` emits, in order. */
  function BarOps(obj: string, config: Config): seq<Op>
    requires Validated(config)
  {
    ModeOps(obj, config) + RangeOps(obj, config) + ValueOps(obj, config)
  }

  /** `BarType.to_code`. */
  method ToCode(code: Code, obj: string, config: Config)
    requires Validated(config)
    modifies code
    ensures code.ops == old(code.ops) + BarOps(obj, config)
    ensures code.defines == old(code.defines) && code.warnings == old(code.warnings)
  {
    ghost var o := code.ops;
    ghost var m, g := ModeOps(obj, config), RangeOps(obj, config);
    ghost var v1, v2 := SetValueOps(obj, config), SetStartValueOps(obj, config);
    if KeyMode in config && Truthy(config[KeyMode]) {
      code.Call("bar_set_mode", [Var(obj), V(config[KeyMode])]);
    }
    assert code.ops == o + m;
    var isAnimated := V(config[KeyAnimated]);
    if KeyMin in config {
      code.Call("bar_set_range", [Var(obj), V(config[KeyMin]), V(config[KeyMax])]);
    }
    assert code.ops == o + m + g;
    if KeyValue in config && Truthy(config[KeyValue]) {
      code.Call("bar_set_value", [Var(obj), V(config[KeyValue]), isAnimated]);
    }
    assert code.ops == o + m + g + v1;
    if KeyStartValue in config && Truthy(config[KeyStartValue]) {
      code.Call("bar_set_start_value", [Var(obj), V(config[KeyStartValue]), isAnimated]);
    }
    assert code.ops == o + m + g + v1 + v2;
    assert o + m + g + v1 + v2 == o + (m + g + (v1 + v2));
  }

  /** A configuration the schema accepts is one `to_code` can take. */
  lemma SchemaValidates(config: Config)
    requires Schema(config).Ok?
    ensures Validated(Schema(config).value)
  {
  }

  /** Each operation is emitted at most once and exactly under its condition:
      the mode when given, the range iff `min_value` is present, the value and
      the start value when truthy. */
  lemma {:induction false} EmittedExactly(obj: string, config: Config)
    requires Validated(config)
    ensures CountCalls(BarOps(obj, config), "bar_set_mode") == (if Given(config, KeyMode) then 1 else 0)
    ensures CountCalls(BarOps(obj, config), "bar_set_range") == (if KeyMin in config then 1 else 0)
    ensures CountCalls(BarOps(obj, config), "bar_set_value") == (if Given(config, KeyValue) then 1 else 0)
    ensures CountCalls(BarOps(obj, config), "bar_set_start_value") == (if Given(config, KeyStartValue) then 1 else 0)
  {
    assert "bar_set_mode"[8] == 'm' && "bar_set_range"[8] == 'r' && "bar_set_value"[8] == 'v' && "bar_set_start_value"[8] == 's';
    BarCount(obj, config, "bar_set_mode");
    BarCount(obj, config, "bar_set_range");
    BarCount(obj, config, "bar_set_value");
    BarCount(obj, config, "bar_set_start_value");
  }

  /** Each of the four optional statements counts on its own. */
  lemma BarCount(obj: string, config: Config, fn: string)
    requires Validated(config)
    ensures CountCalls(BarOps(obj, config), fn) == Hit(ModeOps(obj, config), fn) + Hit(RangeOps(obj, config), fn)
      + Hit(SetValueOps(obj, config), fn) + Hit(SetStartValueOps(obj, config), fn)
  {
    CountCallsOptionals(ModeOps(obj, config), RangeOps(obj, config), SetValueOps(obj, config), SetStartValueOps(obj, config), fn);
  }

  /** The range passes minimum then maximum, and both value operations carry
      the `animated` flag, which defaults to true. */
  lemma RangeAndAnimation(obj: string, config: Config)
    requires Schema(config).Ok?
    ensures var c := Schema(config).value;
      && (KeyMin in c ==> RangeOps(obj, c) == [Call("bar_set_range", [Var(obj), V(config[KeyMin]), V(config[KeyMax])])])
      && (forall op | op in ValueOps(obj, c) :: op.args[2] == V(if KeyAnimated in config then config[KeyAnimated] else Bool(true)))
  {
  }
}
