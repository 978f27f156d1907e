/** The flex and directional layouts of layout.py, the `FR(n)` track size, and
    `append_layout_schema`, which picks the first layout class whose schemas
    apply to a container.

    A configuration is a map from keys to values. A child schema is reduced to
    its keys and their defaults (`None` for an optional key without one). The
    module-level `FLEX_OBJ_SCHEMA` dictionary is the one field of
    `LayoutRegistry`, because `FlexLayout.get_layout_schemas` writes into it. */
module Layout {
  import opened Wrappers
  import opened Strings
  import opened Emit
  import LayoutGrid

  type ChildSchema = map<string, Option<Value>>

  const KeyLayout := "layout"
  const KeyWidgets := "widgets"
  const KeyType := "type"
  const KeyFlexFlow := "flex_flow"
  const KeyFlexGrow := "flex_grow"
  const KeyAlignMain := "flex_align_main"
  const KeyAlignCross := "flex_align_cross"
  const KeyAlignTrack := "flex_align_track"
  const KeyPadAll := "pad_all"
  const KeyPadRow := "pad_row"
  const KeyPadColumn := "pad_column"
  const KeyWidth := "width"
  const KeyHeight := "height"
  const Stretch := "LV_FLEX_ALIGN_STRETCH"
  const FullSize := "100%"

  /** `cv.Invalid` with its path, and the Python errors a malformed layout
      dictionary can raise before any schema has checked it. */
  datatype LayoutError =
    | Invalid(message: string, path: seq<string>)
    | KeyError(key: string)
    | AttributeError(key: string)

  // ---------------------------------------------------------------------------
  // Directional layouts

  /** The cross-axis dimension of a direction: `height` for `horizontal`,
      `width` otherwise. */
  function HvCrossKey(direction: string): string {
    if direction == "horizontal" then KeyHeight else KeyWidth
  }

  /** `flex_hv_schema(dir)`: children grow by default and fill the cross axis. */
  function FlexHvSchema(direction: string): (r: ChildSchema)
    ensures r.Keys == {KeyFlexGrow, HvCrossKey(direction)}
    ensures r[KeyFlexGrow] == Some(Int(1)) && r[HvCrossKey(direction)] == Some(Str(FullSize))
    ensures direction == "horizontal" ==> KeyHeight in r && KeyWidth !in r
    ensures direction != "horizontal" ==> KeyWidth in r && KeyHeight !in r
  {
    map[KeyFlexGrow := Some(Int(1)), HvCrossKey(direction) := Some(Str(FullSize))]
  }

  /** `FLEX_HV_STYLE`. */
  const FlexHvStyle: map<string, Value> := map[
    KeyAlignMain := Str("LV_FLEX_ALIGN_SPACE_EVENLY"),
    KeyAlignTrack := Str("LV_FLEX_ALIGN_CENTER"),
    KeyAlignCross := Str("LV_FLEX_ALIGN_CENTER"),
    KeyType := Str("flex")]

  /** `DirectionalLayout.validate`: the `horizontal`/`vertical` string becomes
      a flex layout dictionary with the direction's flow, and a truthy
      `pad_all` is copied to both row and column padding. */
  function DirectionalValidate(config: Config, direction: string, flow: string): (r: Config)
    requires KeyLayout in config && config[KeyLayout].Str? && Lower(config[KeyLayout].s) == direction
    ensures r.Keys == config.Keys
    ensures forall k :: k in config && k != KeyLayout ==> r[k] == config[k]
    ensures r[KeyLayout].Dict?
    ensures var d := r[KeyLayout].entries;
      && (forall k :: k in FlexHvStyle ==> k in d && d[k] == FlexHvStyle[k])
      && KeyFlexFlow in d && d[KeyFlexFlow] == Str("LV_FLEX_FLOW_" + Upper(flow))
      && (KeyPadRow in d <==> KeyPadAll in config && Truthy(config[KeyPadAll]))
      && (KeyPadColumn in d <==> KeyPadAll in config && Truthy(config[KeyPadAll]))
      && (KeyPadRow in d ==> d[KeyPadRow] == config[KeyPadAll] && d[KeyPadColumn] == config[KeyPadAll])
  {
    var layout := FlexHvStyle[KeyFlexFlow := Str("LV_FLEX_FLOW_" + Upper(flow))];
    var layout' :=
      if KeyPadAll in config && Truthy(config[KeyPadAll])
      then layout[KeyPadRow := config[KeyPadAll]][KeyPadColumn := config[KeyPadAll]]
      else layout;
    config[KeyLayout := Dict(layout')]
  }

  // ---------------------------------------------------------------------------
  // Flex layouts

  /** The dimension the stretch work-around fills: `width` when the flow names
      a column, `height` otherwise. */
  function CrossDimension(flow: string): string {
    if Contains(Upper(flow), "COLUMN") then KeyWidth else KeyHeight
  }

  /** The result of a `get_layout_schemas` call, with the value of the
      module-level `FLEX_OBJ_SCHEMA` after it. */
  datatype Outcome = Outcome(result: Result<Option<ChildSchema>, LayoutError>, flexObj: ChildSchema)

  /** `layout.get(CONF_TYPE).lower()` on a layout dictionary. */
  function LayoutType(d: map<string, Value>): Result<string, LayoutError> {
    if KeyType in d && d[KeyType].Str? then Ok(Lower(d[KeyType].s)) else Err(AttributeError(KeyType))
  }

  /** `FlexLayout.get_layout_schemas`: for a flex dictionary the child schema
      is `FLEX_OBJ_SCHEMA` itself, or a fresh dictionary with a truthy layout
      `flex_grow` as default; with `STRETCH` cross alignment a 100% default on
      the cross dimension is added to it, so that without `flex_grow` it is
      added to `FLEX_OBJ_SCHEMA`. */
  function FlexSchemas(flexObj: ChildSchema, config: Config): Outcome {
    if KeyLayout !in config || !config[KeyLayout].Dict? then Outcome(Ok(None), flexObj)
    else
      var d := config[KeyLayout].entries;
      match LayoutType(d)
      case Err(e) => Outcome(Err(e), flexObj)
      case Ok(t) =>
        if t != "flex" then Outcome(Ok(None), flexObj)
        else
          var grown := KeyFlexGrow in d && Truthy(d[KeyFlexGrow]);
          var child := if grown then map[KeyFlexGrow := Some(d[KeyFlexGrow])] else flexObj;
          if KeyAlignCross in d && d[KeyAlignCross] == Str(Stretch) then
            if KeyFlexFlow !in d then Outcome(Err(KeyError(KeyFlexFlow)), flexObj)
            else if !d[KeyFlexFlow].Str? then Outcome(Err(AttributeError(KeyFlexFlow)), flexObj)
            else
              var child' := child[CrossDimension(d[KeyFlexFlow].s) := Some(Str(FullSize))];
              Outcome(Ok(Some(child')), if grown then flexObj else child')
          else Outcome(Ok(Some(child)), flexObj)
  }

  /** `FLEX_OBJ_SCHEMA` as the module is loaded. */
  const InitialFlexObj: ChildSchema := map[KeyFlexGrow := None]

  predicate IsFlex(config: Config) {
    KeyLayout in config && config[KeyLayout].Dict? && LayoutType(config[KeyLayout].entries) == Ok("flex")
  }

  /** For a flex layout: a truthy layout `flex_grow` is the children's default
      and leaves `FLEX_OBJ_SCHEMA` alone; `STRETCH` cross alignment (with a
      flow present) adds a 100% default on `width` when the flow names a
      column and on `height` otherwise; without it the child schema is the
      grow default or `FLEX_OBJ_SCHEMA` unchanged. */
  lemma FlexChildSchema(flexObj: ChildSchema, config: Config)
    requires IsFlex(config)
    ensures var d := config[KeyLayout].entries;
      var o := FlexSchemas(flexObj, config);
      var grown := KeyFlexGrow in d && Truthy(d[KeyFlexGrow]);
      var stretch := KeyAlignCross in d && d[KeyAlignCross] == Str(Stretch);
      && (stretch && KeyFlexFlow !in d ==> o.result == Err(KeyError(KeyFlexFlow)))
      && (stretch && KeyFlexFlow in d && d[KeyFlexFlow].Str? ==>
            var dim := CrossDimension(d[KeyFlexFlow].s);
            && o.result.Ok? && o.result.value.Some?
            && dim in o.result.value.value && o.result.value.value[dim] == Some(Str(FullSize))
            && (dim == KeyWidth <==> Contains(Upper(d[KeyFlexFlow].s), "COLUMN")))
      && (!stretch ==> o.result == Ok(Some(if grown then map[KeyFlexGrow := Some(d[KeyFlexGrow])] else flexObj)))
      && (grown ==>
            && o.flexObj == flexObj
            && (o.result.Ok? ==> o.result.value.Some? && o.result.value.value[KeyFlexGrow] == Some(d[KeyFlexGrow])))
  {
  }

  /** The stretch default leaks: once a stretched flex container without
      `flex_grow` has been seen, a later flex container without stretch gets
      the 100% default on the same dimension too. */
  lemma StretchLeaks(first: Config, later: Config)
    requires IsFlex(first) && IsFlex(later)
    requires var d := first[KeyLayout].entries;
      && !(KeyFlexGrow in d && Truthy(d[KeyFlexGrow]))
      && KeyAlignCross in d && d[KeyAlignCross] == Str(Stretch)
      && KeyFlexFlow in d && d[KeyFlexFlow].Str?
    requires var d := later[KeyLayout].entries;
      !(KeyFlexGrow in d && Truthy(d[KeyFlexGrow])) && !(KeyAlignCross in d && d[KeyAlignCross] == Str(Stretch))
    ensures var dim := CrossDimension(first[KeyLayout].entries[KeyFlexFlow].s);
      var o1 := FlexSchemas(InitialFlexObj, first);
      var o2 := FlexSchemas(o1.flexObj, later);
      && o1.flexObj == map[KeyFlexGrow := None, dim := Some(Str(FullSize))]
      && o2.result == Ok(Some(map[KeyFlexGrow := None, dim := Some(Str(FullSize))]))
  {
  }

  // ---------------------------------------------------------------------------
  // Grid and directional discriminators

  /** The child schema of a grid layout; the shorthand gives the cell
      alignments a `center` default. */
  function GridChildSchema(shorthand: bool): ChildSchema {
    var align := if shorthand then Some(Str("center")) else None;
    map["grid_cell_row_pos" := None, "grid_cell_column_pos" := None,
        "grid_cell_row_span" := Some(Int(1)), "grid_cell_column_span" := Some(Int(1)),
        "grid_cell_x_align" := align, "grid_cell_y_align" := align]
  }

  /** `GridLayout.get_layout_schemas`. */
  function GridSchemas(config: Config): Result<Option<ChildSchema>, LayoutError> {
    if KeyLayout !in config then Ok(None)
    else match config[KeyLayout]
      case Str(s) => if LayoutGrid.MatchShorthand(s).Some? then Ok(Some(GridChildSchema(true))) else Ok(None)
      case Dict(d) =>
        (match LayoutType(d)
         case Err(e) => Err(e)
         case Ok(t) => if t == "grid" then Ok(Some(GridChildSchema(false))) else Ok(None))
      case _ => Ok(None)
  }

  /** `DirectionalLayout.get_layout_schemas`. */
  function DirectionalSchemas(config: Config, direction: string): Result<Option<ChildSchema>, LayoutError> {
    if KeyLayout in config && config[KeyLayout].Str? && Lower(config[KeyLayout].s) == direction
    then Ok(Some(FlexHvSchema(direction)))
    else Ok(None)
  }

  // ---------------------------------------------------------------------------
  // Dispatch

  datatype LayoutKind = Flex | Grid | Horizontal | Vertical

  /** `LAYOUT_CLASSES`, in priority order. */
  const Classes: seq<LayoutKind> := [Flex, Grid, Horizontal, Vertical]

  function SchemasFor(kind: LayoutKind, flexObj: ChildSchema, config: Config): Outcome {
    match kind
    case Flex => FlexSchemas(flexObj, config)
    case Grid => Outcome(GridSchemas(config), flexObj)
    case Horizontal => Outcome(DirectionalSchemas(config, "horizontal"), flexObj)
    case Vertical => Outcome(DirectionalSchemas(config, "vertical"), flexObj)
  }

  /** What `append_layout_schema` returns: the schema unchanged, the schema
      extended with a plain `widgets` key, or the schema of a layout class
      with its child schema. */
  datatype Selection = AsIs | WithWidgets | WithLayout(kind: LayoutKind, child: ChildSchema)

  /** The first class of `kinds` whose schemas apply. */
  function FirstMatch(kinds: seq<LayoutKind>, flexObj: ChildSchema, config: Config)
    : (r: (Result<Option<(LayoutKind, ChildSchema)>, LayoutError>, ChildSchema))
    decreases |kinds|
  {
    if |kinds| == 0 then (Ok(None), flexObj)
    else
      var o := SchemasFor(kinds[0], flexObj, config);
      match o.result
      case Err(e) => (Err(e), o.flexObj)
      case Ok(Some(child)) => (Ok(Some((kinds[0], child))), o.flexObj)
      case Ok(None) => FirstMatch(kinds[1..], o.flexObj, config)
  }

  /** How an f-string shows the `layout` value: a string as itself, a
      number in decimal, a boolean as Python prints it; other values are
      shown by a placeholder. */
  function LayoutText(v: Value): string {
    match v
    case Str(s) => s
    case Int(i) => IntToString(i)
    case Bool(b) => if b then "True" else "False"
    case _ => "<layout>"
  }

  /** The error for a `layout` without `widgets`. */
  function MissingWidgets(layout: Value): string {
    "Layout " + LayoutText(layout) + " requires a " + KeyWidgets + " key"
  }

  const UnmatchedDict := "Invalid layout type; must be 'flex' or 'grid'"
  /** The dedented multi-line message for a string layout no class takes. */
  const UnmatchedValue := "\nInvalid 'layout' value\nlayout choices are 'horizontal', 'vertical', '<rows>x<cols>',\nor a dictionary with a 'type' key\n"

  /** `append_layout_schema`, with the value of `FLEX_OBJ_SCHEMA` after it. */
  function AppendLayoutSchemaSpec(flexObj: ChildSchema, config: Config)
    : (r: (Result<Selection, LayoutError>, ChildSchema))
    ensures KeyWidgets !in config ==>
      r.0 == if KeyLayout in config then Err(Invalid(MissingWidgets(config[KeyLayout]), [KeyLayout])) else Ok(AsIs)
    ensures KeyWidgets in config && KeyLayout !in config ==> r.0 == Ok(WithWidgets)
    ensures KeyWidgets in config && KeyLayout in config && !config[KeyLayout].Str? && !config[KeyLayout].Dict? ==>
      r.0.Err? && r.0.error.Invalid? && r.0.error.path == [KeyLayout]
    ensures r.0.Ok? && r.0.value.WithLayout? ==> KeyWidgets in config && KeyLayout in config
  {
    if KeyWidgets !in config then
      if KeyLayout in config then (Err(Invalid(MissingWidgets(config[KeyLayout]), [KeyLayout])), flexObj)
      else (Ok(AsIs), flexObj)
    else if KeyLayout !in config then (Ok(WithWidgets), flexObj)
    else
      var layout := config[KeyLayout];
      if !layout.Str? && !layout.Dict? then
        (Err(Invalid("The 'layout' option must be a string or a dictionary", [KeyLayout])), flexObj)
      else if layout.Dict? && !(KeyType in layout.entries && layout.entries[KeyType].Str?) then
        (Err(Invalid("Invalid layout type; must be a string ('flex' or 'grid')", [KeyLayout, KeyType])), flexObj)
      else
        var (m, flexObj') := FirstMatch(Classes, flexObj, config);
        match m
        case Err(e) => (Err(e), flexObj')
        case Ok(Some((kind, child))) => (Ok(WithLayout(kind, child)), flexObj')
        case Ok(None) =>
          if layout.Dict? then (Err(Invalid(UnmatchedDict, [KeyLayout, KeyType])), flexObj')
          else (Err(Invalid(UnmatchedValue, [KeyLayout])), flexObj')
  }

  /** Once `widgets` is present and `layout` is a string or a mapping with a
      string `type`, the selection is exactly what the search over the
      classes in priority order finds: its class and child schema, its
      error, or the unmatched-layout error when no class applies; and
      `FLEX_OBJ_SCHEMA` is left as the search leaves it. */
  lemma AppendUsesFirstMatch(flexObj: ChildSchema, config: Config)
    requires KeyWidgets in config && KeyLayout in config
    requires config[KeyLayout].Str?
      || (config[KeyLayout].Dict? && KeyType in config[KeyLayout].entries && config[KeyLayout].entries[KeyType].Str?)
    ensures var a := AppendLayoutSchemaSpec(flexObj, config); var m := FirstMatch(Classes, flexObj, config);
      && a.1 == m.1
      && (m.0.Err? ==> a.0 == Err(m.0.error))
      && (m.0.Ok? && m.0.value.Some? ==> a.0 == Ok(WithLayout(m.0.value.value.0, m.0.value.value.1)))
      && (m.0.Ok? && m.0.value.None? ==>
            a.0.Err? && a.0.error.Invalid? && a.0.error.message == (if config[KeyLayout].Dict? then UnmatchedDict else UnmatchedValue))
  {
  }

  /** The class chosen is the first in priority order whose schemas apply:
      every class before it declines. */
  lemma {:induction false} FirstMatchIsFirst(kinds: seq<LayoutKind>, flexObj: ChildSchema, config: Config)
    ensures var m := FirstMatch(kinds, flexObj, config).0;
      m.Ok? && m.value.Some? ==>
        exists i :: 0 <= i < |kinds| && kinds[i] == m.value.value.0
          && SchemasFor(kinds[i], flexObj, config).result == Ok(Some(m.value.value.1))
          && forall j :: 0 <= j < i ==> SchemasFor(kinds[j], flexObj, config).result == Ok(None)
    decreases |kinds|
  {
    if |kinds| > 0 && SchemasFor(kinds[0], flexObj, config).result == Ok(None) {
      DeclineKeepsState(kinds[0], flexObj, config);
      var rest := kinds[1..];
      FirstMatchIsFirst(rest, flexObj, config);
      var m := FirstMatch(kinds, flexObj, config).0;
      assert m == FirstMatch(rest, flexObj, config).0;
      if m.Ok? && m.value.Some? {
        var i :| 0 <= i < |rest| && rest[i] == m.value.value.0
          && SchemasFor(rest[i], flexObj, config).result == Ok(Some(m.value.value.1))
          && forall j :: 0 <= j < i ==> SchemasFor(rest[j], flexObj, config).result == Ok(None);
        assert kinds[i + 1] == rest[i];
        forall j | 0 <= j < i + 1
          ensures SchemasFor(kinds[j], flexObj, config).result == Ok(None)
        {
          if j > 0 {
            assert kinds[j] == rest[j - 1];
          }
        }
      }
    }
  }

  /** No class applies exactly when every class declines; the layout is then
      rejected. */
  lemma {:induction false} NoMatchIffAllDecline(kinds: seq<LayoutKind>, flexObj: ChildSchema, config: Config)
    ensures FirstMatch(kinds, flexObj, config).0 == Ok(None)
      <==> forall j :: 0 <= j < |kinds| ==> SchemasFor(kinds[j], flexObj, config).result == Ok(None)
    decreases |kinds|
  {
    if |kinds| > 0 && SchemasFor(kinds[0], flexObj, config).result == Ok(None) {
      DeclineKeepsState(kinds[0], flexObj, config);
      var rest := kinds[1..];
      NoMatchIffAllDecline(rest, flexObj, config);
      assert FirstMatch(kinds, flexObj, config).0 == FirstMatch(rest, flexObj, config).0;
      assert forall j :: 1 <= j < |kinds| ==> kinds[j] == rest[j - 1];
    }
  }

  /** Only the flex discriminator can change `FLEX_OBJ_SCHEMA`, and only when it
      declines does the state stay as it was. */
  lemma DeclineKeepsState(kind: LayoutKind, flexObj: ChildSchema, config: Config)
    ensures var o := SchemasFor(kind, flexObj, config);
      o.result == Ok(None) ==> o.flexObj == flexObj
  {
  }

  /** A string layout is never taken for a flex layout, and a shorthand grid
      string is taken by the grid class even when it also reads as a
      direction. */
  lemma ShorthandSelectsGrid(flexObj: ChildSchema, config: Config)
    requires KeyWidgets in config && KeyLayout in config && config[KeyLayout].Str?
    requires LayoutGrid.MatchShorthand(config[KeyLayout].s).Some?
    ensures AppendLayoutSchemaSpec(flexObj, config).0 == Ok(WithLayout(Grid, GridChildSchema(true)))
  {
    var flex := FlexSchemas(flexObj, config);
    assert flex == Outcome(Ok(None), flexObj);
    assert GridSchemas(config) == Ok(Some(GridChildSchema(true)));
    assert Classes[1..] == [Grid, Horizontal, Vertical];
    assert FirstMatch(Classes, flexObj, config) == FirstMatch(Classes[1..], flexObj, config);
    assert FirstMatch(Classes[1..], flexObj, config) == (Ok(Some((Grid, GridChildSchema(true)))), flexObj);
  }

  lemma RowCrossIsHeight()
    ensures CrossDimension("LV_FLEX_FLOW_" + Upper("row")) == KeyHeight
  {
    var f := "LV_FLEX_FLOW_" + Upper("row");
    assert Upper("row") == "ROW";
    assert Upper(f) == f;
    assert forall k :: 0 <= k < |f| ==> f[k] != 'C';
    forall i | 0 <= i <= |f|
      ensures !OccursAt(f, "COLUMN", i)
    {
      if i <= |f| - 6 {
        assert f[i..i + 6][0] == f[i];
      }
    }
  }

  lemma ColumnCrossIsWidth()
    ensures CrossDimension("LV_FLEX_FLOW_" + Upper("column")) == KeyWidth
  {
    var f := "LV_FLEX_FLOW_" + Upper("column");
    assert Upper("column") == "COLUMN";
    assert Upper(f) == f;
    assert OccursAt(f, "COLUMN", 13);
  }

  /** The directional rewrite yields a layout the flex class recognises, and
      the cross dimension of its flow is the one `flex_hv_schema` defaults. */
  lemma DirectionalIsFlex(config: Config, direction: string)
    requires direction == "horizontal" || direction == "vertical"
    requires KeyLayout in config && config[KeyLayout].Str? && Lower(config[KeyLayout].s) == direction
    ensures var flow := if direction == "horizontal" then "row" else "column";
      var r := DirectionalValidate(config, direction, flow);
      && IsFlex(r)
      && CrossDimension(r[KeyLayout].entries[KeyFlexFlow].s) == HvCrossKey(direction)
  {
    assert Lower("flex") == "flex";
    if direction == "horizontal" {
      RowCrossIsHeight();
    } else {
      ColumnCrossIsWidth();
    }
  }

  /** The module-level state the layout classes share. */
  class LayoutRegistry {
    /** `FLEX_OBJ_SCHEMA`. */
    var flexObj: ChildSchema

    constructor ()
      ensures flexObj == InitialFlexObj
    {
      flexObj := InitialFlexObj;
    }

    /** `layout_class.get_layout_schemas(config)`. */
    method GetLayoutSchemas(kind: LayoutKind, config: Config) returns (r: Result<Option<ChildSchema>, LayoutError>)
      modifies this
      ensures var o := SchemasFor(kind, old(flexObj), config);
        r == o.result && flexObj == o.flexObj
    {
      var o := SchemasFor(kind, flexObj, config);
      r := o.result;
      flexObj := o.flexObj;
    }

    /** `append_layout_schema`: the prechecks, then the loop over the layout
        classes in priority order. */
    method AppendLayoutSchema(config: Config) returns (r: Result<Selection, LayoutError>)
      modifies this
      ensures var (spec, flexObj') := AppendLayoutSchemaSpec(old(flexObj), config);
        r == spec && flexObj == flexObj'
    {
      if KeyWidgets !in config {
        if KeyLayout in config {
          return Err(Invalid(MissingWidgets(config[KeyLayout]), [KeyLayout]));
        }
        return Ok(AsIs);
      }
      if KeyLayout !in config {
        return Ok(WithWidgets);
      }
      var layout := config[KeyLayout];
      if !layout.Str? && !layout.Dict? {
        return Err(Invalid("The 'layout' option must be a string or a dictionary", [KeyLayout]));
      }
      if layout.Dict? && !(KeyType in layout.entries && layout.entries[KeyType].Str?) {
        return Err(Invalid("Invalid layout type; must be a string ('flex' or 'grid')", [KeyLayout, KeyType]));
      }
      ghost var flexObj0 := flexObj;
      var i := 0;
      while i < |Classes|
        invariant 0 <= i <= |Classes|
        invariant FirstMatch(Classes, flexObj0, config) == FirstMatch(Classes[i..], flexObj, config)
      {
        var child := GetLayoutSchemas(Classes[i], config);
        if child.Err? {
          return Err(child.error);
        }
        if child.value.Some? {
          return Ok(WithLayout(Classes[i], child.value.value));
        }
        assert Classes[i..][1..] == Classes[i + 1..];
        i := i + 1;
      }
      if layout.Dict? {
        return Err(Invalid(UnmatchedDict, [KeyLayout, KeyType]));
      }
      return Err(Invalid(UnmatchedValue, [KeyLayout]));
    }
  }

  // ---------------------------------------------------------------------------
  // Track sizes

  /** `grid_free_space`: `FR(n)`, in any case, becomes `LV_GRID_FR(n)`; the
      count must be a decimal number. */
  function GridFreeSpace(value: string): (r: Result<string, LayoutError>)
    ensures r.Ok? ==>
      var u := Upper(value);
      && StartsWith(u, "FR(") && EndsWith(u, ")") && |u| >= 4 && AllDigits(u[3..|u| - 1]) && |u| > 4
      && r.value == "LV_GRID_FR(" + NatToString(DigitsValue(u[3..|u| - 1])) + ")"
  {
    var u := Upper(value);
    if |u| >= 4 && StartsWith(u, "FR(") && EndsWith(u, ")") then
      var inner := u[3..|u| - 1];
      if |inner| > 0 && AllDigits(inner) then Ok("LV_GRID_FR(" + NatToString(DigitsValue(inner)) + ")")
      else Err(Invalid("must be a size in pixels, CONTENT or FR(nn)", []))
    else Err(Invalid("must be a size in pixels, CONTENT or FR(nn)", []))
  }

  /** `fr(n)` written in lower case is accepted and keeps its count. */
  lemma GridFreeSpaceRoundTrip(n: nat)
    ensures GridFreeSpace("fr(" + NatToString(n) + ")") == Ok("LV_GRID_FR(" + NatToString(n) + ")")
  {
    var d := NatToString(n);
    var v := "fr(" + d + ")";
    var u := Upper(v);
    assert u == "FR(" + d + ")" by {
      forall i | 0 <= i < |v|
        ensures u[i] == ("FR(" + d + ")")[i]
      {
        if 3 <= i < 3 + |d| {
          assert v[i] == d[i - 3];
        }
      }
    }
    assert u[3..|u| - 1] == d;
    NatToStringRoundTrip(n);
  }
}
