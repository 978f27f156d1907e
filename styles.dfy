/** styles.py: style objects are declared, initialised and given one setter
    per property in the fixed property order; named styles are created lazily
    and at most once; a theme creates one style per widget, part and state and
    records it in the theme map.

    The property order `ALL_STYLES` and the mapping `remap_property` from a
    property to its setter suffix belong to modules outside this model; they
    are parameters here. Property values are the values after their
    converters. */
module Styles {
  import opened Wrappers
  import opened Strings
  import opened Emit
  import Helpers

  type Style = map<string, Value>

  /** The text of one item of a list value: the items are constant names. */
  function ItemText(v: Value): string {
    match v
    case Str(t) => t
    case Id(n) => n
    case _ => ""
  }

  function Texts(items: seq<Value>): (r: seq<string>)
    ensures |r| == |items| && forall k :: 0 <= k < |items| ==> r[k] == ItemText(items[k])
  {
    seq(|items|, k requires 0 <= k < |items| => ItemText(items[k]))
  }

  /** `literal(value)`, with a list first joined with `|`. */
  function SetterArg(v: Value): Arg {
    if v.List? then Lit(Join("|", Texts(v.items))) else V(v)
  }

  /** `style.get(prop) is not None` */
  predicate Present(style: Style, p: string) { p in style && style[p] != Null }

  function Setter(svar: string, remap: string -> string, p: string, v: Value): Op
  {
    Call("style_set_" + remap(p), [Var(svar), SetterArg(v)])
  }

  /** The setters `style_set` emits for the properties `props`, in order. */
  function StyleOps(svar: string, style: Style, props: seq<string>, remap: string -> string): seq<Op>
    decreases |props|
  {
    if |props| == 0 then []
    else
      var p := props[|props| - 1];
      StyleOps(svar, style, props[..|props| - 1], remap)
        + (if Present(style, p) then [Setter(svar, remap, p, style[p])] else [])
  }

  /** `has_style_props(config)`: some key of the configuration is a style
      property. */
  predicate HasStyleProps(config: Style, props: seq<string>) {
    exists k :: 0 <= k < |props| && props[k] in config
  }

  /** A configuration without style properties gives no setters. */
  lemma {:induction false} NoStylePropsNoSetters(svar: string, config: Style, props: seq<string>, remap: string -> string)
    requires !HasStyleProps(config, props)
    ensures StyleOps(svar, config, props, remap) == []
    decreases |props|
  {
    if |props| > 0 {
      var init := props[..|props| - 1];
      forall k | 0 <= k < |init|
        ensures init[k] !in config
      {
        assert init[k] == props[k];
      }
      NoStylePropsNoSetters(svar, config, init, remap);
    }
  }

  /** Emission follows the property order: the setters for `a + b` are those
      for `a` followed by those for `b`. */
  lemma {:induction false} StyleOpsAppend(svar: string, style: Style, a: seq<string>, b: seq<string>, remap: string -> string)
    ensures StyleOps(svar, style, a + b, remap) == StyleOps(svar, style, a, remap) + StyleOps(svar, style, b, remap)
    decreases |b|
  {
    if |b| > 0 {
      var b' := b[..|b| - 1];
      var p := b[|b| - 1];
      var tail := if Present(style, p) then [Setter(svar, remap, p, style[p])] else [];
      assert (a + b)[..|a + b| - 1] == a + b';
      assert (a + b)[|a + b| - 1] == p;
      assert StyleOps(svar, style, a + b, remap) == StyleOps(svar, style, a + b', remap) + tail;
      StyleOpsAppend(svar, style, a, b', remap);
      assert StyleOps(svar, style, b, remap) == StyleOps(svar, style, b', remap) + tail;
    } else {
      assert a + b == a;
    }
  }

  /** There is a setter exactly for each property that is present, and a
      list value is set as its items joined with `|`. */
  lemma {:induction false} StyleOpsExactly(svar: string, style: Style, props: seq<string>, remap: string -> string, op: Op)
    ensures op in StyleOps(svar, style, props, remap) <==>
      exists k :: 0 <= k < |props| && Present(style, props[k]) && op == Setter(svar, remap, props[k], style[props[k]])
    decreases |props|
  {
    if |props| > 0 {
      var init := props[..|props| - 1];
      StyleOpsExactly(svar, style, init, remap, op);
      if exists k :: 0 <= k < |init| && Present(style, init[k]) && op == Setter(svar, remap, init[k], style[init[k]]) {
        var k :| 0 <= k < |init| && Present(style, init[k]) && op == Setter(svar, remap, init[k], style[init[k]]);
        assert props[k] == init[k];
      }
      if exists k :: 0 <= k < |props| && Present(style, props[k]) && op == Setter(svar, remap, props[k], style[props[k]]) {
        var k :| 0 <= k < |props| && Present(style, props[k]) && op == Setter(svar, remap, props[k], style[props[k]]);
        if k < |props| - 1 {
          assert props[k] == init[k];
        }
      }
    }
  }

  /** A list value is set with its items joined by `|`. */
  lemma ListJoined(svar: string, remap: string -> string, p: string, items: seq<string>)
    ensures var v := List(seq(|items|, k requires 0 <= k < |items| => Str(items[k])));
      Setter(svar, remap, p, v) == Call("style_set_" + remap(p), [Var(svar), Lit(Join("|", items))])
  {
    var v := List(seq(|items|, k requires 0 <= k < |items| => Str(items[k])));
    assert Texts(v.items) == items;
  }

  /** `style_set(svar, style)` */
  method StyleSet(code: Code, svar: string, style: Style, props: seq<string>, remap: string -> string)
    modifies code
    ensures code.ops == old(code.ops) + StyleOps(svar, style, props, remap)
    ensures code.defines == old(code.defines) && code.warnings == old(code.warnings)
  {
    var i := 0;
    while i < |props|
      invariant 0 <= i <= |props|
      invariant code.ops == old(code.ops) + StyleOps(svar, style, props[..i], remap)
      invariant code.defines == old(code.defines) && code.warnings == old(code.warnings)
    {
      var p := props[i];
      assert props[..i + 1][..i] == props[..i];
      if p in style && style[p] != Null {
        code.Call("style_set_" + remap(p), [Var(svar), SetterArg(style[p])]);
      }
      i := i + 1;
    }
    assert props[..i] == props;
  }

  /** `create_style(id_name, style)`: a declaration and `style_init`, then
      the setters only when a non-empty style is given. */
  function CreateStyleOps(idName: string, style: Option<Style>, props: seq<string>, remap: string -> string): seq<Op>
  {
    [Declare(idName, Lit("new lv_style_t")), Call("style_init", [Var(idName)])]
      + (if style.Some? && style.value != map[] then StyleOps(idName, style.value, props, remap) else [])
  }

  predicate IsSetter(op: Op) { op.Call? && StartsWith(op.fn, "style_set_") }

  lemma {:induction false} StyleOpsAreSetters(svar: string, style: Style, props: seq<string>, remap: string -> string)
    ensures forall k :: 0 <= k < |StyleOps(svar, style, props, remap)| ==> IsSetter(StyleOps(svar, style, props, remap)[k])
    decreases |props|
  {
    if |props| > 0 {
      StyleOpsAreSetters(svar, style, props[..|props| - 1], remap);
      var p := props[|props| - 1];
      assert StartsWith("style_set_" + remap(p), "style_set_") by {
        assert ("style_set_" + remap(p))[..|"style_set_"|] == "style_set_";
      }
    }
  }

  /** `style_init` comes before every setter, and a style that is absent or
      empty gets no setter at all. */
  lemma CreateStyleOrder(idName: string, style: Option<Style>, props: seq<string>, remap: string -> string)
    ensures var ops := CreateStyleOps(idName, style, props, remap);
      && ops[1] == Call("style_init", [Var(idName)])
      && !IsSetter(ops[0]) && !IsSetter(ops[1])
      && (style.None? || style.value == map[] ==> |ops| == 2)
      && forall k :: 2 <= k < |ops| ==> IsSetter(ops[k])
  {
    assert !StartsWith("style_init", "style_set_") by {
      assert "style_init"[..10][6] != "style_set_"[6];
    }
    if style.Some? && style.value != map[] {
      StyleOpsAreSetters(idName, style.value, props, remap);
    }
  }

  method CreateStyle(code: Code, idName: string, style: Option<Style>, props: seq<string>, remap: string -> string)
    returns (svar: string)
    modifies code
    ensures svar == idName
    ensures code.ops == old(code.ops) + CreateStyleOps(idName, style, props, remap)
    ensures code.defines == old(code.defines) && code.warnings == old(code.warnings)
  {
    svar := idName;
    code.Add(Declare(idName, Lit("new lv_style_t")));
    code.Call("style_init", [Var(svar)]);
    if style.Some? && style.value != map[] {
      StyleSet(code, svar, style.value, props, remap);
    }
  }

  /** `LVStyle`: a named style whose variable is created on first use. */
  class LVStyle {
    const idName: string
    const style: Option<Style>
    var styleVar: Option<string>

    /** Once created, the variable carries the style's own name. */
    predicate Valid()
      reads this
    {
      && (styleVar.None? || styleVar == Some(idName + "_style"))
    }

    constructor (idName: string, style: Option<Style>)
        ensures Valid() && this.idName == idName && this.style == style && styleVar.None?
    {
      this.idName := idName;
      this.style := style;
      styleVar := None;
    }

    /** `get_var`: the first call creates the style `<id>_style`; later calls
        emit nothing and return the same variable. */
    method GetVar(code: Code, props: seq<string>, remap: string -> string) returns (v: string)
      requires Valid()
      modifies this, code
      ensures Valid() && v == idName + "_style" && styleVar == Some(v)
      ensures old(styleVar).Some? ==> code.ops == old(code.ops)
      ensures old(styleVar).None? ==> code.ops == old(code.ops) + CreateStyleOps(v, style, props, remap)
      ensures code.defines == old(code.defines) && code.warnings == old(code.warnings)
    {
      if styleVar.None? {
        var s := CreateStyle(code, idName + "_style", style, props, remap);
        styleVar := Some(s);
      }
      v := styleVar.value;
    }
  }

  /** Two uses of a named style create it once. */
  method GetVarTwice(s: LVStyle, code: Code, props: seq<string>, remap: string -> string) returns (v1: string, v2: string)
    requires s.Valid() && s.styleVar.None?
    modifies s, code
    ensures v1 == v2 == s.idName + "_style"
    ensures code.ops == old(code.ops) + CreateStyleOps(v1, s.style, props, remap)
  {
    v1 := s.GetVar(code, props, remap);
    v2 := s.GetVar(code, props, remap);
  }

  /** The name of the style a theme gives `widget` in `part` and `state`. */
  function ThemeStyleName(widget: string, part: string, state: string): string {
    "_lv_theme_style_" + widget + "_" + part + "_" + state
  }

  /** The theme of one widget type, as `collect_parts` groups it: parts, each
      with its states and their properties, in order. */
  datatype PartStyles = PartStyles(part: string, states: seq<(string, Style)>)
  datatype WidgetTheme = WidgetTheme(widget: string, parts: seq<PartStyles>)

  /** Every entry of a theme map names the style created for its widget,
      part and state. */
  predicate NamesConsistent(m: map<string, map<string, map<string, string>>>) {
    forall w, p, s :: w in m && p in m[w] && s in m[w][p] ==> m[w][p][s] == ThemeStyleName(w, p, s)
  }

  /** The state map of one part. */
  function StatesMap(w: string, part: string, states: seq<(string, Style)>): map<string, string>
    decreases |states|
  {
    if |states| == 0 then map[]
    else
      var s := states[|states| - 1].0;
      StatesMap(w, part, states[..|states| - 1])[s := ThemeStyleName(w, part, s)]
  }

  function StatesOps(w: string, part: string, states: seq<(string, Style)>, props: seq<string>, remap: string -> string): seq<Op>
    decreases |states|
  {
    if |states| == 0 then []
    else
      var (s, style) := states[|states| - 1];
      StatesOps(w, part, states[..|states| - 1], props, remap)
        + CreateStyleOps(ThemeStyleName(w, part, s), Some(style), props, remap)
  }

  function PartsMap(w: string, parts: seq<PartStyles>): map<string, map<string, string>>
    decreases |parts|
  {
    if |parts| == 0 then map[]
    else
      var last := parts[|parts| - 1];
      PartsMap(w, parts[..|parts| - 1])[last.part := StatesMap(w, last.part, last.states)]
  }

  function PartsOps(w: string, parts: seq<PartStyles>, props: seq<string>, remap: string -> string): seq<Op>
    decreases |parts|
  {
    if |parts| == 0 then []
    else
      var last := parts[|parts| - 1];
      PartsOps(w, parts[..|parts| - 1], props, remap) + StatesOps(w, last.part, last.states, props, remap)
  }

  /** The entries `theme_to_code` writes into the theme map. */
  function ThemeMap(theme: seq<WidgetTheme>): map<string, map<string, map<string, string>>>
    decreases |theme|
  {
    if |theme| == 0 then map[]
    else
      var last := theme[|theme| - 1];
      ThemeMap(theme[..|theme| - 1])[last.widget := PartsMap(last.widget, last.parts)]
  }

  function ThemeOps(theme: seq<WidgetTheme>, props: seq<string>, remap: string -> string): seq<Op>
    decreases |theme|
  {
    if |theme| == 0 then []
    else
      var last := theme[|theme| - 1];
      ThemeOps(theme[..|theme| - 1], props, remap) + PartsOps(last.widget, last.parts, props, remap)
  }

  /** One more state adds its style's statements and its map entry. */
  lemma StatesStep(w: string, part: string, states: seq<(string, Style)>, k: nat, props: seq<string>, remap: string -> string)
    requires k < |states|
    ensures StatesOps(w, part, states[..k + 1], props, remap)
      == StatesOps(w, part, states[..k], props, remap)
         + CreateStyleOps(ThemeStyleName(w, part, states[k].0), Some(states[k].1), props, remap)
    ensures StatesMap(w, part, states[..k + 1]) == StatesMap(w, part, states[..k])[states[k].0 := ThemeStyleName(w, part, states[k].0)]
  {
    assert states[..k + 1][..k] == states[..k];
  }

  /** One more part adds its states' statements and its map entry. */
  lemma PartsStep(w: string, parts: seq<PartStyles>, j: nat, props: seq<string>, remap: string -> string)
    requires j < |parts|
    ensures PartsOps(w, parts[..j + 1], props, remap)
      == PartsOps(w, parts[..j], props, remap) + StatesOps(w, parts[j].part, parts[j].states, props, remap)
    ensures PartsMap(w, parts[..j + 1]) == PartsMap(w, parts[..j])[parts[j].part := StatesMap(w, parts[j].part, parts[j].states)]
  {
    assert parts[..j + 1][..j] == parts[..j];
  }

  /** One more widget type adds its parts' statements and its map entry. */
  lemma ThemeStep(theme: seq<WidgetTheme>, i: nat, props: seq<string>, remap: string -> string)
    requires i < |theme|
    ensures ThemeOps(theme[..i + 1], props, remap)
      == ThemeOps(theme[..i], props, remap) + PartsOps(theme[i].widget, theme[i].parts, props, remap)
    ensures ThemeMap(theme[..i + 1]) == ThemeMap(theme[..i])[theme[i].widget := PartsMap(theme[i].widget, theme[i].parts)]
  {
    assert theme[..i + 1][..i] == theme[..i];
  }

  /** A state maps to the style named after it, and exactly the listed
      states are mapped. */
  lemma {:induction false} StatesMapSpec(w: string, part: string, states: seq<(string, Style)>)
    ensures forall s :: s in StatesMap(w, part, states) ==> StatesMap(w, part, states)[s] == ThemeStyleName(w, part, s)
    ensures forall s :: s in StatesMap(w, part, states) <==> exists k :: 0 <= k < |states| && states[k].0 == s
    decreases |states|
  {
    if |states| > 0 {
      var init := states[..|states| - 1];
      StatesMapSpec(w, part, init);
      forall k | 0 <= k < |init|
        ensures exists j :: 0 <= j < |states| && states[j].0 == init[k].0
      {
        assert states[k] == init[k];
      }
      forall s | exists k :: 0 <= k < |states| && states[k].0 == s
        ensures s in StatesMap(w, part, states)
      {
        var k :| 0 <= k < |states| && states[k].0 == s;
        if k < |states| - 1 {
          assert states[k] == init[k];
        }
      }
    }
  }

  lemma {:induction false} PartsMapSpec(w: string, parts: seq<PartStyles>)
    ensures forall p, s :: p in PartsMap(w, parts) && s in PartsMap(w, parts)[p] ==>
      PartsMap(w, parts)[p][s] == ThemeStyleName(w, p, s)
    ensures forall p :: p in PartsMap(w, parts) <==> exists j :: 0 <= j < |parts| && parts[j].part == p
    decreases |parts|
  {
    if |parts| > 0 {
      var init := parts[..|parts| - 1];
      var last := parts[|parts| - 1];
      PartsMapSpec(w, init);
      StatesMapSpec(w, last.part, last.states);
      forall j | 0 <= j < |init|
        ensures exists t :: 0 <= t < |parts| && parts[t].part == init[j].part
      {
        assert parts[j] == init[j];
      }
      forall p | exists j :: 0 <= j < |parts| && parts[j].part == p
        ensures p in PartsMap(w, parts)
      {
        var j :| 0 <= j < |parts| && parts[j].part == p;
        if j < |parts| - 1 {
          assert parts[j] == init[j];
        }
      }
    }
  }

  /** `theme_widget_map[w][part][state]` is the style
      `_lv_theme_style_<w>_<part>_<state>`, for exactly the widgets of the
      theme. */
  lemma {:induction false} ThemeMapSpec(theme: seq<WidgetTheme>)
    ensures NamesConsistent(ThemeMap(theme))
    ensures forall w :: w in ThemeMap(theme) <==> exists i :: 0 <= i < |theme| && theme[i].widget == w
    decreases |theme|
  {
    if |theme| > 0 {
      var init := theme[..|theme| - 1];
      var last := theme[|theme| - 1];
      ThemeMapSpec(init);
      PartsMapSpec(last.widget, last.parts);
      forall i | 0 <= i < |init|
        ensures exists t :: 0 <= t < |theme| && theme[t].widget == init[i].widget
      {
        assert theme[i] == init[i];
      }
      forall w | exists i :: 0 <= i < |theme| && theme[i].widget == w
        ensures w in ThemeMap(theme)
      {
        var i :| 0 <= i < |theme| && theme[i].widget == w;
        if i < |theme| - 1 {
          assert theme[i] == init[i];
        }
      }
    }
  }

  /** Updating a consistent theme map with consistent entries keeps it
      consistent. */
  lemma MergeConsistent(m: map<string, map<string, map<string, string>>>, n: map<string, map<string, map<string, string>>>)
    requires NamesConsistent(m) && NamesConsistent(n)
    ensures NamesConsistent(m + n)
  {
  }

  lemma UnionUpdate<K, V>(m: map<K, V>, n: map<K, V>, k: K, v: V)
    ensures (m + n)[k := v] == m + n[k := v]
  {
  }

  /** The module state styles share: the class-level `named_styles` of
      `LVStyle` and `theme_widget_map`. */
  class StyleRegistry {
    var namedStyles: map<string, LVStyle>
    var themeWidgetMap: map<string, map<string, map<string, string>>>

    constructor ()
      ensures namedStyles == map[] && themeWidgetMap == map[]
    {
      namedStyles := map[];
      themeWidgetMap := map[];
    }

    /** `LVStyle.get_style(id_name)`: the style registered under the name, or
        a new one without properties, registered before it is returned. */
    method GetStyle(idName: string) returns (s: LVStyle)
      modifies this
      ensures namedStyles == old(namedStyles)[idName := s]
      ensures idName in old(namedStyles) ==> s == old(namedStyles)[idName]
      ensures idName !in old(namedStyles) ==> fresh(s) && s.Valid() && s.idName == idName && s.style.None? && s.styleVar.None?
      ensures themeWidgetMap == old(themeWidgetMap)
    {
      if idName in namedStyles {
        s := namedStyles[idName];
      } else {
        s := new LVStyle(idName, None);
        namedStyles := namedStyles[idName := s];
      }
    }

    /** `theme_to_code`: with a non-empty theme, the `theme` feature is used
        and every widget, part and state gets its style, in order. */
    method ThemeToCode(code: Code, uses: Helpers.Uses, theme: seq<WidgetTheme>, props: seq<string>, remap: string -> string)
      modifies this, code, uses
      ensures themeWidgetMap == old(themeWidgetMap) + ThemeMap(theme)
      ensures namedStyles == old(namedStyles)
      ensures code.ops == old(code.ops) + ThemeOps(theme, props, remap)
      ensures uses.lvUses == old(uses.lvUses) + (if |theme| > 0 then {"theme"} else {})
      ensures uses.componentsRequired == old(uses.componentsRequired)
      ensures code.defines == old(code.defines) && code.warnings == old(code.warnings)
    {
      if |theme| == 0 {
        assert ThemeMap(theme) == map[];
        return;
      }
      uses.AddLvUse(["theme"]);
      assert Helpers.SetOf(["theme"]) == {"theme"};
      ThemeWidgets(code, theme, props, remap);
    }

    /** The widgets loop of `theme_to_code`. */
    method ThemeWidgets(code: Code, theme: seq<WidgetTheme>, props: seq<string>, remap: string -> string)
      modifies this, code
      ensures themeWidgetMap == old(themeWidgetMap) + ThemeMap(theme)
      ensures namedStyles == old(namedStyles)
      ensures code.ops == old(code.ops) + ThemeOps(theme, props, remap)
      ensures code.defines == old(code.defines) && code.warnings == old(code.warnings)
    {
      var i := 0;
      while i < |theme|
        invariant 0 <= i <= |theme|
        invariant themeWidgetMap == old(themeWidgetMap) + ThemeMap(theme[..i])
        invariant namedStyles == old(namedStyles)
        invariant code.ops == old(code.ops) + ThemeOps(theme[..i], props, remap)
        invariant code.defines == old(code.defines) && code.warnings == old(code.warnings)
      {
        var w := theme[i];
        var styles := ThemeParts(code, w.widget, w.parts, props, remap);
        ThemeStep(theme, i, props, remap);
        AppendAssoc(old(code.ops), ThemeOps(theme[..i], props, remap), PartsOps(w.widget, w.parts, props, remap));
        UnionUpdate(old(themeWidgetMap), ThemeMap(theme[..i]), w.widget, styles);
        themeWidgetMap := themeWidgetMap[w.widget := styles];
        i := i + 1;
      }
      assert theme[..i] == theme;
    }
  }

  /** The parts loop of `theme_to_code` for one widget type. */
  method ThemeParts(code: Code, w: string, parts: seq<PartStyles>, props: seq<string>, remap: string -> string)
    returns (styles: map<string, map<string, string>>)
    modifies code
    ensures styles == PartsMap(w, parts)
    ensures code.ops == old(code.ops) + PartsOps(w, parts, props, remap)
    ensures code.defines == old(code.defines) && code.warnings == old(code.warnings)
  {
    styles := map[];
    var j := 0;
    while j < |parts|
      invariant 0 <= j <= |parts|
      invariant styles == PartsMap(w, parts[..j])
      invariant code.ops == old(code.ops) + PartsOps(w, parts[..j], props, remap)
      invariant code.defines == old(code.defines) && code.warnings == old(code.warnings)
    {
      var ps := parts[j];
      var states := ThemeStates(code, w, ps.part, ps.states, props, remap);
      PartsStep(w, parts, j, props, remap);
      AppendAssoc(old(code.ops), PartsOps(w, parts[..j], props, remap), StatesOps(w, ps.part, ps.states, props, remap));
      styles := styles[ps.part := states];
      j := j + 1;
    }
    assert parts[..j] == parts;
  }

  /** The dictionary comprehension over the states of one part. */
  method ThemeStates(code: Code, w: string, part: string, states: seq<(string, Style)>, props: seq<string>, remap: string -> string)
    returns (m: map<string, string>)
    modifies code
    ensures m == StatesMap(w, part, states)
    ensures code.ops == old(code.ops) + StatesOps(w, part, states, props, remap)
    ensures code.defines == old(code.defines) && code.warnings == old(code.warnings)
  {
    m := map[];
    var k := 0;
    while k < |states|
      invariant 0 <= k <= |states|
      invariant m == StatesMap(w, part, states[..k])
      invariant code.ops == old(code.ops) + StatesOps(w, part, states[..k], props, remap)
      invariant code.defines == old(code.defines) && code.warnings == old(code.warnings)
    {
      var (s, style) := states[k];
      var v := CreateStyle(code, ThemeStyleName(w, part, s), Some(style), props, remap);
      StatesStep(w, part, states, k, props, remap);
      AppendAssoc(old(code.ops), StatesOps(w, part, states[..k], props, remap),
                  CreateStyleOps(ThemeStyleName(w, part, s), Some(style), props, remap));
      m := m[s := v];
      k := k + 1;
    }
    assert states[..k] == states;
  }

  /** A style definition: its `id` and its properties. */
  datatype StyleDef = StyleDef(id: string, style: Style)

  function StylesOps(defs: seq<StyleDef>, props: seq<string>, remap: string -> string): seq<Op>
    decreases |defs|
  {
    if |defs| == 0 then []
    else
      var d := defs[|defs| - 1];
      StylesOps(defs[..|defs| - 1], props, remap) + CreateStyleOps(d.id, Some(d.style), props, remap)
  }

  /** The variables an operation sequence declares, in order. */
  function Declared(ops: seq<Op>): seq<string>
    decreases |ops|
  {
    if |ops| == 0 then []
    else Declared(ops[..|ops| - 1]) + (if ops[|ops| - 1].Declare? then [ops[|ops| - 1].name] else [])
  }

  lemma {:induction false} DeclaredAppend(a: seq<Op>, b: seq<Op>)
    ensures Declared(a + b) == Declared(a) + Declared(b)
    decreases |b|
  {
    if |b| > 0 {
      var b' := b[..|b| - 1];
      var o := b[|b| - 1];
      var tail := if o.Declare? then [o.name] else [];
      assert (a + b)[..|a + b| - 1] == a + b';
      assert (a + b)[|a + b| - 1] == o;
      assert Declared(a + b) == Declared(a + b') + tail;
      DeclaredAppend(a, b');
      assert Declared(b) == Declared(b') + tail;
    } else {
      assert a + b == a;
    }
  }

  lemma {:induction false} SettersDeclareNothing(svar: string, style: Style, props: seq<string>, remap: string -> string)
    ensures Declared(StyleOps(svar, style, props, remap)) == []
    decreases |props|
  {
    if |props| > 0 {
      var init := props[..|props| - 1];
      SettersDeclareNothing(svar, style, init, remap);
      var p := props[|props| - 1];
      var tail := if Present(style, p) then [Setter(svar, remap, p, style[p])] else [];
      DeclaredAppend(StyleOps(svar, style, init, remap), tail);
    }
  }

  /** `styles_to_code` declares exactly one style per definition, named by
      its id, in declaration order. */
  lemma CreateStyleDeclares(id: string, style: Style, props: seq<string>, remap: string -> string)
    ensures Declared(CreateStyleOps(id, Some(style), props, remap)) == [id]
  {
    var head: seq<Op> := [Declare(id, Lit("new lv_style_t")), Call("style_init", [Var(id)])];
    var setters := if style != map[] then StyleOps(id, style, props, remap) else [];
    assert CreateStyleOps(id, Some(style), props, remap) == head + setters;
    DeclaredAppend(head, setters);
    SettersDeclareNothing(id, style, props, remap);
    assert head[..1] == [Declare(id, Lit("new lv_style_t"))];
    assert Declared(head[..1]) == [id] by {
      assert head[..1][..0] == [];
    }
  }

  lemma {:induction false} OneStylePerDefinition(defs: seq<StyleDef>, props: seq<string>, remap: string -> string)
    ensures Declared(StylesOps(defs, props, remap)) == seq(|defs|, k requires 0 <= k < |defs| => defs[k].id)
    decreases |defs|
  {
    if |defs| > 0 {
      var init := defs[..|defs| - 1];
      var d := defs[|defs| - 1];
      OneStylePerDefinition(init, props, remap);
      DeclaredAppend(StylesOps(init, props, remap), CreateStyleOps(d.id, Some(d.style), props, remap));
      CreateStyleDeclares(d.id, d.style, props, remap);
    }
  }

  /** `styles_to_code`: one style per definition, in declaration order. The
      definition dictionary passed on also holds the `id`, which is no style
      property, so an empty property set gives no setters either way. */
  method StylesToCode(code: Code, defs: seq<StyleDef>, props: seq<string>, remap: string -> string)
    modifies code
    ensures code.ops == old(code.ops) + StylesOps(defs, props, remap)
    ensures code.defines == old(code.defines) && code.warnings == old(code.warnings)
  {
    var i := 0;
    while i < |defs|
      invariant 0 <= i <= |defs|
      invariant code.ops == old(code.ops) + StylesOps(defs[..i], props, remap)
      invariant code.defines == old(code.defines) && code.warnings == old(code.warnings)
    {
      var d := defs[i];
      var _ := CreateStyle(code, d.id, Some(d.style), props, remap);
      assert StylesOps(defs[..i + 1], props, remap) == StylesOps(defs[..i], props, remap) + CreateStyleOps(d.id, Some(d.style), props, remap) by {
        assert defs[..i + 1][..i] == defs[..i];
      }
      AppendAssoc(old(code.ops), StylesOps(defs[..i], props, remap), CreateStyleOps(d.id, Some(d.style), props, remap));
      i := i + 1;
    }
    assert defs[..i] == defs;
  }
}
