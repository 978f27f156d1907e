/** widgets/span.py: a span group with its mode and its styled text spans.

    `_add_span` keeps `lv_spangroup_new_span(obj)` as an expression rather
    than a variable, so every later use of `span_var` re-evaluates it: the
    text, the colour and the decoration each go to a span of their own.
    `AddSpanAsWritten` models that code; `AddSpan`, which `ToCode` uses,
    creates the span once and styles that same span. */
module SpanWidget {
  import opened Wrappers
  import opened Strings
  import opened Emit
  import Helpers

  /** `SPAN_MODES`. */
  const SpanModes: map<string, string> := map[
    "FIXED" := "LV_SPAN_MODE_FIXED", "EXPAND" := "LV_SPAN_MODE_EXPAND", "BREAK" := "LV_SPAN_MODE_BREAK"]

  /** `TEXT_DECORS`. */
  const TextDecors: map<string, string> := map[
    "NONE" := "LV_TEXT_DECOR_NONE", "UNDERLINE" := "LV_TEXT_DECOR_UNDERLINE",
    "STRIKETHROUGH" := "LV_TEXT_DECOR_STRIKETHROUGH"]

  /** A span after `SPAN_SCHEMA`; `decor` is an upper-cased `TEXT_DECORS` key. */
  datatype SpanConf = SpanConf(text: Value, color: Option<Value>, font: Option<string>, decor: Option<string>)

  /** A span group; `mode` is `None` until the schema supplies `BREAK`. */
  datatype SpangroupConf = SpangroupConf(mode: Option<string>, spans: seq<SpanConf>)

  /** `SPANGROUP_SCHEMA` with `SPAN_SCHEMA` for each span: the mode defaults
      to `BREAK`, mode and decorations are matched in any case. */
  function Schema(c: SpangroupConf): (r: Result<SpangroupConf, string>)
    ensures r.Ok? <==>
      && (c.mode.Some? ==> Upper(c.mode.value) in SpanModes)
      && (forall k :: 0 <= k < |c.spans| && c.spans[k].decor.Some? ==> Upper(c.spans[k].decor.value) in TextDecors)
    ensures r.Ok? ==> r.value.mode == Some(if c.mode.Some? then Upper(c.mode.value) else "BREAK")
    ensures r.Ok? ==> |r.value.spans| == |c.spans|
  {
    var mode := if c.mode.Some? then Upper(c.mode.value) else "BREAK";
    if mode !in SpanModes then Err("Unknown value " + mode)
    else if exists k :: 0 <= k < |c.spans| && c.spans[k].decor.Some? && Upper(c.spans[k].decor.value) !in TextDecors then
      Err("Unknown text decoration")
    else
      Ok(SpangroupConf(Some(mode), seq(|c.spans|, k requires 0 <= k < |c.spans| =>
        var s := c.spans[k];
        s.(decor := if s.decor.Some? then Some(Upper(s.decor.value)) else None))))
  }

  predicate ValidSpan(s: SpanConf) {
    s.decor.Some? ==> s.decor.value in TextDecors
  }

  /** A span the schema has accepted. */
  type Span = s: SpanConf | ValidSpan(s) witness SpanConf(Str(""), None, None, None)

  predicate Validated(c: SpangroupConf) {
    c.mode.Some? && c.mode.value in SpanModes && forall k :: 0 <= k < |c.spans| ==> ValidSpan(c.spans[k])
  }

  /** The expression `lv_spangroup_new_span(obj)`, which creates a span each
      time it is evaluated. */
  function NewSpan(obj: string): Arg {
    Expr("spangroup_new_span", [Var(obj)])
  }

  function SpanStyle(span: Arg): Arg {
    Expr("span_get_style", [span])
  }

  /** The operations for one span that is reached through `span`. */
  function StyledSpanOps(span: Arg, s: Span): seq<Op>
  {
    [Call("span_set_text", [span, V(s.text)])]
    + (if s.color.Some? then [Call("style_set_text_color", [SpanStyle(span), V(s.color.value)])] else [])
    + (if s.decor.Some? then [Call("style_set_text_decor", [SpanStyle(span), Lit(TextDecors[s.decor.value])])] else [])
  }

  /** `_add_span` as written: `span_var` is the creating expression itself. */
  function AddSpanAsWritten(obj: string, s: Span): seq<Op>
  {
    StyledSpanOps(NewSpan(obj), s)
  }

  /** `_add_span` as intended: the span is created once, into a local
      variable, and the text and the styles all go to it. */
  function AddSpan(obj: string, s: Span): seq<Op>
  {
    [BeginLocal("span", NewSpan(obj))] + StyledSpanOps(Var("span"), s) + [EndLocal("span")]
  }

  /** The number of spans an operation creates when it runs. */
  function SpansCreatedBy(op: Op): nat {
    match op
    case Call(_, args) => if |args| > 0 && args[0].Expr? && (args[0].fn == "spangroup_new_span" || (|args[0].args| == 1 && args[0].args[0].Expr? && args[0].args[0].fn == "spangroup_new_span")) then 1 else 0
    case BeginLocal(_, init) => if init.Expr? && init.fn == "spangroup_new_span" then 1 else 0
    case _ => 0
  }

  function SpansCreated(ops: seq<Op>): nat
    decreases |ops|
  {
    if |ops| == 0 then 0 else SpansCreated(ops[..|ops| - 1]) + SpansCreatedBy(ops[|ops| - 1])
  }

  lemma {:induction false} SpansCreatedAppend(a: seq<Op>, b: seq<Op>)
    ensures SpansCreated(a + b) == SpansCreated(a) + SpansCreated(b)
    decreases |b|
  {
    if |b| == 0 {
      assert a + b == a;
    } else {
      assert (a + b)[..|a + b| - 1] == a + b[..|b| - 1];
      assert (a + b)[|a + b| - 1] == b[|b| - 1];
      SpansCreatedAppend(a, b[..|b| - 1]);
    }
  }

  lemma SpansCreatedOne(op: Op)
    ensures SpansCreated([op]) == SpansCreatedBy(op)
  {
    assert [op][..0] == [];
  }

  /** As written, a span with a colour and a decoration creates three spans:
      the text lands on the first, the colour and the decoration on two
      further, empty ones. */
  lemma AsWrittenCreatesSpanPerStyle(obj: string, s: Span)
    ensures SpansCreated(AddSpanAsWritten(obj, s)) == 1 + (if s.color.Some? then 1 else 0) + (if s.decor.Some? then 1 else 0)
  {
    var span := NewSpan(obj);
    var t := [Call("span_set_text", [span, V(s.text)])];
    var c := if s.color.Some? then [Call("style_set_text_color", [SpanStyle(span), V(s.color.value)])] else [];
    var d := if s.decor.Some? then [Call("style_set_text_decor", [SpanStyle(span), Lit(TextDecors[s.decor.value])])] else [];
    SpansCreatedAppend(t + c, d);
    SpansCreatedAppend(t, c);
    SpansCreatedOne(t[0]);
    if s.color.Some? { SpansCreatedOne(c[0]); }
    if s.decor.Some? { SpansCreatedOne(d[0]); }
  }

  /** The concrete case: a red, underlined span. */
  lemma ColoredSpanSplits(obj: string)
    ensures var s := SpanConf(Str("hello"), Some(Str("red")), None, Some("UNDERLINE"));
      ValidSpan(s) && SpansCreated(AddSpanAsWritten(obj, s)) == 3
  {
    AsWrittenCreatesSpanPerStyle(obj, SpanConf(Str("hello"), Some(Str("red")), None, Some("UNDERLINE")));
  }

  /** As intended, exactly one span is created, by the first statement. */
  lemma AddSpanCreatesOne(obj: string, s: Span)
    ensures SpansCreated(AddSpan(obj, s)) == 1
    ensures AddSpan(obj, s)[0] == BeginLocal("span", NewSpan(obj))
  {
    var styled := StyledSpanOps(Var("span"), s);
    assert SpansCreated(styled) == 0 by {
      StyledCreatesNone(Var("span"), s);
    }
    var b, e := [BeginLocal("span", NewSpan(obj))], [EndLocal("span")];
    assert AddSpan(obj, s) == b + styled + e;
    assert SpansCreated(b + styled) == 1 by {
      SpansCreatedAppend(b, styled);
      SpansCreatedOne(b[0]);
    }
    SpansCreatedAppend(b + styled, e);
    SpansCreatedOne(e[0]);
  }

  /** The text, the colour and the decoration all address the variable that
      holds the span, between its declaration and its end. */
  lemma AddSpanAddressesVar(obj: string, s: Span)
    ensures forall k :: 1 <= k < |AddSpan(obj, s)| - 1 ==>
      AddSpan(obj, s)[k].Call? && (AddSpan(obj, s)[k].args[0] == Var("span") || AddSpan(obj, s)[k].args[0] == SpanStyle(Var("span")))
  {
    var styled := StyledSpanOps(Var("span"), s);
    var ops := AddSpan(obj, s);
    assert ops == [BeginLocal("span", NewSpan(obj))] + styled + [EndLocal("span")];
    assert forall k :: 0 <= k < |styled| ==>
      styled[k].Call? && (styled[k].args[0] == Var("span") || styled[k].args[0] == SpanStyle(Var("span")));
    assert forall k :: 1 <= k < |ops| - 1 ==> ops[k] == styled[k - 1];
  }

  /** The styling statements on a span variable create no span. */
  lemma StyledCreatesNone(span: Arg, s: Span)
    requires span == Var("span")
    ensures SpansCreated(StyledSpanOps(span, s)) == 0
  {
    var t := [Call("span_set_text", [span, V(s.text)])];
    var c := if s.color.Some? then [Call("style_set_text_color", [SpanStyle(span), V(s.color.value)])] else [];
    var d := if s.decor.Some? then [Call("style_set_text_decor", [SpanStyle(span), Lit(TextDecors[s.decor.value])])] else [];
    assert StyledSpanOps(span, s) == t + c + d;
    assert SpansCreated(t + c) == 0 by {
      SpansCreatedAppend(t, c);
      SpansCreatedOne(t[0]);
      if s.color.Some? { SpansCreatedOne(c[0]); }
    }
    SpansCreatedAppend(t + c, d);
    if s.decor.Some? { SpansCreatedOne(d[0]); }
  }

  function SpansOps(obj: string, spans: seq<Span>): seq<Op> {
    ConcatMap((s: Span) => AddSpan(obj, s), spans)
  }

  /** Everything `to_code` emits: the mode, then the spans in order. */
  function SpangroupOps(obj: string, c: SpangroupConf): seq<Op>
    requires Validated(c)
  {
    [Call("spangroup_set_mode", [Var(obj), Lit(SpanModes[c.mode.value])])] + SpansOps(obj, c.spans)
  }

  /** `_add_span`, creating the span once. */
  method AddSpanToCode(code: Code, obj: string, s: Span)
    modifies code
    ensures code.ops == old(code.ops) + AddSpan(obj, s)
    ensures code.defines == old(code.defines) && code.warnings == old(code.warnings)
  {
    code.Add(BeginLocal("span", NewSpan(obj)));
    var spanVar := Var("span");
    code.Call("span_set_text", [spanVar, V(s.text)]);
    if s.color.Some? {
      code.Call("style_set_text_color", [SpanStyle(spanVar), V(s.color.value)]);
    }
    if s.decor.Some? {
      code.Call("style_set_text_decor", [SpanStyle(spanVar), Lit(TextDecors[s.decor.value])]);
    }
    code.Add(EndLocal("span"));
  }

  /** `SpangroupType.to_code`. */
  method ToCode(code: Code, uses: Helpers.Uses, obj: string, c: SpangroupConf)
    requires Validated(c)
    modifies code, uses
    ensures code.ops == old(code.ops) + SpangroupOps(obj, c)
    ensures code.defines == old(code.defines) && code.warnings == old(code.warnings)
    ensures uses.componentsRequired == old(uses.componentsRequired) + {"spangroup"}
    ensures uses.lvUses == old(uses.lvUses)
  {
    uses.AddComponent("spangroup");
    code.Call("spangroup_set_mode", [Var(obj), Lit(SpanModes[c.mode.value])]);
    AddSpans(code, obj, c.spans);
  }

  /** The loop over the spans. */
  method AddSpans(code: Code, obj: string, spans: seq<Span>)
    modifies code
    ensures code.ops == old(code.ops) + SpansOps(obj, spans)
    ensures code.defines == old(code.defines) && code.warnings == old(code.warnings)
  {
    var i := 0;
    while i < |spans|
      invariant 0 <= i <= |spans|
      invariant code.ops == old(code.ops) + SpansOps(obj, spans[..i])
      invariant code.defines == old(code.defines) && code.warnings == old(code.warnings)
    {
      assert SpansOps(obj, spans[..i + 1]) == SpansOps(obj, spans[..i]) + AddSpan(obj, spans[i]) by {
        assert spans[..i + 1][..i] == spans[..i];
      }
      AddSpanToCode(code, obj, spans[i]);
      i := i + 1;
    }
    assert spans[..i] == spans;
  }

  /** Spans are emitted in list order: the output for a list is the output
      for its first part followed by that of the rest. */
  lemma SpansInOrder(obj: string, a: seq<Span>, b: seq<Span>)
    ensures SpansOps(obj, a + b) == SpansOps(obj, a) + SpansOps(obj, b)
  {
    ConcatMapAppend((s: Span) => AddSpan(obj, s), a, b);
  }

  /** The mode comes first, `BREAK` by default; the font is accepted and
      emits nothing. */
  lemma ModeFirstAndFontIgnored(obj: string, s: Span, font: Option<string>)
    ensures Schema(SpangroupConf(None, [])) == Ok(SpangroupConf(Some("BREAK"), []))
    ensures SpangroupOps(obj, SpangroupConf(Some("BREAK"), [s]))[0] == Call("spangroup_set_mode", [Var(obj), Lit("LV_SPAN_MODE_BREAK")])
    ensures AddSpan(obj, s.(font := font)) == AddSpan(obj, s)
  {
    assert [s][..0] == [];
  }
}
