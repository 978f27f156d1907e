/** widgets/msgbox.py: message boxes, each a centred box inside a hidden,
    full-screen, translucent outer object on the display's top layer, with
    footer and header buttons and a close action that hides the outer
    object. */
module MsgboxWidget {
  import opened Wrappers
  import opened Emit
  import Helpers
  import Styles

  /** `OUTER_STYLE`'s properties. */
  const OuterStyleProps: Styles.Style := map[
    "bg_opa" := Int(128), "bg_color" := Str("black"), "border_width" := Int(0), "pad_all" := Int(0), "radius" := Int(0)]
  const OuterStyleName := "msgbox_outer"

  const ButtonStyleWarning := "'button_style' for msgbox is deprecated - style the buttons directly."
  const Hidden := Lit("LV_OBJ_FLAG_HIDDEN")
  const Clicked := Lit("LV_EVENT_CLICKED")
  const NullPtr := Lit("nullptr")
  const CloseButtonVar := "close_btn_"
  /** The converted value of the size `1.0`: the full parent. */
  const Percent100 := V(Str("100%"))

  /** A message box as written; `title`, `body` and `buttonStyle` are the
      nested mappings, buttons are named by their ids. */
  datatype MsgboxInput = MsgboxInput(id: string, title: Option<Config>, body: Option<Config>,
                                     buttons: seq<string>, headerButtons: seq<string>,
                                     closeButton: Option<Value>, buttonStyle: Option<Config>)

  /** A message box after `MSGBOX_SCHEMA`. */
  datatype MsgboxConf = MsgboxConf(id: string, title: Config, body: Config,
                                   buttons: seq<string>, headerButtons: seq<string>,
                                   closeButton: Value, buttonStyle: Option<Config>)

  /** `MSGBOX_SCHEMA`: the title is required, the body defaults to empty and
      the close button to true. */
  function Schema(c: MsgboxInput): (r: Result<MsgboxConf, string>)
    ensures r.Ok? <==> c.title.Some?
    ensures r.Ok? ==> r.value == MsgboxConf(c.id, c.title.value, c.body.GetOr(map[]), c.buttons, c.headerButtons,
                                            c.closeButton.GetOr(Bool(true)), c.buttonStyle)
  {
    if c.title.None? then Err("required key not provided: title")
    else Ok(MsgboxConf(c.id, c.title.value, c.body.GetOr(map[]), c.buttons, c.headerButtons,
                       c.closeButton.GetOr(Bool(true)), c.buttonStyle))
  }

  /** `conf.get(CONF_TEXT, "")` on a styled text. */
  function TextOf(d: Config): Value {
    if "text" in d then d["text"] else Str("")
  }

  function OuterId(id: string): string { id + "_outer" }

  /** The outer object on the top layer, the message box inside it, and the
      outer object's size. */
  function HeadOps(top: Arg, c: MsgboxConf): seq<Op> {
    var outer := OuterId(c.id);
    [ Declare(outer, Expr("obj_create", [top])),
      Declare(c.id, Expr("msgbox_create", [Var(outer)])),
      WidgetCall(Var(outer), "move_to_foreground", [Lit("true")]),
      Call("obj_set_size", [Var(outer), Percent100, Percent100]) ]
  }

  /** After the outer style exists: the outer object is styled and hidden,
      the title and the text are added, the box is centred and gets its own
      properties and children. */
  function MidOps(c: MsgboxConf, styleVar: string): seq<Op> {
    var outer := OuterId(c.id);
    [ WidgetCall(Var(outer), "add_style", [Var(styleVar)]),
      WidgetCall(Var(outer), "add_flag", [Hidden]),
      Call("msgbox_add_title", [Var(c.id), V(TextOf(c.title))]),
      Call("msgbox_add_text", [Var(c.id), V(TextOf(c.body))]),
      Call("obj_set_style_align", [Var(c.id), Lit("LV_ALIGN_CENTER"), Num(0)]),
      SetObjProperties(Var(c.id), c.id),
      AddWidgets(Var(c.id), c.id) ]
  }

  function ButtonsOps(kind: string, id: string, bs: seq<string>): (r: seq<Op>)
    ensures |r| == |bs|
    decreases |bs|
  {
    if |bs| == 0 then [] else ButtonsOps(kind, id, bs[..|bs| - 1]) + [WidgetToCode(kind, bs[|bs| - 1], Var(id))]
  }

  /** The close action: hide the outer object (and colour it red). */
  function CloseAction(c: MsgboxConf): Op {
    var outer := OuterId(c.id);
    DefineLambda(c.id, [WidgetCall(Var(outer), "add_flag", [Hidden]),
                        WidgetCall(Var(outer), "set_style", [Lit("bg_color"), V(Str("red"))])])
  }

  /** Where the close action is attached: a new close button, or else a
      click on the outer object. */
  function CloseOps(c: MsgboxConf): seq<Op> {
    if Truthy(c.closeButton) then
      [ BeginLocal(CloseButtonVar, Expr("msgbox_add_close_button", [Var(c.id)])),
        Call("obj_remove_event_cb", [Var(CloseButtonVar), NullPtr]),
        Call("obj_add_event_cb", [Var(CloseButtonVar), LambdaRef(c.id), Clicked, NullPtr]),
        EndLocal(CloseButtonVar) ]
    else
      [Call("obj_add_event_cb", [Var(OuterId(c.id)), LambdaRef(c.id), Clicked, NullPtr])]
  }

  /** Everything one message box emits; `created` is what creating the
      shared outer style emits here (nothing once it exists). */
  function MsgboxOps(top: Arg, c: MsgboxConf, created: seq<Op>, styleVar: string): seq<Op> {
    HeadOps(top, c) + created + BodyOps(c, styleVar)
  }

  /** What follows the outer style's creation. */
  function BodyOps(c: MsgboxConf, styleVar: string): seq<Op> {
    MidOps(c, styleVar)
    + ButtonsOps("footer_button", c.id, c.buttons) + ButtonsOps("header_button", c.id, c.headerButtons)
    + [CloseAction(c)] + CloseOps(c)
  }

  /** The uses a message box adds: flex layout, button, label, msgbox and
      the button widget's own. */
  const MsgboxUses: seq<string> := ["flex", "button", "label", "msgbox", "btn"]

  method AddButtons(code: Code, kind: string, id: string, bs: seq<string>)
    modifies code
    ensures code.ops == old(code.ops) + ButtonsOps(kind, id, bs)
    ensures code.defines == old(code.defines) && code.warnings == old(code.warnings)
  {
    var i := 0;
    while i < |bs|
      invariant 0 <= i <= |bs|
      invariant code.ops == old(code.ops) + ButtonsOps(kind, id, bs[..i])
      invariant code.defines == old(code.defines) && code.warnings == old(code.warnings)
    {
      assert bs[..i + 1][..i] == bs[..i];
      code.Add(WidgetToCode(kind, bs[i], Var(id)));
      i := i + 1;
    }
    assert bs[..i] == bs;
  }

  method AddHead(code: Code, top: Arg, c: MsgboxConf)
    modifies code
    ensures code.ops == old(code.ops) + HeadOps(top, c)
    ensures code.defines == old(code.defines) && code.warnings == old(code.warnings)
  {
    var outer := OuterId(c.id);
    code.Add(Declare(outer, Expr("obj_create", [top])));
    code.Add(Declare(c.id, Expr("msgbox_create", [Var(outer)])));
    code.Add(WidgetCall(Var(outer), "move_to_foreground", [Lit("true")]));
    code.Call("obj_set_size", [Var(outer), Percent100, Percent100]);
  }

  method AddMid(code: Code, c: MsgboxConf, styleVar: string)
    modifies code
    ensures code.ops == old(code.ops) + MidOps(c, styleVar)
    ensures code.defines == old(code.defines) && code.warnings == old(code.warnings)
  {
    var outer := OuterId(c.id);
    code.Add(WidgetCall(Var(outer), "add_style", [Var(styleVar)]));
    code.Add(WidgetCall(Var(outer), "add_flag", [Hidden]));
    code.Call("msgbox_add_title", [Var(c.id), V(TextOf(c.title))]);
    code.Call("msgbox_add_text", [Var(c.id), V(TextOf(c.body))]);
    code.Call("obj_set_style_align", [Var(c.id), Lit("LV_ALIGN_CENTER"), Num(0)]);
    code.Add(SetObjProperties(Var(c.id), c.id));
    code.Add(AddWidgets(Var(c.id), c.id));
  }

  method AddClose(code: Code, c: MsgboxConf)
    modifies code
    ensures code.ops == old(code.ops) + [CloseAction(c)] + CloseOps(c)
    ensures code.defines == old(code.defines) && code.warnings == old(code.warnings)
  {
    code.Add(CloseAction(c));
    if Truthy(c.closeButton) {
      code.Add(BeginLocal(CloseButtonVar, Expr("msgbox_add_close_button", [Var(c.id)])));
      code.Call("obj_remove_event_cb", [Var(CloseButtonVar), NullPtr]);
      code.Call("obj_add_event_cb", [Var(CloseButtonVar), LambdaRef(c.id), Clicked, NullPtr]);
      code.Add(EndLocal(CloseButtonVar));
    } else {
      code.Call("obj_add_event_cb", [Var(OuterId(c.id)), LambdaRef(c.id), Clicked, NullPtr]);
    }
  }

  /** What creating the shared outer style emits, given whether it exists. */
  function StyleCreation(exists_: bool, props: seq<string>, remap: string -> string): seq<Op> {
    if exists_ then [] else Styles.CreateStyleOps(OuterStyleName + "_style", Some(OuterStyleProps), props, remap)
  }

  /** The shared `OUTER_STYLE`. */
  predicate IsOuterStyle(s: Styles.LVStyle)
    reads s
  {
    s.Valid() && s.idName == OuterStyleName && s.style == Some(OuterStyleProps)
  }

  /** `msgbox_to_code`. */
  method MsgboxToCode(code: Code, uses: Helpers.Uses, outerStyle: Styles.LVStyle, top: Arg, c: MsgboxConf,
                      props: seq<string>, remap: string -> string)
    requires IsOuterStyle(outerStyle)
    modifies code, uses, outerStyle
    ensures IsOuterStyle(outerStyle) && outerStyle.styleVar == Some(OuterStyleName + "_style")
    ensures code.ops == old(code.ops) + MsgboxOps(top, c, StyleCreation(old(outerStyle.styleVar).Some?, props, remap),
                                                  OuterStyleName + "_style")
    ensures code.warnings == old(code.warnings) + (if c.buttonStyle.Some? then [ButtonStyleWarning] else [])
    ensures code.defines == old(code.defines)
    ensures uses.lvUses == old(uses.lvUses) + Helpers.SetOf(MsgboxUses)
    ensures uses.componentsRequired == old(uses.componentsRequired)
  {
    uses.AddLvUse(MsgboxUses);
    if c.buttonStyle.Some? {
      code.AddWarning(ButtonStyleWarning);
    }
    BuildMsgbox(code, outerStyle, top, c, props, remap);
  }

  method BuildMsgbox(code: Code, outerStyle: Styles.LVStyle, top: Arg, c: MsgboxConf,
                     props: seq<string>, remap: string -> string)
    requires IsOuterStyle(outerStyle)
    modifies code, outerStyle
    ensures IsOuterStyle(outerStyle) && outerStyle.styleVar == Some(OuterStyleName + "_style")
    ensures code.ops == old(code.ops) + MsgboxOps(top, c, StyleCreation(old(outerStyle.styleVar).Some?, props, remap),
                                                  OuterStyleName + "_style")
    ensures code.defines == old(code.defines) && code.warnings == old(code.warnings)
  {
    ghost var created := StyleCreation(outerStyle.styleVar.Some?, props, remap);
    ghost var o0 := code.ops;
    AddHead(code, top, c);
    var styleVar := OuterStyleVar(code, outerStyle, props, remap);
    AddBody(code, c, styleVar);
    ghost var head, body := HeadOps(top, c), BodyOps(c, styleVar);
    assert code.ops == o0 + head + created + body;
    AppendAssoc(o0, head + created, body);
    AppendAssoc(o0, head, created);
  }

  /** `OUTER_STYLE.get_var()`. */
  method OuterStyleVar(code: Code, outerStyle: Styles.LVStyle, props: seq<string>, remap: string -> string)
    returns (styleVar: string)
    requires IsOuterStyle(outerStyle)
    modifies code, outerStyle
    ensures IsOuterStyle(outerStyle) && styleVar == OuterStyleName + "_style" && outerStyle.styleVar == Some(styleVar)
    ensures code.ops == old(code.ops) + StyleCreation(old(outerStyle.styleVar).Some?, props, remap)
    ensures code.defines == old(code.defines) && code.warnings == old(code.warnings)
  {
    styleVar := outerStyle.GetVar(code, props, remap);
  }

  method AddBody(code: Code, c: MsgboxConf, styleVar: string)
    modifies code
    ensures code.ops == old(code.ops) + BodyOps(c, styleVar)
    ensures code.defines == old(code.defines) && code.warnings == old(code.warnings)
  {
    AddMid(code, c, styleVar);
    ghost var o1 := code.ops;
    AddButtons(code, "footer_button", c.id, c.buttons);
    AddButtons(code, "header_button", c.id, c.headerButtons);
    ghost var o2 := code.ops;
    AddClose(code, c);
    assert code.ops == o2 + ([CloseAction(c)] + CloseOps(c));
  }

  /** The message boxes in order, only the first creating the outer style. */
  function MsgboxesOps(top: Arg, cs: seq<MsgboxConf>, created: seq<Op>, styleVar: string): seq<Op>
    decreases |cs|
  {
    if |cs| == 0 then []
    else MsgboxesOps(top, cs[..|cs| - 1], created, styleVar) + MsgboxOps(top, cs[|cs| - 1], if |cs| == 1 then created else [], styleVar)
  }

  /** The top layer of the display; the expression is also emitted as a
      statement of its own. */
  function TopLayer(display: Arg): Arg {
    Expr("disp_get_layer_top", [Member(display, "get_disp")])
  }

  /** `msgboxes_to_code`. */
  method MsgboxesToCode(code: Code, uses: Helpers.Uses, outerStyle: Styles.LVStyle, display: Arg, cs: seq<MsgboxConf>,
                        props: seq<string>, remap: string -> string)
    requires IsOuterStyle(outerStyle)
    modifies code, uses, outerStyle
    ensures IsOuterStyle(outerStyle)
    ensures code.ops == old(code.ops) + [Call("disp_get_layer_top", [Member(display, "get_disp")])]
      + MsgboxesOps(TopLayer(display), cs, StyleCreation(old(outerStyle.styleVar).Some?, props, remap), OuterStyleName + "_style")
    ensures code.defines == old(code.defines)
    ensures uses.componentsRequired == old(uses.componentsRequired)
  {
    code.Call("disp_get_layer_top", [Member(display, "get_disp")]);
    AddMsgboxes(code, uses, outerStyle, TopLayer(display), cs, props, remap);
  }

  /** The message boxes of `msgboxes_to_code`, in order. */
  method AddMsgboxes(code: Code, uses: Helpers.Uses, outerStyle: Styles.LVStyle, top: Arg, cs: seq<MsgboxConf>,
                     props: seq<string>, remap: string -> string)
    requires IsOuterStyle(outerStyle)
    modifies code, uses, outerStyle
    ensures IsOuterStyle(outerStyle)
    ensures code.ops == old(code.ops)
      + MsgboxesOps(top, cs, StyleCreation(old(outerStyle.styleVar).Some?, props, remap), OuterStyleName + "_style")
    ensures code.defines == old(code.defines)
    ensures uses.componentsRequired == old(uses.componentsRequired)
  {
    ghost var created := StyleCreation(outerStyle.styleVar.Some?, props, remap);
    var i := 0;
    while i < |cs|
      invariant 0 <= i <= |cs|
      invariant IsOuterStyle(outerStyle)
      invariant i == 0 ==> outerStyle.styleVar == old(outerStyle.styleVar)
      invariant i > 0 ==> outerStyle.styleVar.Some?
      invariant code.ops == old(code.ops) + MsgboxesOps(top, cs[..i], created, OuterStyleName + "_style")
      invariant code.defines == old(code.defines)
      invariant uses.componentsRequired == old(uses.componentsRequired)
    {
      ghost var prev := code.ops;
      ghost var cr := if i == 0 then created else [];
      assert StyleCreation(outerStyle.styleVar.Some?, props, remap) == cr;
      MsgboxToCode(code, uses, outerStyle, top, cs[i], props, remap);
      assert code.ops == prev + MsgboxOps(top, cs[i], cr, OuterStyleName + "_style");
      MsgboxesStep(top, cs, i, created, OuterStyleName + "_style");
      AppendAssoc(old(code.ops), MsgboxesOps(top, cs[..i], created, OuterStyleName + "_style"), MsgboxOps(top, cs[i], cr, OuterStyleName + "_style"));
      i := i + 1;
    }
    assert cs[..i] == cs;
  }

  lemma MsgboxesStep(top: Arg, cs: seq<MsgboxConf>, i: nat, created: seq<Op>, styleVar: string)
    requires i < |cs|
    ensures MsgboxesOps(top, cs[..i + 1], created, styleVar)
      == MsgboxesOps(top, cs[..i], created, styleVar) + MsgboxOps(top, cs[i], if i == 0 then created else [], styleVar)
  {
    assert cs[..i + 1][..i] == cs[..i];
  }

  /** The outer style is created once, by the first message box; every
      later one only refers to it. */
  lemma {:induction false} FirstCreatesStyle(top: Arg, cs: seq<MsgboxConf>, created: seq<Op>, styleVar: string)
    requires |cs| > 0
    ensures MsgboxesOps(top, cs, created, styleVar) == MsgboxOps(top, cs[0], created, styleVar) + MsgboxesOps(top, cs[1..], [], styleVar)
    decreases |cs|
  {
    if |cs| > 1 {
      var init := cs[..|cs| - 1];
      FirstCreatesStyle(top, init, created, styleVar);
      assert init[0] == cs[0];
      assert init[1..] == cs[1..][..|cs[1..]| - 1];
      assert cs[1..][|cs[1..]| - 1] == cs[|cs| - 1];
    } else {
      assert cs[1..] == [];
    }
  }

  /** The outer object is named after the box and created on the top layer,
      the box inside it; the outer object is hidden before the title, which
      comes before the body text (empty by default). */
  lemma Structure(top: Arg, c: MsgboxConf, created: seq<Op>, styleVar: string)
    ensures var ops := MsgboxOps(top, c, created, styleVar); var n := |created|;
      && ops[0] == Declare(c.id + "_outer", Expr("obj_create", [top]))
      && ops[1] == Declare(c.id, Expr("msgbox_create", [Var(c.id + "_outer")]))
      && ops[4 + n] == WidgetCall(Var(c.id + "_outer"), "add_style", [Var(styleVar)])
      && ops[5 + n] == WidgetCall(Var(c.id + "_outer"), "add_flag", [Hidden])
      && ops[6 + n] == Call("msgbox_add_title", [Var(c.id), V(TextOf(c.title))])
      && ops[7 + n] == Call("msgbox_add_text", [Var(c.id), V(TextOf(c.body))])
    ensures "text" !in c.body ==> TextOf(c.body) == Str("")
  {
    var ops := MsgboxOps(top, c, created, styleVar);
    var n := |created|;
    var hm := HeadOps(top, c) + created + MidOps(c, styleVar);
    assert ops[..|hm|] == hm;
    assert hm[4 + n..] == MidOps(c, styleVar);
  }

  /** Footer buttons come first, in order, then header buttons, in order,
      all created on the box; the close action and its attachment end the
      box's code. */
  lemma ButtonsAndClose(top: Arg, c: MsgboxConf, created: seq<Op>, styleVar: string)
    ensures var ops := MsgboxOps(top, c, created, styleVar);
      var f := 11 + |created|; var h := f + |c.buttons|; var e := h + |c.headerButtons|;
      && |ops| == e + 1 + |CloseOps(c)|
      && (forall k :: 0 <= k < |c.buttons| ==> ops[f + k] == WidgetToCode("footer_button", c.buttons[k], Var(c.id)))
      && (forall k :: 0 <= k < |c.headerButtons| ==> ops[h + k] == WidgetToCode("header_button", c.headerButtons[k], Var(c.id)))
      && ops[e] == CloseAction(c) && ops[e + 1..] == CloseOps(c)
  {
    var ops := MsgboxOps(top, c, created, styleVar);
    var body := BodyOps(c, styleVar);
    var n := 4 + |created|;
    assert ops == (HeadOps(top, c) + created) + body;
    BodyLayout(c, styleVar);
    var h := 7 + |c.buttons|;
    var e := h + |c.headerButtons|;
    forall k | 0 <= k < |c.buttons|
      ensures ops[n + 7 + k] == WidgetToCode("footer_button", c.buttons[k], Var(c.id))
    {
      assert ops[n + 7 + k] == body[7 + k];
    }
    forall k | 0 <= k < |c.headerButtons|
      ensures ops[n + h + k] == WidgetToCode("header_button", c.headerButtons[k], Var(c.id))
    {
      assert ops[n + h + k] == body[h + k];
    }
    assert ops[n + e] == body[e];
    assert ops[n + e + 1..] == body[e + 1..];
  }

  /** The buttons and the close action within `BodyOps`, after the seven
      operations of `MidOps`. */
  lemma BodyLayout(c: MsgboxConf, styleVar: string)
    ensures var ops := BodyOps(c, styleVar);
      var h := 7 + |c.buttons|; var e := h + |c.headerButtons|;
      && |ops| == e + 1 + |CloseOps(c)|
      && (forall k :: 0 <= k < |c.buttons| ==> ops[7 + k] == WidgetToCode("footer_button", c.buttons[k], Var(c.id)))
      && (forall k :: 0 <= k < |c.headerButtons| ==> ops[h + k] == WidgetToCode("header_button", c.headerButtons[k], Var(c.id)))
      && ops[e] == CloseAction(c) && ops[e + 1..] == CloseOps(c)
  {
    var ops := BodyOps(c, styleVar);
    var fb := ButtonsOps("footer_button", c.id, c.buttons);
    var hb := ButtonsOps("header_button", c.id, c.headerButtons);
    assert ops == MidOps(c, styleVar) + fb + hb + ([CloseAction(c)] + CloseOps(c));
    forall k | 0 <= k < |c.buttons|
      ensures ops[7 + k] == WidgetToCode("footer_button", c.buttons[k], Var(c.id))
    {
      ButtonsInOrder("footer_button", c.id, c.buttons);
      assert ops[7 + k] == fb[k];
    }
    forall k | 0 <= k < |c.headerButtons|
      ensures ops[7 + |c.buttons| + k] == WidgetToCode("header_button", c.headerButtons[k], Var(c.id))
    {
      ButtonsInOrder("header_button", c.id, c.headerButtons);
      assert ops[7 + |c.buttons| + k] == hb[k];
    }
  }

  lemma {:induction false} ButtonsInOrder(kind: string, id: string, bs: seq<string>)
    ensures forall k :: 0 <= k < |bs| ==> ButtonsOps(kind, id, bs)[k] == WidgetToCode(kind, bs[k], Var(id))
    decreases |bs|
  {
    if |bs| > 0 {
      ButtonsInOrder(kind, id, bs[..|bs| - 1]);
      forall k | 0 <= k < |bs| - 1
        ensures ButtonsOps(kind, id, bs)[k] == WidgetToCode(kind, bs[k], Var(id))
      {
        assert bs[k] == bs[..|bs| - 1][k];
      }
    }
  }

  /** The close action hides the outer object. It is attached to the click
      of a new close button when `close_button` is true (the default), and
      to the click of the outer object otherwise. */
  lemma CloseBehaviour(c: MsgboxConf)
    ensures CloseAction(c).body[0] == WidgetCall(Var(OuterId(c.id)), "add_flag", [Hidden])
    ensures var ops := CloseOps(c); var attach := if Truthy(c.closeButton) then ops[2] else ops[0];
      && attach == Call("obj_add_event_cb", [attach.args[0], LambdaRef(c.id), Clicked, NullPtr])
      && (attach.args[0] == Var(CloseButtonVar) <==> Truthy(c.closeButton))
      && (attach.args[0] == Var(OuterId(c.id)) <==> !Truthy(c.closeButton))
      && (Truthy(c.closeButton) ==> ops[0] == BeginLocal(CloseButtonVar, Expr("msgbox_add_close_button", [Var(c.id)])))
    ensures Schema(MsgboxInput(c.id, Some(c.title), None, [], [], None, None)).value.closeButton == Bool(true)
  {
    assert OuterId(c.id)[|OuterId(c.id)| - 1] == 'r' != CloseButtonVar[|CloseButtonVar| - 1];
  }
}
