/** widgets/win.py: a window with a title and header buttons. */
module WinWidget {
  import opened Wrappers
  import opened Emit
  import Helpers

  /** The fixed button width passed to `lv_win_add_button`. */
  const ButtonWidth := "40"

  /** A header button: its id (the schema generates one) and optional icon. */
  datatype HeaderButton = HeaderButton(id: Option<string>, src: Option<Value>)

  /** A window as written in the configuration. */
  datatype WinInput = WinInput(title: Option<Value>, headerHeight: Option<Value>, headerButtons: seq<HeaderButton>)

  /** A window after `WIN_SCHEMA`. */
  datatype WinConf = WinConf(title: Value, headerHeight: Value, headerButtons: seq<HeaderButton>)

  /** `WIN_SCHEMA`: the title is required and the header height defaults to 40. */
  function Schema(c: WinInput): (r: Result<WinConf, string>)
    ensures r.Ok? <==> c.title.Some?
    ensures r.Ok? ==> r.value == WinConf(c.title.value, c.headerHeight.GetOr(Int(40)), c.headerButtons)
  {
    if c.title.None? then Err("required key not provided: title")
    else Ok(WinConf(c.title.value, c.headerHeight.GetOr(Int(40)), c.headerButtons))
  }

  /** The button-creating expression for `b`. */
  function AddButton(obj: string, b: HeaderButton): Arg {
    Expr("win_add_button", [Var(obj), if b.src.Some? then V(b.src.value) else Lit("NULL"), Lit(ButtonWidth)])
  }

  /** `_add_header_button`: a button with an id is kept in a variable of
      that name; one without is created by a bare statement. */
  function ButtonOp(obj: string, b: HeaderButton): Op {
    var e := AddButton(obj, b);
    if b.id.Some? && b.id.value != "" then Declare(b.id.value, e) else Call(e.fn, e.args)
  }

  function ButtonsOps(obj: string, bs: seq<HeaderButton>): (r: seq<Op>)
    ensures |r| == |bs|
    decreases |bs|
  {
    if |bs| == 0 then [] else ButtonsOps(obj, bs[..|bs| - 1]) + [ButtonOp(obj, bs[|bs| - 1])]
  }

  function WinOps(obj: string, c: WinConf): seq<Op> {
    [Call("win_add_title", [Var(obj), V(c.title)])] + ButtonsOps(obj, c.headerButtons)
  }

  /** `_add_header_button`. */
  method AddHeaderButton(code: Code, obj: string, b: HeaderButton)
    modifies code
    ensures code.ops == old(code.ops) + [ButtonOp(obj, b)]
    ensures code.defines == old(code.defines) && code.warnings == old(code.warnings)
  {
    var icon := if b.src.Some? then V(b.src.value) else Lit("NULL");
    if b.id.Some? && b.id.value != "" {
      code.Add(Declare(b.id.value, Expr("win_add_button", [Var(obj), icon, Lit(ButtonWidth)])));
    } else {
      code.Call("win_add_button", [Var(obj), icon, Lit(ButtonWidth)]);
    }
  }

  /** `WindowType.to_code`. */
  method ToCode(code: Code, uses: Helpers.Uses, obj: string, c: WinConf)
    modifies code, uses
    ensures code.ops == old(code.ops) + WinOps(obj, c)
    ensures code.defines == old(code.defines) && code.warnings == old(code.warnings)
    ensures uses.componentsRequired == old(uses.componentsRequired) + {"win"}
    ensures uses.lvUses == old(uses.lvUses)
  {
    uses.AddComponent("win");
    code.Call("win_add_title", [Var(obj), V(c.title)]);
    ghost var before := code.ops;
    var i := 0;
    while i < |c.headerButtons|
      modifies code
      invariant 0 <= i <= |c.headerButtons|
      invariant code.ops == before + ButtonsOps(obj, c.headerButtons[..i])
      invariant code.defines == old(code.defines) && code.warnings == old(code.warnings)
    {
      assert c.headerButtons[..i + 1][..i] == c.headerButtons[..i];
      AddHeaderButton(code, obj, c.headerButtons[i]);
      i := i + 1;
    }
    assert c.headerButtons[..i] == c.headerButtons;
  }

  /** The title comes first; then every header button becomes exactly one
      operation, in order, creating a button of width 40 with its icon or
      `NULL`, bound to the button's id exactly when it has one. */
  lemma {:induction false} ButtonsInOrder(obj: string, c: WinConf)
    ensures WinOps(obj, c)[0] == Call("win_add_title", [Var(obj), V(c.title)])
    ensures |WinOps(obj, c)| == 1 + |c.headerButtons|
    ensures forall k :: 0 <= k < |c.headerButtons| ==>
      var op := WinOps(obj, c)[k + 1]; var b := c.headerButtons[k];
      (op.Declare? <==> b.id.Some? && b.id.value != "")
      && (op.Declare? ==> op.name == b.id.value && op.init == AddButton(obj, b))
      && (op.Call? ==> op == Call("win_add_button", AddButton(obj, b).args))
  {
    OneOpPerButton(obj, c.headerButtons);
  }

  lemma {:induction false} OneOpPerButton(obj: string, bs: seq<HeaderButton>)
    ensures forall k :: 0 <= k < |bs| ==> ButtonsOps(obj, bs)[k] == ButtonOp(obj, bs[k])
    decreases |bs|
  {
    if |bs| > 0 {
      OneOpPerButton(obj, bs[..|bs| - 1]);
      forall k | 0 <= k < |bs| - 1
        ensures ButtonsOps(obj, bs)[k] == ButtonOp(obj, bs[k])
      {
        assert bs[k] == bs[..|bs| - 1][k];
      }
    }
  }

  /** The header height is validated (default 40) but nothing emitted
      depends on it. */
  lemma HeaderHeightHasNoEffect(obj: string, c: WinConf, h: Value)
    ensures WinOps(obj, c.(headerHeight := h)) == WinOps(obj, c)
  {
  }
}
