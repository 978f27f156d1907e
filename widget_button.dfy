/** widgets/button.py: a button whose optional `text` becomes a label created
    as the button's first child. */
module ButtonWidget {
  import opened Wrappers
  import opened Emit
  import Helpers

  const KeyText := "text"
  const KeyWidgets := "widgets"

  /** `ButtonType.validate`: `text` and `widgets` exclude each other, and a
      button with text needs the label widget. */
  method Validate(uses: Helpers.Uses, value: Config) returns (r: Result<Config, ValidationError>)
    modifies uses
    ensures r.Err? <==> KeyText in value && KeyWidgets in value
    ensures r.Ok? ==> r.value == value
    ensures uses.lvUses == old(uses.lvUses) + (if r.Ok? && KeyText in value then {"label"} else {})
    ensures uses.componentsRequired == old(uses.componentsRequired)
  {
    if KeyText in value {
      if KeyWidgets in value {
        return Err(ValidationError("Cannot use both text and widgets in a button", []));
      }
      uses.AddLvUse(["label"]);
      assert Helpers.SetOf(["label"]) == {"label"};
    }
    r := Ok(value);
  }

  /** What `on_create` emits for a button created as `obj`. */
  function CreateOps(obj: string, config: Config): seq<Op> {
    if KeyText in config then [Call("label_create", [Var(obj)])] else []
  }

  /** `ButtonType.on_create`: the created object is returned unchanged. */
  method OnCreate(code: Code, obj: string, config: Config) returns (r: string)
    modifies code
    ensures r == obj
    ensures code.ops == old(code.ops) + CreateOps(obj, config)
    ensures code.defines == old(code.defines) && code.warnings == old(code.warnings)
  {
    if KeyText in config {
      code.Call("label_create", [Var(obj)]);
    }
    r := obj;
  }

  /** The label `on_create` made: child 0 of the button. */
  function Label(obj: string): Arg {
    Expr("obj_get_child", [Var(obj), Num(0)])
  }

  /** What `to_code` emits. */
  function TextOps(obj: string, config: Config): seq<Op> {
    if Given(config, KeyText) then [SetProperty(Label(obj), KeyText, V(config[KeyText]))] else []
  }

  /** `ButtonType.to_code`. */
  method ToCode(code: Code, obj: string, config: Config)
    modifies code
    ensures code.ops == old(code.ops) + TextOps(obj, config)
    ensures code.defines == old(code.defines) && code.warnings == old(code.warnings)
  {
    if KeyText in config && Truthy(config[KeyText]) {
      code.Add(SetProperty(Label(obj), KeyText, V(config[KeyText])));
    }
  }

  /** `ButtonType.final_validate`: an update may only set the text of a
      button that was configured with one. */
  function FinalValidate(update: Config, widget: Config, path: seq<string>): (r: Result<(), ValidationError>)
    ensures r.Err? <==> KeyText in update && KeyText !in widget
    ensures r.Err? ==> r.error.path == path
  {
    if KeyText in update && KeyText !in widget then
      Err(ValidationError("Button must have 'text:' configured to allow updating text", path))
    else
      Ok(())
  }

  /** With text, creation makes exactly one label on the button and the text
      is written to the button's first child, which is that label. */
  lemma TextGoesToLabel(obj: string, config: Config)
    requires Given(config, KeyText)
    ensures CreateOps(obj, config) == [Call("label_create", [Var(obj)])]
    ensures |TextOps(obj, config)| == 1
    ensures TextOps(obj, config)[0].target == Expr("obj_get_child", [Var(obj), Num(0)])
    ensures TextOps(obj, config)[0].value == V(config[KeyText])
  {
  }

  /** Without a `text` key a button emits nothing of its own; with an empty
      text it still gets its label, but no text is set. */
  lemma NoTextNoLabel(obj: string, config: Config)
    ensures KeyText !in config ==> CreateOps(obj, config) == [] && TextOps(obj, config) == []
    ensures KeyText in config && !Truthy(config[KeyText]) ==>
      |CreateOps(obj, config)| == 1 && TextOps(obj, config) == []
  {
  }
}
