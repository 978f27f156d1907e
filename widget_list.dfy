/** widgets/list.py: a list widget whose items are buttons (with an optional
    icon) or text entries. */
module ListWidget {
  import opened Wrappers
  import opened Strings
  import opened Emit
  import Helpers

  const ItemButton := "button"
  const ItemText := "text"

  /** A validated item; `kind` is `button` or `text`. */
  datatype Item = Item(kind: string, text: Value, src: Option<Value>)

  /** `LIST_ITEM_SCHEMA`: the type is lower-cased and must be `button` or
      `text`; the text is required; the icon is optional. */
  function ItemSchema(kind: string, text: Option<Value>, src: Option<Value>): (r: Result<Item, string>)
    ensures r.Ok? <==> (Lower(kind) == ItemButton || Lower(kind) == ItemText) && text.Some?
    ensures r.Ok? ==> r.value == Item(Lower(kind), text.value, src)
  {
    if Lower(kind) != ItemButton && Lower(kind) != ItemText then Err("Unknown value '" + kind + "'")
    else if text.None? then Err("required key not provided: text")
    else Ok(Item(Lower(kind), text.value, src))
  }

  /** The one operation an item emits. */
  function ItemOp(obj: string, it: Item): Op {
    if it.kind == ItemButton then
      Call("list_add_button", [Var(obj), if it.src.Some? then V(it.src.value) else Lit("NULL"), V(it.text)])
    else
      Call("list_add_text", [Var(obj), V(it.text)])
  }

  function ListOps(obj: string, items: seq<Item>): seq<Op>
    decreases |items|
  {
    if |items| == 0 then [] else ListOps(obj, items[..|items| - 1]) + [ItemOp(obj, items[|items| - 1])]
  }

  /** `ListType.to_code`. */
  method ToCode(code: Code, uses: Helpers.Uses, obj: string, items: seq<Item>)
    modifies code, uses
    ensures code.ops == old(code.ops) + ListOps(obj, items)
    ensures code.defines == old(code.defines) && code.warnings == old(code.warnings)
    ensures uses.componentsRequired == old(uses.componentsRequired) + {"list"}
    ensures uses.lvUses == old(uses.lvUses)
  {
    uses.AddComponent("list");
    ghost var before := code.ops;
    var i := 0;
    while i < |items|
      modifies code
      invariant 0 <= i <= |items|
      invariant code.ops == before + ListOps(obj, items[..i])
      invariant code.defines == old(code.defines) && code.warnings == old(code.warnings)
    {
      assert items[..i + 1][..i] == items[..i];
      var item := items[i];
      if item.kind == ItemButton {
        if item.src.Some? {
          code.Call("list_add_button", [Var(obj), V(item.src.value), V(item.text)]);
        } else {
          code.Call("list_add_button", [Var(obj), Lit("NULL"), V(item.text)]);
        }
      } else {
        code.Call("list_add_text", [Var(obj), V(item.text)]);
      }
      i := i + 1;
    }
    assert items[..i] == items;
  }

  /** Exactly one operation per item, in item order. */
  lemma {:induction false} OnePerItem(obj: string, items: seq<Item>)
    ensures |ListOps(obj, items)| == |items|
    ensures forall k :: 0 <= k < |items| ==> ListOps(obj, items)[k] == ItemOp(obj, items[k])
    decreases |items|
  {
    if |items| > 0 {
      OnePerItem(obj, items[..|items| - 1]);
    }
  }

  /** A button passes its icon or `NULL` before its text; a text entry
      passes only its text. */
  lemma ItemShapes(obj: string, it: Item)
    ensures it.kind == ItemButton && it.src.Some? ==> ItemOp(obj, it) == Call("list_add_button", [Var(obj), V(it.src.value), V(it.text)])
    ensures it.kind == ItemButton && it.src.None? ==> ItemOp(obj, it) == Call("list_add_button", [Var(obj), Lit("NULL"), V(it.text)])
    ensures it.kind != ItemButton ==> ItemOp(obj, it) == Call("list_add_text", [Var(obj), V(it.text)])
  {
  }

  /** The type is matched without regard to case. */
  lemma TypeIgnoresCase(text: Value)
    ensures ItemSchema("BUTTON", Some(text), None) == Ok(Item("button", text, None))
  {
    assert Lower("BUTTON") == "button";
  }
}
