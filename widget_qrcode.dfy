/** widgets/qrcode.py: a QR code with its colours, its size and its text. */
module QrCodeWidget {
  import opened Wrappers
  import opened Emit

  const TextVar := "qr_text"

  /** A QR code as written; on creation every colour has been defaulted and
      the size is present, on update any key may be absent. */
  datatype QrConf = QrConf(text: Option<Value>, darkColor: Option<Value>, lightColor: Option<Value>, size: Option<Value>)

  /** `QRCODE_SCHEMA`: the size is required, the dark colour defaults to
      black and the light colour to white. */
  function Schema(c: QrConf): (r: Result<QrConf, string>)
    ensures r.Ok? <==> c.size.Some?
    ensures r.Ok? ==> r.value == c.(darkColor := Some(c.darkColor.GetOr(Str("black"))),
                                    lightColor := Some(c.lightColor.GetOr(Str("white"))))
  {
    if c.size.None? then Err("required key not provided: size")
    else Ok(c.(darkColor := Some(c.darkColor.GetOr(Str("black"))), lightColor := Some(c.lightColor.GetOr(Str("white")))))
  }

  /** `QRCODE_MODIFY_SCHEMA`: every key is optional and none is defaulted. */
  function ModifySchema(c: QrConf): (r: Result<QrConf, string>)
    ensures r == Ok(c)
  {
    Ok(c)
  }

  /** `set_property`, which sets nothing for an absent value. */
  function PropertyOps(obj: string, prop: string, v: Option<Value>): seq<Op> {
    if v.Some? then [SetProperty(Var(obj), prop, V(v.value))] else []
  }

  /** The text: a literal string is passed with its length; any other text
      is first held in a local `std::string`, which passes its characters
      and its size. */
  function TextOps(obj: string, text: Option<Value>): seq<Op> {
    if text.None? || text.value == Null then []
    else if text.value.Str? then [Call("qrcode_update", [Var(obj), V(text.value), Num(|text.value.s|)])]
    else
      [ BeginLocal(TextVar, V(text.value)),
        Call("qrcode_update", [Var(obj), Member(Var(TextVar), "c_str"), Member(Var(TextVar), "size")]),
        EndLocal(TextVar) ]
  }

  function QrOps(obj: string, c: QrConf): seq<Op> {
    PropertyOps(obj, "light_color", c.lightColor) + PropertyOps(obj, "dark_color", c.darkColor)
    + PropertyOps(obj, "size", c.size) + TextOps(obj, c.text)
  }

  method SetPropertyIfGiven(code: Code, obj: string, prop: string, v: Option<Value>)
    modifies code
    ensures code.ops == old(code.ops) + PropertyOps(obj, prop, v)
    ensures code.defines == old(code.defines) && code.warnings == old(code.warnings)
  {
    if v.Some? {
      code.Add(SetProperty(Var(obj), prop, V(v.value)));
    }
  }

  /** `QrCodeType.to_code`. */
  method ToCode(code: Code, obj: string, c: QrConf)
    modifies code
    ensures code.ops == old(code.ops) + QrOps(obj, c)
    ensures code.defines == old(code.defines) && code.warnings == old(code.warnings)
  {
    SetPropertyIfGiven(code, obj, "light_color", c.lightColor);
    SetPropertyIfGiven(code, obj, "dark_color", c.darkColor);
    SetPropertyIfGiven(code, obj, "size", c.size);
    if c.text.Some? && c.text.value != Null {
      var value := c.text.value;
      if value.Str? {
        code.Call("qrcode_update", [Var(obj), V(value), Num(|value.s|)]);
        return;
      }
      code.Add(BeginLocal(TextVar, V(value)));
      code.Call("qrcode_update", [Var(obj), Member(Var(TextVar), "c_str"), Member(Var(TextVar), "size")]);
      code.Add(EndLocal(TextVar));
    }
  }

  /** On creation the light colour, the dark colour and the size are set,
      in that order, before the text; the colours default to white and
      black. */
  lemma CreationOrder(obj: string, c: QrConf)
    requires Schema(c).Ok?
    ensures var v := Schema(c).value; var ops := QrOps(obj, v);
      && |ops| >= 3
      && ops[0] == SetProperty(Var(obj), "light_color", V(c.lightColor.GetOr(Str("white"))))
      && ops[1] == SetProperty(Var(obj), "dark_color", V(c.darkColor.GetOr(Str("black"))))
      && ops[2] == SetProperty(Var(obj), "size", V(c.size.value))
      && ops[3..] == TextOps(obj, c.text)
  {
  }

  /** Exactly one `qrcode_update` when there is a text, none otherwise; a
      literal string passes its own length, anything else the size of the
      local string. */
  lemma OneUpdatePerText(obj: string, c: QrConf)
    ensures CountCalls(QrOps(obj, c), "qrcode_update") == (if c.text.None? || c.text.value == Null then 0 else 1)
    ensures c.text.Some? && c.text.value.Str? ==>
      TextOps(obj, c.text) == [Call("qrcode_update", [Var(obj), V(c.text.value), Num(|c.text.value.s|)])]
    ensures c.text.Some? && c.text.value != Null && !c.text.value.Str? ==>
      TextOps(obj, c.text)[1].args[2] == Member(Var(TextVar), "size")
  {
    var p := PropertyOps(obj, "light_color", c.lightColor) + PropertyOps(obj, "dark_color", c.darkColor)
             + PropertyOps(obj, "size", c.size);
    CountCallsAppend(p, TextOps(obj, c.text), "qrcode_update");
    CountCallsPositive(p, "qrcode_update");
    TextUpdates(obj, c.text);
  }

  /** The text's own statements hold its one `qrcode_update`. */
  lemma TextUpdates(obj: string, text: Option<Value>)
    ensures CountCalls(TextOps(obj, text), "qrcode_update") == (if text.None? || text.value == Null then 0 else 1)
  {
    var t := TextOps(obj, text);
    if t != [] && !text.value.Str? {
      assert t == [t[0]] + [t[1]] + [t[2]];
      CountCallsAppend([t[0]] + [t[1]], [t[2]], "qrcode_update");
      CountCallsAppend([t[0]], [t[1]], "qrcode_update");
      assert [t[0]][..0] == [] && [t[1]][..0] == [] && [t[2]][..0] == [];
    } else if t != [] {
      assert [t[0]][..0] == [];
    }
  }

  /** An update sets only what it names. */
  lemma UpdateSetsOnlyGiven(obj: string, text: Option<Value>)
    ensures QrOps(obj, ModifySchema(QrConf(text, None, None, None)).value) == TextOps(obj, text)
  {
  }
}
