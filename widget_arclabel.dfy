/** widgets/arclabel.py: text laid out along an arc, rotated by an object
    transform around the arc's centre. Angles, radius and rotation are whole
    numbers here (degrees and pixels). */
module ArcLabelWidget {
  import opened Wrappers
  import opened Emit
  import Helpers

  const KeyText := "text"

  /** A configuration after `ARCLABEL_SCHEMA`, with its defaults in place. */
  datatype ArcLabelConf = ArcLabelConf(text: Value, radius: int, startAngle: int, endAngle: int, rotation: int)

  /** `ARCLABEL_SCHEMA`: `text` is required; radius 100, start angle 0, end
      angle 360 and rotation 0 are the defaults of the optional keys. */
  function Schema(text: Option<Value>, radius: Option<int>, startAngle: Option<int>, endAngle: Option<int>,
                  rotation: Option<int>): (r: Result<ArcLabelConf, string>)
    ensures r.Ok? <==> text.Some?
    ensures r.Ok? ==> r.value == ArcLabelConf(text.value, radius.GetOr(100), startAngle.GetOr(0),
                                               endAngle.GetOr(360), rotation.GetOr(0))
  {
    if text.None? then Err("required key not provided: text")
    else Ok(ArcLabelConf(text.value, radius.GetOr(100), startAngle.GetOr(0), endAngle.GetOr(360), rotation.GetOr(0)))
  }

  /** The angle size: the span from start to end, with 360 added when that
      span is not positive. */
  function AngleSize(startAngle: int, endAngle: int): int {
    var size := endAngle - startAngle;
    if size <= 0 then size + 360 else size
  }

  /** The angle size is positive exactly when the end lies less than a full
      turn before the start; for a span in (-360, 360] it lies in (0, 360],
      so a start of 360 and an end of 0 give 0, not a full circle. */
  lemma AngleSizePositive(startAngle: int, endAngle: int)
    ensures AngleSize(startAngle, endAngle) > 0 <==> endAngle - startAngle > -360
    ensures -360 < endAngle - startAngle <= 360 ==> 0 < AngleSize(startAngle, endAngle) <= 360
    ensures endAngle - startAngle > 0 ==> AngleSize(startAngle, endAngle) == endAngle - startAngle
    ensures AngleSize(360, 0) == 0
  {
  }

  /** Everything `to_code` emits, in order. */
  function ArcLabelOps(obj: string, c: ArcLabelConf): seq<Op> {
    var o := Var(obj);
    var size := c.radius * 2 + 50;
    [ Call("arclabel_set_text", [o, V(c.text)]),
      Call("arclabel_set_radius", [o, Num(c.radius)]),
      Call("arclabel_set_angle_size", [o, Num(AngleSize(c.startAngle, c.endAngle))]),
      Call("obj_set_style_transform_angle", [o, Num(c.rotation * 10), Num(0)]),
      Call("obj_set_style_transform_pivot_x", [o, Num(c.radius), Num(0)]),
      Call("obj_set_style_transform_pivot_y", [o, Num(c.radius), Num(0)]),
      Call("obj_set_size", [o, Num(size), Num(size)]) ]
  }

  /** `ArcLabelType.to_code`. */
  method ToCode(code: Code, uses: Helpers.Uses, obj: string, c: ArcLabelConf)
    modifies code, uses
    ensures code.ops == old(code.ops) + ArcLabelOps(obj, c)
    ensures code.defines == old(code.defines) && code.warnings == old(code.warnings)
    ensures uses.componentsRequired == old(uses.componentsRequired) + {"arclabel"}
    ensures uses.lvUses == old(uses.lvUses)
  {
    uses.AddComponent("arclabel");
    code.Call("arclabel_set_text", [Var(obj), V(c.text)]);
    var radius := c.radius;
    code.Call("arclabel_set_radius", [Var(obj), Num(radius)]);
    var angleSize := c.endAngle - c.startAngle;
    if angleSize <= 0 {
      angleSize := angleSize + 360;
    }
    code.Call("arclabel_set_angle_size", [Var(obj), Num(angleSize)]);
    code.Call("obj_set_style_transform_angle", [Var(obj), Num(c.rotation * 10), Num(0)]);
    code.Call("obj_set_style_transform_pivot_x", [Var(obj), Num(radius), Num(0)]);
    code.Call("obj_set_style_transform_pivot_y", [Var(obj), Num(radius), Num(0)]);
    var size := radius * 2 + 50;
    code.Call("obj_set_size", [Var(obj), Num(size), Num(size)]);
  }

  /** The object rotates about the arc's centre: both pivot coordinates are
      the radius, the square widget is `2 * radius + 50` wide, the transform
      angle is in tenths of a degree on the main part, and the text comes
      first. */
  lemma Geometry(obj: string, c: ArcLabelConf)
    ensures var ops := ArcLabelOps(obj, c);
      && |ops| == 7 && ops[0] == Call("arclabel_set_text", [Var(obj), V(c.text)])
      && ops[4].args[1] == ops[5].args[1] == Num(c.radius)
      && ops[6].args[1] == ops[6].args[2] == Num(2 * c.radius + 50)
      && ops[3].args[1] == Num(10 * c.rotation) && ops[3].args[2] == Num(0)
  {
  }

  /** With every optional key left out the label spans the full circle with
      radius 100, no rotation, in a 250 by 250 object. */
  lemma Defaults(obj: string, text: Value)
    ensures Schema(Some(text), None, None, None, None).Ok?
    ensures var ops := ArcLabelOps(obj, Schema(Some(text), None, None, None, None).value);
      && ops[1].args[1] == Num(100) && ops[2].args[1] == Num(360)
      && ops[3].args[1] == Num(0) && ops[6].args[1] == Num(250)
  {
  }

  /** What `to_code_update` emits. */
  function UpdateOps(obj: string, update: Config): seq<Op> {
    if KeyText in update then [Call("arclabel_set_text", [Var(obj), V(update[KeyText])])] else []
  }

  /** `ArcLabelType.to_code_update`. */
  method ToCodeUpdate(code: Code, obj: string, update: Config)
    modifies code
    ensures code.ops == old(code.ops) + UpdateOps(obj, update)
    ensures code.defines == old(code.defines) && code.warnings == old(code.warnings)
  {
    if KeyText in update {
      code.Call("arclabel_set_text", [Var(obj), V(update[KeyText])]);
    }
  }

  /** An update touches the text and nothing else, and only when it names
      one. */
  lemma UpdateOnlyText(obj: string, update: Config)
    ensures |UpdateOps(obj, update)| == (if KeyText in update then 1 else 0)
    ensures forall op | op in UpdateOps(obj, update) :: op.Call? && op.fn == "arclabel_set_text"
  {
  }
}
