/** widgets/img.py: an image with its source and its transform properties. */
module ImgWidget {
  import opened Wrappers
  import opened Emit

  /** The keys of `BASE_IMG_SCHEMA`, in schema order. */
  const BaseKeys: seq<string> := ["pivot_x", "pivot_y", "angle", "rotation", "zoom", "scale",
                                 "offset_x", "offset_y", "antialias", "mode"]
  const ModeMessage := "mode is not supported in LVGL 9.x"

  predicate IsBaseKey(key: string) {
    exists k :: 0 <= k < |BaseKeys| && BaseKeys[k] == key
  }

  /** `BASE_IMG_SCHEMA` extended with the source, required on creation
      (`IMG_SCHEMA`) and optional on update (`IMG_MODIFY_SCHEMA`): `angle`
      and `rotation` exclude each other, so do `zoom` and `scale`, and
      `mode` is always refused. */
  function Schema(config: Config, create: bool): (r: Result<Config, string>)
    ensures r.Ok? <==>
      && "mode" !in config
      && !("angle" in config && "rotation" in config)
      && !("zoom" in config && "scale" in config)
      && (create ==> "src" in config)
      && (forall key | key in config :: key == "src" || IsBaseKey(key))
    ensures r.Ok? ==> r.value == config
  {
    if "mode" in config then Err(ModeMessage)
    else if "angle" in config && "rotation" in config then Err("two or more values in the same group of exclusion 'rotation'")
    else if "zoom" in config && "scale" in config then Err("two or more values in the same group of exclusion 'scale'")
    else if create && "src" !in config then Err("required key not provided: src")
    else if exists key | key in config :: key != "src" && !IsBaseKey(key) then Err("extra keys not allowed")
    else Ok(config)
  }

  /** `set_property(prop, config)`: sets the property when the key is present. */
  function PropertyOps(obj: string, config: Config, prop: string): seq<Op> {
    if prop in config then [SetProperty(Var(obj), prop, V(config[prop]))] else []
  }

  function KeysOps(obj: string, config: Config, keys: seq<string>): seq<Op>
    decreases |keys|
  {
    if |keys| == 0 then [] else KeysOps(obj, config, keys[..|keys| - 1]) + PropertyOps(obj, config, keys[|keys| - 1])
  }

  /** The source first, then the schema's keys in schema order. */
  function ImgOps(obj: string, config: Config): seq<Op> {
    PropertyOps(obj, config, "src") + KeysOps(obj, config, BaseKeys)
  }

  /** `ImgType.to_code`. */
  method ToCode(code: Code, obj: string, config: Config)
    modifies code
    ensures code.ops == old(code.ops) + ImgOps(obj, config)
    ensures code.defines == old(code.defines) && code.warnings == old(code.warnings)
  {
    if "src" in config {
      code.Add(SetProperty(Var(obj), "src", V(config["src"])));
    }
    ghost var before := code.ops;
    var i := 0;
    while i < |BaseKeys|
      invariant 0 <= i <= |BaseKeys|
      invariant code.ops == before + KeysOps(obj, config, BaseKeys[..i])
      invariant code.defines == old(code.defines) && code.warnings == old(code.warnings)
    {
      assert BaseKeys[..i + 1][..i] == BaseKeys[..i];
      var prop := BaseKeys[i];
      if prop in config {
        code.Add(SetProperty(Var(obj), prop, V(config[prop])));
      }
      i := i + 1;
    }
    assert BaseKeys[..i] == BaseKeys;
  }

  /** A property is set exactly for each listed key that is present, with
      that key's value. */
  lemma {:induction false} ExactlyPresentKeys(obj: string, config: Config, keys: seq<string>)
    ensures forall op | op in KeysOps(obj, config, keys) ::
      exists k :: 0 <= k < |keys| && keys[k] in config && op == SetProperty(Var(obj), keys[k], V(config[keys[k]]))
    ensures forall k | 0 <= k < |keys| && keys[k] in config ::
      SetProperty(Var(obj), keys[k], V(config[keys[k]])) in KeysOps(obj, config, keys)
    decreases |keys|
  {
    if |keys| > 0 {
      var init := keys[..|keys| - 1];
      ExactlyPresentKeys(obj, config, init);
      forall op | op in KeysOps(obj, config, keys)
        ensures exists k :: 0 <= k < |keys| && keys[k] in config && op == SetProperty(Var(obj), keys[k], V(config[keys[k]]))
      {
        if op in KeysOps(obj, config, init) {
          var k :| 0 <= k < |init| && init[k] in config && op == SetProperty(Var(obj), init[k], V(config[init[k]]));
          assert keys[k] == init[k];
        } else {
          assert op in PropertyOps(obj, config, keys[|keys| - 1]);
        }
      }
      forall k | 0 <= k < |keys| && keys[k] in config
        ensures SetProperty(Var(obj), keys[k], V(config[keys[k]])) in KeysOps(obj, config, keys)
      {
        if k < |keys| - 1 {
          assert init[k] == keys[k];
        }
      }
    }
  }

  /** Keys are visited in list order. */
  lemma {:induction false} KeysInOrder(obj: string, config: Config, a: seq<string>, b: seq<string>)
    ensures KeysOps(obj, config, a + b) == KeysOps(obj, config, a) + KeysOps(obj, config, b)
    decreases |b|
  {
    if |b| == 0 {
      assert a + b == a;
    } else {
      assert (a + b)[..|a + b| - 1] == a + b[..|b| - 1];
      assert (a + b)[|a + b| - 1] == b[|b| - 1];
      KeysInOrder(obj, config, a, b[..|b| - 1]);
    }
  }

  predicate Sets(op: Op, prop: string) {
    op.SetProperty? && op.prop == prop
  }

  /** For an accepted configuration the source, when given, is set first;
      `mode` is never set, and neither both of `angle` and `rotation` nor
      both of `zoom` and `scale` are. */
  lemma AcceptedOutput(obj: string, config: Config, create: bool)
    requires Schema(config, create).Ok?
    ensures "src" in config ==> ImgOps(obj, config)[0] == SetProperty(Var(obj), "src", V(config["src"]))
    ensures create ==> "src" in config
    ensures forall op | op in KeysOps(obj, config, BaseKeys) :: !Sets(op, "mode")
    ensures !((exists op | op in KeysOps(obj, config, BaseKeys) :: Sets(op, "angle"))
              && (exists op | op in KeysOps(obj, config, BaseKeys) :: Sets(op, "rotation")))
    ensures !((exists op | op in KeysOps(obj, config, BaseKeys) :: Sets(op, "zoom"))
              && (exists op | op in KeysOps(obj, config, BaseKeys) :: Sets(op, "scale")))
  {
    ExactlyPresentKeys(obj, config, BaseKeys);
  }
}
