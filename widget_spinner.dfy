/** widgets/spinner.py: the spinner's arc length and spin time become one
    `spinner_set_anim_params` call. */
module SpinnerWidget {
  import opened Wrappers
  import opened Emit

  const KeyArcLength := "arc_length"
  const KeySpinTime := "spin_time"

  /** `SPINNER_SCHEMA`: `arc_length` defaults to 200 and must be a whole
      number of degrees in [0, 360]; `spin_time` defaults to `2s`. */
  function Schema(config: Config): (r: Result<Config, string>)
    ensures r.Ok? <==> KeyArcLength !in config || (config[KeyArcLength].Int? && 0 <= config[KeyArcLength].i <= 360)
    ensures r.Ok? ==> KeyArcLength in r.value && KeySpinTime in r.value
    ensures r.Ok? ==> r.value[KeyArcLength] == (if KeyArcLength in config then config[KeyArcLength] else Int(200))
    ensures r.Ok? ==> r.value[KeySpinTime] == (if KeySpinTime in config then config[KeySpinTime] else Str("2s"))
  {
    var c := if KeyArcLength in config then config else config[KeyArcLength := Int(200)];
    var c' := if KeySpinTime in c then c else c[KeySpinTime := Str("2s")];
    if c'[KeyArcLength].Int? && 0 <= c'[KeyArcLength].i <= 360 then Ok(c')
    else Err("Value must be in range [0, 360]")
  }

  /** The arc length `to_code` passes on. */
  function ArcLength(a: int): int {
    if a < 180 then a + 180 else a
  }

  /** An accepted arc length is moved into [180, 360]: below 180 it gains
      180, from 180 on it is kept. */
  lemma ArcLengthRange(a: int)
    requires 0 <= a <= 360
    ensures 180 <= ArcLength(a) <= 360
    ensures a >= 180 ==> ArcLength(a) == a
    ensures a < 180 ==> ArcLength(a) == a + 180
  {
  }

  predicate Validated(config: Config) {
    KeyArcLength in config && config[KeyArcLength].Int? && KeySpinTime in config
  }

  function SpinnerOps(obj: string, config: Config): seq<Op>
    requires Validated(config)
  {
    [Call("spinner_set_anim_params", [Var(obj), V(config[KeySpinTime]), Num(ArcLength(config[KeyArcLength].i))])]
  }

  /** `SpinnerType.to_code`. */
  method ToCode(code: Code, obj: string, config: Config)
    requires Validated(config)
    modifies code
    ensures code.ops == old(code.ops) + SpinnerOps(obj, config)
    ensures code.defines == old(code.defines) && code.warnings == old(code.warnings)
  {
    var spinTime := V(config[KeySpinTime]);
    var arcLength := config[KeyArcLength].i;
    if arcLength < 180 {
      arcLength := arcLength + 180;
    }
    code.Call("spinner_set_anim_params", [Var(obj), spinTime, Num(arcLength)]);
  }

  /** For every configuration the schema accepts, exactly one call is
      emitted, its arc length lies in [180, 360] and an absent spin time
      becomes `2s`. */
  lemma OneCallInRange(obj: string, config: Config)
    requires Schema(config).Ok?
    ensures var c := Schema(config).value;
      && Validated(c)
      && CountCalls(SpinnerOps(obj, c), "spinner_set_anim_params") == 1 && |SpinnerOps(obj, c)| == 1
      && 180 <= SpinnerOps(obj, c)[0].args[2].n <= 360
      && (KeySpinTime !in config ==> SpinnerOps(obj, c)[0].args[1] == V(Str("2s")))
  {
    var c := Schema(config).value;
    ArcLengthRange(c[KeyArcLength].i);
    assert SpinnerOps(obj, c)[..0] == [];
  }

  /** The defaults give an arc of 200 degrees, passed unchanged. */
  lemma DefaultArc(obj: string)
    ensures Schema(map[]).Ok? && SpinnerOps(obj, Schema(map[]).value)[0].args[2] == Num(200)
  {
  }
}
