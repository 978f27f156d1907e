/** gradient.py: gradient definitions become a descriptor, three parallel
    constant arrays (colours, opacities, positions) and one
    `grad_init_stops` call each; the largest stop count, but at least 2, is
    published as `LV_GRADIENT_MAX_STOPS`. */
module Gradient {
  import opened Wrappers
  import opened Strings
  import opened Emit

  /** One stop, with its values after their converters. */
  datatype Stop = Stop(color: Value, opa: Value, position: Value)

  /** One validated gradient; `dither` is `None` when the key is absent. */
  datatype GradientConf = GradientConf(id: string, direction: string, dither: Option<Value>, stops: seq<Stop>)

  const MaxStopsDefine := "LV_GRADIENT_MAX_STOPS"
  const DitherWarning := "The 'dither' option for gradients is not supported by LVGL 9.x and will be ignored"

  /** `min_stops`. */
  function MinStops(stops: seq<Stop>): (r: Result<seq<Stop>, string>)
    ensures r.Ok? <==> |stops| >= 2
    ensures r.Ok? ==> r.value == stops
  {
    if |stops| < 2 then Err("Must have at least 2 stops") else Ok(stops)
  }

  function Max(a: int, b: int): int { if a >= b then a else b }

  /** The value `max_stops` has after the gradients `gs`. */
  function MaxStopsOf(gs: seq<GradientConf>): nat
    decreases |gs|
  {
    if |gs| == 0 then 2 else Max(MaxStopsOf(gs[..|gs| - 1]), |gs[|gs| - 1].stops|)
  }

  /** The published maximum is at least 2 and at least every stop count, and
      it is 2 or the stop count of some gradient. */
  lemma {:induction false} MaxStopsIsMaximum(gs: seq<GradientConf>)
    ensures MaxStopsOf(gs) >= 2
    ensures forall k :: 0 <= k < |gs| ==> |gs[k].stops| <= MaxStopsOf(gs)
    ensures MaxStopsOf(gs) == 2 || exists k :: 0 <= k < |gs| && |gs[k].stops| == MaxStopsOf(gs)
    decreases |gs|
  {
    if |gs| > 0 {
      var init := gs[..|gs| - 1];
      MaxStopsIsMaximum(init);
      forall k | 0 <= k < |gs|
        ensures |gs[k].stops| <= MaxStopsOf(gs)
      {
        if k < |gs| - 1 {
          assert gs[k] == init[k];
        }
      }
      if MaxStopsOf(gs) != 2 && MaxStopsOf(gs) != |gs[|gs| - 1].stops| {
        var k :| 0 <= k < |init| && |init[k].stops| == MaxStopsOf(init);
        assert gs[k] == init[k];
      }
    }
  }

  /** Without gradients the maximum is exactly 2. */
  lemma NoGradientsMaxTwo()
    ensures MaxStopsOf([]) == 2
  {
  }

  /** `any(CONF_DITHER in x for x in gradients)` */
  predicate AnyDither(gs: seq<GradientConf>) {
    exists k :: 0 <= k < |gs| && gs[k].dither.Some?
  }

  function InitFn(direction: string): string {
    if StartsWith(direction, "VER") then "grad_vertical_init" else "grad_horizontal_init"
  }

  function Colors(stops: seq<Stop>): (r: seq<Arg>)
    ensures |r| == |stops| && forall k :: 0 <= k < |stops| ==> r[k] == V(stops[k].color)
  {
    seq(|stops|, k requires 0 <= k < |stops| => V(stops[k].color))
  }

  function Opacities(stops: seq<Stop>): (r: seq<Arg>)
    ensures |r| == |stops| && forall k :: 0 <= k < |stops| ==> r[k] == V(stops[k].opa)
  {
    seq(|stops|, k requires 0 <= k < |stops| => V(stops[k].opa))
  }

  function Positions(stops: seq<Stop>): (r: seq<Arg>)
    ensures |r| == |stops| && forall k :: 0 <= k < |stops| ==> r[k] == V(stops[k].position)
  {
    seq(|stops|, k requires 0 <= k < |stops| => V(stops[k].position))
  }

  /** What one gradient emits: the descriptor, its direction's
      initialiser, the three arrays and the stop initialisation. */
  function GradientOps(g: GradientConf): seq<Op> {
    var v := Var(g.id);
    [ Declare(g.id, Lit("new lv_grad_dsc_t")),
      Call(InitFn(g.direction), [v]),
      StaticArray(g.id + "_colors_", Colors(g.stops)),
      StaticArray(g.id + "_opacities_", Opacities(g.stops)),
      StaticArray(g.id + "_positions_", Positions(g.stops)),
      Call("grad_init_stops", [v, Var(g.id + "_colors_"), Var(g.id + "_opacities_"),
                               Var(g.id + "_positions_"), Num(|g.stops|)]) ]
  }

  function GradientsOps(gs: seq<GradientConf>): seq<Op>
    decreases |gs|
  {
    if |gs| == 0 then [] else GradientsOps(gs[..|gs| - 1]) + GradientOps(gs[|gs| - 1])
  }

  /** Every gradient contributes its six operations, in declaration order. */
  lemma {:induction false} GradientsOpsLayout(gs: seq<GradientConf>)
    ensures |GradientsOps(gs)| == 6 * |gs|
    ensures forall k :: 0 <= k < |gs| ==> GradientsOps(gs)[6 * k..6 * k + 6] == GradientOps(gs[k])
    decreases |gs|
  {
    if |gs| > 0 {
      var init := gs[..|gs| - 1];
      GradientsOpsLayout(init);
      var ops := GradientsOps(gs);
      forall k | 0 <= k < |gs|
        ensures ops[6 * k..6 * k + 6] == GradientOps(gs[k])
      {
        if k < |gs| - 1 {
          assert gs[k] == init[k];
          assert ops[6 * k..6 * k + 6] == GradientsOps(init)[6 * k..6 * k + 6];
        } else {
          assert ops[6 * k..6 * k + 6] == GradientOps(gs[k]);
        }
      }
    }
  }

  /** The three arrays of a gradient hold one entry per stop, in stop order,
      and the count passed to `grad_init_stops` is the number of stops. */
  lemma ParallelArrays(g: GradientConf, k: nat)
    requires k < |g.stops|
    ensures var ops := GradientOps(g);
      && ops[2].elems[k] == V(g.stops[k].color)
      && ops[3].elems[k] == V(g.stops[k].opa)
      && ops[4].elems[k] == V(g.stops[k].position)
      && |ops[2].elems| == |ops[3].elems| == |ops[4].elems| == |g.stops|
      && ops[5].args[4] == Num(|g.stops|)
  {
  }

  /** Directions accepted by the schema choose the matching initialiser. */
  lemma DirectionInit()
    ensures InitFn("VER") == InitFn("VERTICAL") == "grad_vertical_init"
    ensures InitFn("HOR") == InitFn("HORIZONTAL") == "grad_horizontal_init"
  {
    assert "VERTICAL"[..3] == "VER";
    assert "HOR"[..3][0] != "VER"[0];
    assert "HORIZONTAL"[..3][0] != "VER"[0];
  }

  /** The schema gives `dither` the default `NONE`, so once the schema has run
      every gradient has the key and the advisory is issued whenever there is
      a gradient at all. */
  lemma DitherWheneverGradients(gs: seq<GradientConf>)
    requires forall k :: 0 <= k < |gs| ==> gs[k].dither.Some?
    ensures AnyDither(gs) <==> |gs| > 0
  {
    if |gs| > 0 {
      assert gs[0].dither.Some?;
    }
  }

  /** `gradients_to_code`. */
  method GradientsToCode(code: Code, gs: seq<GradientConf>)
    modifies code
    ensures code.ops == old(code.ops) + GradientsOps(gs)
    ensures code.warnings == old(code.warnings) + (if AnyDither(gs) then [DitherWarning] else [])
    ensures code.defines == old(code.defines) + [(MaxStopsDefine, MaxStopsOf(gs))]
  {
    if exists k :: 0 <= k < |gs| && gs[k].dither.Some? {
      code.AddWarning(DitherWarning);
    }
    var maxStops := AddGradients(code, gs);
    code.AddDefine(MaxStopsDefine, maxStops);
  }

  /** The loop over the gradients, which also tracks the largest stop count. */
  method AddGradients(code: Code, gs: seq<GradientConf>) returns (maxStops: nat)
    modifies code
    ensures code.ops == old(code.ops) + GradientsOps(gs)
    ensures maxStops == MaxStopsOf(gs)
    ensures code.warnings == old(code.warnings) && code.defines == old(code.defines)
  {
    maxStops := 2;
    var i := 0;
    while i < |gs|
      invariant 0 <= i <= |gs|
      invariant maxStops == MaxStopsOf(gs[..i])
      invariant code.ops == old(code.ops) + GradientsOps(gs[..i])
      invariant code.warnings == old(code.warnings) && code.defines == old(code.defines)
    {
      var g := gs[i];
      assert gs[..i + 1][..i] == gs[..i] && gs[..i + 1][i] == g;
      maxStops := Max(maxStops, |g.stops|);
      AddGradient(code, g);
      i := i + 1;
    }
    assert gs[..i] == gs;
  }

  /** One gradient's statements. */
  method AddGradient(code: Code, g: GradientConf)
    modifies code
    ensures code.ops == old(code.ops) + GradientOps(g)
    ensures code.warnings == old(code.warnings) && code.defines == old(code.defines)
  {
    code.Add(Declare(g.id, Lit("new lv_grad_dsc_t")));
    code.Call(InitFn(g.direction), [Var(g.id)]);
    code.Add(StaticArray(g.id + "_colors_", Colors(g.stops)));
    code.Add(StaticArray(g.id + "_opacities_", Opacities(g.stops)));
    code.Add(StaticArray(g.id + "_positions_", Positions(g.stops)));
    code.Call("grad_init_stops", [Var(g.id), Var(g.id + "_colors_"), Var(g.id + "_opacities_"),
                                  Var(g.id + "_positions_"), Num(|g.stops|)]);
  }
}
