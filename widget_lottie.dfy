/** widgets/lottie.py: a Lottie animation loaded from a file path or from an
    embedded Lottie file, with its playback controlled through the
    widget's animation object. */
module LottieWidget {
  import opened Wrappers
  import opened Emit
  import Helpers

  const AnimVar := "lottie_anim"

  /** `lottie_src`: a string is a file path, anything else the id of an
      embedded Lottie file. */
  datatype Source = File(path: string) | Embedded(fileId: string)

  /** A Lottie widget as written in the configuration. */
  datatype LottieInput = LottieInput(src: Option<Value>, autoplay: Option<bool>, loop: Option<bool>,
                                     bufferWidth: Option<Value>, bufferHeight: Option<Value>)

  /** A Lottie widget after `LOTTIE_SCHEMA`; the buffer sizes are validated
      and not used. */
  datatype LottieConf = LottieConf(src: Option<Source>, autoplay: bool, loop: bool)

  /** `lottie_src`: strings are paths, ids name embedded files, and any
      other value is refused by the id validator. A bare identifier in the
      YAML is itself a string, so it is taken as a path: the `Embedded`
      case arises only for a value that is not a string when `lottie_src`
      sees it. */
  function SourceOf(v: Value): (r: Result<Source, string>)
    ensures r.Ok? <==> v.Str? || v.Id?
    ensures v.Str? ==> r == Ok(File(v.s))
    ensures v.Id? ==> r == Ok(Embedded(v.name))
  {
    match v
    case Str(s) => Ok(File(s))
    case Id(n) => Ok(Embedded(n))
    case _ => Err("Invalid ID")
  }

  /** `LOTTIE_SCHEMA`: the source is optional; autoplay and loop default
      to true. */
  function Schema(c: LottieInput): (r: Result<LottieConf, string>)
    ensures r.Ok? <==> (c.src.None? || c.src.value.Str? || c.src.value.Id?)
    ensures r.Ok? ==> r.value.autoplay == c.autoplay.GetOr(true) && r.value.loop == c.loop.GetOr(true)
    ensures r.Ok? ==> (r.value.src.None? <==> c.src.None?)
  {
    if c.src.None? then Ok(LottieConf(None, c.autoplay.GetOr(true), c.loop.GetOr(true)))
    else
      match SourceOf(c.src.value)
      case Ok(s) => Ok(LottieConf(Some(s), c.autoplay.GetOr(true), c.loop.GetOr(true)))
      case Err(e) => Err(e)
  }

  /** `LOTTIE_MODIFY_SCHEMA`: only a source, and only a text source, may be
      changed. */
  function ModifySchema(c: LottieInput): (r: Result<LottieConf, string>)
    ensures r.Ok? <==> (c.src.None? || c.src.value.Str?) && c.autoplay.None? && c.loop.None?
                       && c.bufferWidth.None? && c.bufferHeight.None?
    ensures r.Ok? ==> r.value == LottieConf(if c.src.Some? then Some(File(c.src.value.s)) else None, true, true)
  {
    if c.autoplay.Some? || c.loop.Some? || c.bufferWidth.Some? || c.bufferHeight.Some? then Err("extra keys not allowed")
    else if c.src.Some? && !c.src.value.Str? then Err("expected a string")
    else Ok(LottieConf(if c.src.Some? then Some(File(c.src.value.s)) else None, true, true))
  }

  /** Loading the source: a log line, then the file or the embedded data. */
  function SrcOps(obj: string, src: Option<Source>): seq<Op> {
    match src
    case None => []
    case Some(File(p)) =>
      [ Raw("ESP_LOGI(\"lvgl.lottie\", \"Loading Lottie: %s\", \"" + p + "\");"),
        Call("lottie_set_src_file", [Var(obj), V(Str(p))]) ]
    case Some(Embedded(f)) =>
      [ Raw("ESP_LOGI(\"lvgl.lottie\", \"Loading embedded Lottie: %u bytes\", " + f + "->get_size());"),
        Call("lottie_set_src_data", [Var(obj), Lit("(const char*)" + f + "->get_data()"), Lit(f + "->get_size()")]) ]
  }

  /** Playback control: only when autoplay or looping is switched off. The
      animation is fetched (the getter is also emitted as a statement of
      its own); without autoplay it is deleted, otherwise it plays once. */
  function AnimOps(obj: string, autoplay: bool, loop: bool): seq<Op> {
    if autoplay && loop then []
    else
      [ Call("lottie_get_anim", [Var(obj)]),
        BeginLocal(AnimVar, Expr("lottie_get_anim", [Var(obj)])),
        if !autoplay then Call("anim_del", [Var(AnimVar), Lit("NULL")]) else Call("anim_set_repeat_count", [Var(AnimVar), Num(1)]),
        EndLocal(AnimVar) ]
  }

  function LottieOps(obj: string, c: LottieConf): seq<Op> {
    SrcOps(obj, c.src) + AnimOps(obj, c.autoplay, c.loop)
  }

  /** `LottieType.to_code`. */
  method ToCode(code: Code, uses: Helpers.Uses, obj: string, c: LottieConf)
    modifies code, uses
    ensures code.ops == old(code.ops) + LottieOps(obj, c)
    ensures code.defines == old(code.defines) && code.warnings == old(code.warnings)
    ensures uses.componentsRequired == old(uses.componentsRequired) + {"lottie"}
    ensures uses.lvUses == old(uses.lvUses)
  {
    uses.AddComponent("lottie");
    LoadSource(code, obj, c.src);
    ghost var mid := code.ops;
    ControlPlayback(code, obj, c.autoplay, c.loop);
    assert code.ops == mid + AnimOps(obj, c.autoplay, c.loop);
  }

  method LoadSource(code: Code, obj: string, src: Option<Source>)
    modifies code
    ensures code.ops == old(code.ops) + SrcOps(obj, src)
    ensures code.defines == old(code.defines) && code.warnings == old(code.warnings)
  {
    if src.Some? && src.value.File? {
      var p := src.value.path;
      code.Add(Raw("ESP_LOGI(\"lvgl.lottie\", \"Loading Lottie: %s\", \"" + p + "\");"));
      code.Call("lottie_set_src_file", [Var(obj), V(Str(p))]);
    } else if src.Some? {
      var f := src.value.fileId;
      code.Add(Raw("ESP_LOGI(\"lvgl.lottie\", \"Loading embedded Lottie: %u bytes\", " + f + "->get_size());"));
      code.Call("lottie_set_src_data", [Var(obj), Lit("(const char*)" + f + "->get_data()"), Lit(f + "->get_size()")]);
    }
  }

  method ControlPlayback(code: Code, obj: string, autoplay: bool, loop: bool)
    modifies code
    ensures code.ops == old(code.ops) + AnimOps(obj, autoplay, loop)
    ensures code.defines == old(code.defines) && code.warnings == old(code.warnings)
  {
    if !autoplay || !loop {
      code.Call("lottie_get_anim", [Var(obj)]);
      code.Add(BeginLocal(AnimVar, Expr("lottie_get_anim", [Var(obj)])));
      if !autoplay {
        code.Call("anim_del", [Var(AnimVar), Lit("NULL")]);
      } else if !loop {
        code.Call("anim_set_repeat_count", [Var(AnimVar), Num(1)]);
      }
      code.Add(EndLocal(AnimVar));
    }
  }

  /** A path is loaded as a file and an embedded file as data, each exactly
      once; without a source nothing is loaded. */
  lemma SourceDispatch(obj: string, c: LottieConf)
    ensures var ops := LottieOps(obj, c);
      && CountCalls(ops, "lottie_set_src_file") == (if c.src.Some? && c.src.value.File? then 1 else 0)
      && CountCalls(ops, "lottie_set_src_data") == (if c.src.Some? && c.src.value.Embedded? then 1 else 0)
  {
    var s := SrcOps(obj, c.src);
    var a := AnimOps(obj, c.autoplay, c.loop);
    CountCallsAppend(s, a, "lottie_set_src_file");
    CountCallsAppend(s, a, "lottie_set_src_data");
    NoLoadInAnim(obj, c.autoplay, c.loop);
    if s != [] {
      assert s == [s[0]] + [s[1]];
      CountCallsAppend([s[0]], [s[1]], "lottie_set_src_file");
      CountCallsAppend([s[0]], [s[1]], "lottie_set_src_data");
      assert [s[0]][..0] == [] && [s[1]][..0] == [];
    }
  }

  lemma NoLoadInAnim(obj: string, autoplay: bool, loop: bool)
    ensures CountCalls(AnimOps(obj, autoplay, loop), "lottie_set_src_file") == 0
    ensures CountCalls(AnimOps(obj, autoplay, loop), "lottie_set_src_data") == 0
  {
    CountCallsPositive(AnimOps(obj, autoplay, loop), "lottie_set_src_file");
    CountCallsPositive(AnimOps(obj, autoplay, loop), "lottie_set_src_data");
  }

  /** Playback: without autoplay the animation is deleted and no repeat
      count is set, whatever `loop` says; with autoplay but without looping
      it plays once; with both (the default) nothing is emitted. */
  lemma Playback(obj: string, autoplay: bool, loop: bool)
    ensures var a := AnimOps(obj, autoplay, loop);
      && (autoplay && loop <==> a == [])
      && (!autoplay ==> Call("anim_del", [Var(AnimVar), Lit("NULL")]) in a
                        && forall k :: 0 <= k < |a| ==> !(a[k].Call? && a[k].fn == "anim_set_repeat_count"))
      && (autoplay && !loop ==> Call("anim_set_repeat_count", [Var(AnimVar), Num(1)]) in a
                                && forall k :: 0 <= k < |a| ==> !(a[k].Call? && a[k].fn == "anim_del"))
  {
    var a := AnimOps(obj, autoplay, loop);
    if !(autoplay && loop) {
      assert a[2] in a;
    }
  }

  /** The defaults play the animation in a loop and emit no playback
      control; an update, which may only change the source, never touches
      playback. */
  lemma DefaultsAndUpdate(obj: string, src: Option<Value>)
    ensures var r := Schema(LottieInput(None, None, None, None, None));
      r.Ok? && AnimOps(obj, r.value.autoplay, r.value.loop) == []
    ensures var r := ModifySchema(LottieInput(src, None, None, None, None));
      r.Ok? ==> LottieOps(obj, r.value) == SrcOps(obj, r.value.src)
  {
  }
}
