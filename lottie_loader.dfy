/** lottie_loader.h: the per-widget Lottie context, its render task's frame
    arithmetic, and the allocation lifecycle driven by the screen events.

    Pointers are natural numbers with 0 for null. What the heap allocator
    and the render task creator return is passed in as a parameter; the tick
    clock is a sequence of elapsed-time readings. */
module LottieLoader {

  type Ptr = nat
  const Null: Ptr := 0

  /** ESP32's `size_t` and `uint32_t` are both 32 bits wide. */
  const Word: nat := 0x1_0000_0000
  type U32 = x: int | 0 <= x < 0x1_0000_0000

  const StackSize: nat := 64 * 1024
  const MinFrameDelay: nat := 16
  const MaxFrameDelay: nat := 100

  // ---------------------------------------------------------------------------
  // Render task arithmetic

  /** The first phase of the render task: what it hands to LVGL's Lottie
      widget before capturing the animation. */
  datatype Load =
    | SetSrcData(obj: Ptr, data: Ptr, size: U32)   // `lv_lottie_set_src_data`
    | SetSrcFile(obj: Ptr, path: Ptr)              // `lv_lottie_set_src_file`
    | NoLoad

  /** The source the render task loads: embedded data first, else a file path. */
  function LoadCall(obj: Ptr, data: Ptr, dataSize: U32, filePath: Ptr): Load {
    if data != Null then SetSrcData(obj, data, dataSize)
    else if filePath != Null then SetSrcFile(obj, filePath)
    else NoLoad
  }

  /** Embedded data wins over a file path and is passed with its size; a file
      path is loaded only without data; with neither nothing is loaded. The
      widget loaded is always the context's own. */
  lemma LoadPriority(obj: Ptr, data: Ptr, dataSize: U32, filePath: Ptr)
    ensures var l := LoadCall(obj, data, dataSize, filePath);
      && (l.SetSrcData? <==> data != Null)
      && (l.SetSrcFile? <==> data == Null && filePath != Null)
      && (l.NoLoad? <==> data == Null && filePath == Null)
      && (l.SetSrcData? ==> l.data == data && l.size == dataSize)
      && (l.SetSrcFile? ==> l.path == filePath)
      && (!l.NoLoad? ==> l.obj == obj)
  {
  }

  /** The render task renders only with a valid animation (a callback, a positive
      duration, more than one frame) and with auto-start on. */
  predicate ShouldRender(hasExecCb: bool, duration: U32, start: int, end: int, autoStart: bool) {
    hasExecCb && duration != 0 && start < end && autoStart
  }

  /** `frame_delay_ms`: the per-frame duration clamped into [16, 100] ms. */
  function FrameDelay(duration: nat, total: nat): (d: nat)
    requires total > 0
  {
    var raw := duration / total;
    if raw < MinFrameDelay then MinFrameDelay else if raw > MaxFrameDelay then MaxFrameDelay else raw
  }

  lemma FrameDelayClamped(duration: nat, total: nat)
    requires total > 0
    ensures MinFrameDelay <= FrameDelay(duration, total) <= MaxFrameDelay
    ensures MinFrameDelay <= duration / total <= MaxFrameDelay ==> FrameDelay(duration, total) == duration / total
    ensures duration / total < MinFrameDelay ==> FrameDelay(duration, total) == MinFrameDelay
    ensures duration / total > MaxFrameDelay ==> FrameDelay(duration, total) == MaxFrameDelay
  {
  }

  /** What one pass of the render loop does at `elapsed` ms. */
  datatype Step = Render(frame: int) | Complete(frame: int)

  /** The frame at `elapsed` ms into a run of `total` frames over `duration`
      ms (64-bit product, truncating division of non-negative values). */
  function Scaled(total: nat, elapsed: nat, duration: nat): nat
    requires duration > 0
  {
    total * elapsed / duration
  }

  function StepAt(loop: bool, start: int, end: int, duration: nat, elapsed: nat): Step
    requires duration > 0 && start < end
  {
    var total := end - start;
    if loop then Render(start + Scaled(total, elapsed % duration, duration))
    else if elapsed >= duration then Complete(end)
    else Render(start + Scaled(total, elapsed, duration))
  }

  /** Less than the whole duration scales to less than the whole run. */
  lemma ScaledBelow(total: nat, elapsed: nat, duration: nat)
    requires duration > 0 && elapsed < duration && total > 0
    ensures 0 <= Scaled(total, elapsed, duration) < total
  {
    assert total * elapsed < total * duration;
  }

  /** Later readings never give earlier frames within one run. */
  lemma ScaledMonotone(total: nat, e1: nat, e2: nat, duration: nat)
    requires duration > 0 && e1 <= e2
    ensures Scaled(total, e1, duration) <= Scaled(total, e2, duration)
  {
    assert total * e1 <= total * e2;
    DivMonotone(total * e1, total * e2, duration);
  }

  lemma DivMonotone(a: nat, b: nat, d: nat)
    requires d > 0 && a <= b
    ensures a / d <= b / d
  {
    var qa, qb := a / d, b / d;
    MulMonotone(qb + 1, qa, d);
    assert qa * d <= a;
    assert b < (qb + 1) * d;
  }

  /** Multiplying by a non-negative factor keeps the order. */
  lemma MulMonotone(x: int, y: int, d: nat)
    ensures x <= y ==> x * d <= y * d
  {
    assert y * d - x * d == (y - x) * d;
  }

  /** In looping mode every frame lies in [start, end); without looping,
      a reading before the end gives a frame in [start, end) and a reading
      at or after it renders `end` and completes. */
  lemma StepInRange(loop: bool, start: int, end: int, duration: nat, elapsed: nat)
    requires duration > 0 && start < end
    ensures loop ==> StepAt(loop, start, end, duration, elapsed).Render?
    ensures !loop ==> (StepAt(loop, start, end, duration, elapsed).Complete? <==> elapsed >= duration)
    ensures StepAt(loop, start, end, duration, elapsed).Render? ==> start <= StepAt(loop, start, end, duration, elapsed).frame < end
    ensures StepAt(loop, start, end, duration, elapsed).Complete? ==> StepAt(loop, start, end, duration, elapsed).frame == end
  {
    if loop {
      ScaledBelow(end - start, elapsed % duration, duration);
    } else if elapsed < duration {
      ScaledBelow(end - start, elapsed, duration);
    }
  }

  /** The frames the loop renders for the readings `samples`, stopping at
      the first completion. */
  function Frames(loop: bool, start: int, end: int, duration: nat, samples: seq<nat>): seq<int>
    requires duration > 0 && start < end
    decreases |samples|
  {
    if |samples| == 0 then []
    else
      match StepAt(loop, start, end, duration, samples[0])
      case Render(f) => [f] + Frames(loop, start, end, duration, samples[1..])
      case Complete(f) => [f]
  }

  /** Every rendered frame lies in [start, end]; a looping run renders one
      frame per reading, all below `end`; a single run ends on `end`
      exactly when a reading reached the duration. */
  lemma {:induction false} FramesInRange(loop: bool, start: int, end: int, duration: nat, samples: seq<nat>)
    requires duration > 0 && start < end
    ensures forall k :: 0 <= k < |Frames(loop, start, end, duration, samples)| ==>
      start <= Frames(loop, start, end, duration, samples)[k] <= end
    ensures loop ==> (|Frames(loop, start, end, duration, samples)| == |samples|
      && forall k :: 0 <= k < |samples| ==> Frames(loop, start, end, duration, samples)[k] < end)
    ensures !loop ==> ((exists k :: 0 <= k < |samples| && samples[k] >= duration) <==>
      (|Frames(loop, start, end, duration, samples)| > 0 && Frames(loop, start, end, duration, samples)[|Frames(loop, start, end, duration, samples)| - 1] == end))
    decreases |samples|
  {
    if |samples| > 0 {
      var fs := Frames(loop, start, end, duration, samples);
      var rest := Frames(loop, start, end, duration, samples[1..]);
      StepInRange(loop, start, end, duration, samples[0]);
      FramesInRange(loop, start, end, duration, samples[1..]);
      match StepAt(loop, start, end, duration, samples[0])
      case Render(f) =>
        assert fs == [f] + rest;
        if !loop {
          if exists k :: 0 <= k < |samples| && samples[k] >= duration {
            var k :| 0 <= k < |samples| && samples[k] >= duration;
            assert k > 0 && samples[1..][k - 1] == samples[k];
          }
          if |rest| > 0 && rest[|rest| - 1] == end {
            var k :| 0 <= k < |samples[1..]| && samples[1..][k] >= duration;
            assert samples[k + 1] >= duration;
          }
        }
      case Complete(f) =>
    }
  }

  /** The render task for the context `ctx`: the source it loads, then the
      frames of the render loop for successive clock readings `samples`,
      taken until a stop is requested, with the render task's guard before
      it. The animation's callback and frame range are what LVGL reports
      after the load. */
  method RenderTask(ctx: LottieContext, hasExecCb: bool, start: int, end: int, duration: U32, samples: seq<nat>)
    returns (load: Load, frames: seq<int>)
    ensures load == LoadCall(ctx.obj, ctx.data, ctx.dataSize, ctx.filePath)
    ensures ShouldRender(hasExecCb, duration, start, end, ctx.autoStart) ==> frames == Frames(ctx.loop, start, end, duration, samples)
    ensures !ShouldRender(hasExecCb, duration, start, end, ctx.autoStart) ==> frames == []
  {
    if ctx.data != Null {
      load := SetSrcData(ctx.obj, ctx.data, ctx.dataSize);
    } else if ctx.filePath != Null {
      load := SetSrcFile(ctx.obj, ctx.filePath);
    } else {
      load := NoLoad;
    }
    var loop, autoStart := ctx.loop, ctx.autoStart;
    frames := [];
    if !hasExecCb || duration == 0 || end <= start {
      return;
    }
    if !autoStart {
      return;
    }
    frames := RenderLoop(loop, start, end, duration, samples);
  }

  /** The render loop proper, entered with a valid animation: one frame per
      clock reading, stopping after the end frame of a run that does not loop. */
  method RenderLoop(loop: bool, start: int, end: int, duration: nat, samples: seq<nat>) returns (frames: seq<int>)
    requires duration > 0 && start < end
    ensures frames == Frames(loop, start, end, duration, samples)
  {
    frames := [];
    var i := 0;
    while i < |samples|
      invariant 0 <= i <= |samples|
      invariant frames + Frames(loop, start, end, duration, samples[i..]) == Frames(loop, start, end, duration, samples)
    {
      var elapsed := samples[i];
      FramesStep(loop, start, end, duration, samples, i);
      var frame: int;
      var total := end - start;
      if loop {
        var phase := elapsed % duration;
        frame := start + Scaled(total, phase, duration);
      } else {
        if elapsed >= duration {
          frames := frames + [end];
          return;
        }
        frame := start + Scaled(total, elapsed, duration);
      }
      frames := frames + [frame];
      i := i + 1;
    }
  }

  /** The frames from reading `i` on: that reading's step, then the rest. */
  lemma FramesStep(loop: bool, start: int, end: int, duration: nat, samples: seq<nat>, i: nat)
    requires duration > 0 && start < end && i < |samples|
    ensures Frames(loop, start, end, duration, samples[i..]) ==
      match StepAt(loop, start, end, duration, samples[i])
      case Render(f) => [f] + Frames(loop, start, end, duration, samples[i + 1..])
      case Complete(f) => [f]
  {
    assert samples[i..][0] == samples[i] && samples[i..][1..] == samples[i + 1..];
  }

  // ---------------------------------------------------------------------------
  // Context lifecycle

  /** The size in bytes of a `width` × `height` buffer of 4-byte pixels, as
      a 32-bit `size_t` computes it. */
  function BufferBytes(width: U32, height: U32): nat {
    (width * height * 4) % Word
  }

  /** The product is exact exactly when it fits in 32 bits; a 32768 × 32768
      buffer wraps to 0 bytes. */
  lemma BufferBytesWraps(width: U32, height: U32)
    ensures BufferBytes(width, height) == width * height * 4 <==> width * height * 4 < Word
    ensures BufferBytes(32768, 32768) == 0
  {
  }

  /** `LottieContext`: configuration set once, and the runtime resources. */
  class LottieContext {
    const obj: Ptr
    const data: Ptr
    const dataSize: U32
    const filePath: Ptr
    const loop: bool
    const autoStart: bool
    const width: U32
    const height: U32

    var pixelBuffer: Ptr
    var taskStack: Ptr
    var taskTcb: Ptr
    var taskHandle: Ptr
    var stopRequested: bool
    /** The contents of the pixel buffer. */
    var pixels: seq<int>
    /** The widget's `LV_OBJ_FLAG_HIDDEN`. */
    var hidden: bool
    /** The buffer last handed to `lv_lottie_set_buffer`. */
    var drawBuffer: Ptr

    /** No resource is held. */
    predicate Released()
      reads this
    {
      pixelBuffer == Null && taskStack == Null && taskTcb == Null && taskHandle == Null
    }

    /** Every resource is held. */
    predicate Held()
      reads this
    {
      pixelBuffer != Null && taskStack != Null && taskTcb != Null && taskHandle != Null
    }

    /** The lifecycle's invariant: without a pixel buffer no other resource
        is held, so relaunching for a missing buffer loses nothing. */
    predicate Consistent()
      reads this
    {
      pixelBuffer == Null ==> Released()
    }

    /** The zero-filled allocation followed by the copy of the eight
        configuration fields in `lottie_init`. */
    constructor (obj: Ptr, data: Ptr, dataSize: U32, filePath: Ptr, width: U32, height: U32, loop: bool, autoStart: bool)
      ensures this.obj == obj && this.data == data && this.dataSize == dataSize && this.filePath == filePath
      ensures this.width == width && this.height == height && this.loop == loop && this.autoStart == autoStart
      ensures Released() && !stopRequested && pixels == [] && !hidden && drawBuffer == Null
      ensures Consistent()
    {
      this.obj := obj;
      this.data := data;
      this.dataSize := dataSize;
      this.filePath := filePath;
      this.width := width;
      this.height := height;
      this.loop := loop;
      this.autoStart := autoStart;
      pixelBuffer := Null;
      taskStack := Null;
      taskTcb := Null;
      taskHandle := Null;
      stopRequested := false;
      pixels := [];
      hidden := false;
      drawBuffer := Null;
    }

    /** `lottie_free_resources`: the render task is deleted and every block freed. */
    method FreeResources()
      modifies this
      ensures Released() && !stopRequested
      ensures pixels == old(pixels) && hidden == old(hidden) && drawBuffer == old(drawBuffer)
    {
      stopRequested := true;
      if taskHandle != Null {
        taskHandle := Null;
      }
      if taskStack != Null { taskStack := Null; }
      if taskTcb != Null { taskTcb := Null; }
      if pixelBuffer != Null { pixelBuffer := Null; }
      stopRequested := false;
    }

    /** `lottie_launch`, with the allocator's and task creator's results
        `buf`, `stack`, `tcb` and `task` (0 for a failure). */
    method Launch(buf: Ptr, stack: Ptr, tcb: Ptr, task: Ptr) returns (ok: bool)
      modifies this
      ensures ok <==> buf != Null && stack != Null && tcb != Null && task != Null
      ensures ok ==> Held() && pixelBuffer == buf && taskStack == stack && taskTcb == tcb && taskHandle == task
      ensures ok ==> pixels == seq(BufferBytes(width, height), _ => 0) && drawBuffer == buf && hidden && !stopRequested
      ensures buf == Null ==> pixelBuffer == Null && taskStack == old(taskStack) && taskTcb == old(taskTcb)
                              && taskHandle == old(taskHandle) && stopRequested == old(stopRequested)
                              && pixels == old(pixels) && hidden == old(hidden) && drawBuffer == old(drawBuffer)
      ensures buf != Null && !ok ==> Released() && !stopRequested && hidden && drawBuffer == buf
      ensures old(pixelBuffer) == Null && old(Consistent()) ==> Consistent()
    {
      var bytes := BufferBytes(width, height);
      pixelBuffer := buf;
      if pixelBuffer == Null {
        return false;
      }
      pixels := seq(bytes, _ => 0);
      drawBuffer := pixelBuffer;
      hidden := true;
      taskStack := stack;
      taskTcb := tcb;
      if taskStack == Null || taskTcb == Null {
        FreeResources();
        return false;
      }
      stopRequested := false;
      taskHandle := task;
      if taskHandle == Null {
        FreeResources();
        return false;
      }
      return true;
    }

    /** `lottie_screen_unload_start_cb`: stop and delete the render task, hide the
        widget; the memory stays until the screen is gone. */
    method ScreenUnloadStart()
      modifies this
      ensures stopRequested && taskHandle == Null && hidden
      ensures pixelBuffer == old(pixelBuffer) && taskStack == old(taskStack) && taskTcb == old(taskTcb)
      ensures pixels == old(pixels) && drawBuffer == old(drawBuffer)
      ensures old(Consistent()) ==> Consistent()
    {
      stopRequested := true;
      if taskHandle != Null {
        taskHandle := Null;
      }
      hidden := true;
    }

    /** `lottie_screen_unloaded_cb`: free the stack, the TCB and the buffer;
        the render task handle is left as it is. */
    method ScreenUnloaded()
      modifies this
      ensures pixelBuffer == Null && taskStack == Null && taskTcb == Null && !stopRequested
      ensures taskHandle == old(taskHandle) && hidden == old(hidden) && pixels == old(pixels) && drawBuffer == old(drawBuffer)
      ensures Consistent() <==> old(taskHandle) == Null
    {
      if taskStack != Null { taskStack := Null; }
      if taskTcb != Null { taskTcb := Null; }
      if pixelBuffer != Null { pixelBuffer := Null; }
      stopRequested := false;
    }

    /** `lottie_screen_loaded_cb`: relaunch only when the buffer is gone. */
    method ScreenLoaded(buf: Ptr, stack: Ptr, tcb: Ptr, task: Ptr)
      modifies this
      ensures old(pixelBuffer) != Null ==> (pixelBuffer == old(pixelBuffer) && taskStack == old(taskStack)
        && taskTcb == old(taskTcb) && taskHandle == old(taskHandle) && pixels == old(pixels))
      ensures old(pixelBuffer) == Null && buf != Null && stack != Null && tcb != Null && task != Null ==>
        Held() && pixelBuffer == buf && pixels == seq(BufferBytes(width, height), _ => 0)
      ensures old(pixelBuffer) == Null && old(Released()) && (buf == Null || stack == Null || tcb == Null || task == Null) ==>
        Released()
      ensures old(Consistent()) ==> Consistent()
    {
      if pixelBuffer == Null {
        var _ := Launch(buf, stack, tcb, task);
      }
    }
  }

  /** The screen events `lottie_init` registers, each with its callback. */
  const ScreenEvents: seq<(string, string)> := [
    ("LV_EVENT_SCREEN_UNLOAD_START", "lottie_screen_unload_start_cb"),
    ("LV_EVENT_SCREEN_UNLOADED", "lottie_screen_unloaded_cb"),
    ("LV_EVENT_SCREEN_LOADED", "lottie_screen_loaded_cb")]

  /** `lottie_init`: `ctxAlloc` is the allocator's result for the context. */
  method Init(ctxAlloc: Ptr, obj: Ptr, data: Ptr, dataSize: U32, filePath: Ptr, width: U32, height: U32,
              loop: bool, autoStart: bool, buf: Ptr, stack: Ptr, tcb: Ptr, task: Ptr)
    returns (ok: bool, ctx: LottieContext?, events: seq<(string, string)>)
    ensures ctxAlloc == Null ==> !ok && ctx == null && events == []
    ensures ctxAlloc != Null ==> ctx != null && fresh(ctx) && events == ScreenEvents
    ensures ctx != null ==> (ctx.obj == obj && ctx.data == data && ctx.dataSize == dataSize && ctx.filePath == filePath
      && ctx.width == width && ctx.height == height && ctx.loop == loop && ctx.autoStart == autoStart
      && ctx.Consistent())
    ensures ok <==> ctxAlloc != Null && buf != Null && stack != Null && tcb != Null && task != Null
    ensures ok ==> ctx.Held()
  {
    if ctxAlloc == Null {
      return false, null, [];
    }
    ctx := new LottieContext(obj, data, dataSize, filePath, width, height, loop, autoStart);
    events := ScreenEvents;
    ok := ctx.Launch(buf, stack, tcb, task);
  }

  /** A full screen cycle (unload start, unloaded, loaded) from a running
      widget frees everything and, with fresh allocations, runs again. */
  method ScreenCycle(ctx: LottieContext, buf: Ptr, stack: Ptr, tcb: Ptr, task: Ptr)
    requires ctx.Held()
    modifies ctx
    ensures buf != Null && stack != Null && tcb != Null && task != Null ==>
      ctx.Held() && ctx.pixelBuffer == buf && ctx.pixels == seq(BufferBytes(ctx.width, ctx.height), _ => 0)
    ensures buf == Null || stack == Null || tcb == Null || task == Null ==> ctx.Released()
  {
    ctx.ScreenUnloadStart();
    ctx.ScreenUnloaded();
    assert ctx.Released();
    ctx.ScreenLoaded(buf, stack, tcb, task);
  }
}
