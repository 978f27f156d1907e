/** widgets/imgbtn.py: an image button with one optional image per state. */
module ImgbtnWidget {
  import opened Wrappers
  import opened Emit
  import Helpers

  /** `state_configs`: each source key with its state constant, in the order
      `to_code` visits them. */
  const StateConfigs: seq<(string, string)> := [
    ("src_released", "LV_IMGBTN_STATE_RELEASED"),
    ("src_pressed", "LV_IMGBTN_STATE_PRESSED"),
    ("src_disabled", "LV_IMGBTN_STATE_DISABLED"),
    ("src_checked_released", "LV_IMGBTN_STATE_CHECKED_RELEASED"),
    ("src_checked_pressed", "LV_IMGBTN_STATE_CHECKED_PRESSED"),
    ("src_checked_disabled", "LV_IMGBTN_STATE_CHECKED_DISABLED")]

  /** `IMGBTN_SCHEMA`: all six keys are optional and no other key is
      accepted. */
  function Schema(config: Config): (r: Result<Config, string>)
    ensures r.Ok? <==> forall key | key in config :: exists k :: 0 <= k < |StateConfigs| && StateConfigs[k].0 == key
    ensures r.Ok? ==> r.value == config
  {
    if forall key | key in config :: exists k :: 0 <= k < |StateConfigs| && StateConfigs[k].0 == key then Ok(config)
    else Err("extra keys not allowed")
  }

  /** The call that sets the image of one state; the left and right images
      are always `NULL`. */
  function SrcOp(obj: string, state: string, img: Value): Op {
    Call("imgbtn_set_src", [Var(obj), Lit(state), V(img), Lit("NULL"), Lit("NULL")])
  }

  function SrcOps(obj: string, config: Config, states: seq<(string, string)>): seq<Op>
    decreases |states|
  {
    if |states| == 0 then []
    else
      var (key, state) := states[|states| - 1];
      SrcOps(obj, config, states[..|states| - 1]) + (if key in config then [SrcOp(obj, state, config[key])] else [])
  }

  /** `ImageButtonType.to_code`. */
  method ToCode(code: Code, uses: Helpers.Uses, obj: string, config: Config)
    modifies code, uses
    ensures code.ops == old(code.ops) + SrcOps(obj, config, StateConfigs)
    ensures code.defines == old(code.defines) && code.warnings == old(code.warnings)
    ensures uses.componentsRequired == old(uses.componentsRequired) + {"imgbtn"}
    ensures uses.lvUses == old(uses.lvUses)
  {
    uses.AddComponent("imgbtn");
    ghost var before := code.ops;
    var i := 0;
    while i < |StateConfigs|
      modifies code
      invariant 0 <= i <= |StateConfigs|
      invariant code.ops == before + SrcOps(obj, config, StateConfigs[..i])
      invariant code.defines == old(code.defines) && code.warnings == old(code.warnings)
    {
      assert StateConfigs[..i + 1][..i] == StateConfigs[..i];
      var (confKey, stateConst) := StateConfigs[i];
      if confKey in config {
        var img := config[confKey];
        code.Call("imgbtn_set_src", [Var(obj), Lit(stateConst), V(img), Lit("NULL"), Lit("NULL")]);
      }
      i := i + 1;
    }
    assert StateConfigs[..i] == StateConfigs;
  }

  /** An operation is emitted for a state exactly when its key is present,
      with that key's image and the state's constant, and nothing else is
      emitted. */
  lemma {:induction false} ExactlyPresentKeys(obj: string, config: Config, states: seq<(string, string)>)
    ensures forall op | op in SrcOps(obj, config, states) ::
      exists k :: 0 <= k < |states| && states[k].0 in config && op == SrcOp(obj, states[k].1, config[states[k].0])
    ensures forall k | 0 <= k < |states| && states[k].0 in config ::
      SrcOp(obj, states[k].1, config[states[k].0]) in SrcOps(obj, config, states)
    decreases |states|
  {
    if |states| > 0 {
      var init := states[..|states| - 1];
      ExactlyPresentKeys(obj, config, init);
      forall op | op in SrcOps(obj, config, states)
        ensures exists k :: 0 <= k < |states| && states[k].0 in config && op == SrcOp(obj, states[k].1, config[states[k].0])
      {
        if op in SrcOps(obj, config, init) {
          var k :| 0 <= k < |init| && init[k].0 in config && op == SrcOp(obj, init[k].1, config[init[k].0]);
          assert states[k] == init[k];
        } else {
          assert op == SrcOp(obj, states[|states| - 1].1, config[states[|states| - 1].0]);
        }
      }
      forall k | 0 <= k < |states| && states[k].0 in config
        ensures SrcOp(obj, states[k].1, config[states[k].0]) in SrcOps(obj, config, states)
      {
        if k < |states| - 1 {
          assert states[k] == init[k];
        }
      }
    }
  }

  /** An empty configuration emits no source operation. */
  lemma {:induction false} EmptyEmitsNothing(obj: string, states: seq<(string, string)>)
    ensures SrcOps(obj, map[], states) == []
    decreases |states|
  {
    if |states| > 0 {
      EmptyEmitsNothing(obj, states[..|states| - 1]);
    }
  }

  /** The states are visited released, pressed, disabled, then the three
      checked states: with every key present the k-th operation sets the
      k-th state. */
  lemma FullConfigOrder(obj: string, config: Config)
    requires forall k :: 0 <= k < |StateConfigs| ==> StateConfigs[k].0 in config
    ensures |SrcOps(obj, config, StateConfigs)| == 6
    ensures forall k :: 0 <= k < 6 ==>
      SrcOps(obj, config, StateConfigs)[k] == SrcOp(obj, StateConfigs[k].1, config[StateConfigs[k].0])
  {
    AllPresentInOrder(obj, config, StateConfigs);
  }

  lemma {:induction false} AllPresentInOrder(obj: string, config: Config, states: seq<(string, string)>)
    requires forall k :: 0 <= k < |states| ==> states[k].0 in config
    ensures |SrcOps(obj, config, states)| == |states|
    ensures forall k :: 0 <= k < |states| ==> SrcOps(obj, config, states)[k] == SrcOp(obj, states[k].1, config[states[k].0])
    decreases |states|
  {
    if |states| > 0 {
      AllPresentInOrder(obj, config, states[..|states| - 1]);
    }
  }
}
