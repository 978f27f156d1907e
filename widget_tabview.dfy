/** widgets/tabview.py: a tab view, its tabs, the styles of its tab bar and
    content area, and the `lvgl.tabview.select` action. */
module TabviewWidget {
  import opened Wrappers
  import opened Emit
  import Helpers

  const BarVar := "tabview_bar"
  const ContentVar := "tabview_content"

  /** A tab: its (generated) id and its name. Its other keys are container
      properties and children, kept under the tab's id. */
  datatype Tab = Tab(id: string, name: string)

  /** A tab view as written in the configuration. */
  datatype TabviewInput = TabviewInput(tabs: Option<seq<Tab>>, tabStyle: Option<Config>, contentStyle: Option<Config>,
                                       position: Option<Value>, size: Option<Value>)

  /** A tab view after `TABVIEW_SCHEMA`; an absent `tab_style` is the empty map. */
  datatype TabviewConf = TabviewConf(tabs: seq<Tab>, tabStyle: Config, contentStyle: Option<Config>,
                                     position: Value, size: Value)

  /** `TABVIEW_SCHEMA`: the tabs are required, the position defaults to
      `top` and the size to `10%`. */
  function Schema(c: TabviewInput): (r: Result<TabviewConf, string>)
    ensures r.Ok? <==> c.tabs.Some?
    ensures r.Ok? ==> r.value == TabviewConf(c.tabs.value, c.tabStyle.GetOr(map[]), c.contentStyle,
                                             c.position.GetOr(Str("top")), c.size.GetOr(Str("10%")))
  {
    if c.tabs.None? then Err("required key not provided: tabs")
    else Ok(TabviewConf(c.tabs.value, c.tabStyle.GetOr(map[]), c.contentStyle,
                        c.position.GetOr(Str("top")), c.size.GetOr(Str("10%"))))
  }

  /** One tab: its variable starts as `nullptr`, is assigned the new tab,
      then receives the tab's properties and children. */
  function TabOps(obj: string, t: Tab): seq<Op> {
    [ Declare(t.id, Lit("nullptr")),
      Assign(t.id, Expr("tabview_add_tab", [Var(obj), V(Str(t.name))])),
      SetObjProperties(Var(t.id), t.id),
      AddWidgets(Var(t.id), t.id) ]
  }

  function TabsOps(obj: string, tabs: seq<Tab>): (r: seq<Op>)
    ensures |r| == 4 * |tabs|
    decreases |tabs|
  {
    if |tabs| == 0 then [] else TabsOps(obj, tabs[..|tabs| - 1]) + TabOps(obj, tabs[|tabs| - 1])
  }

  /** The tab-bar button of tab `index`. */
  function BarChild(index: nat): Arg {
    Expr("obj_get_child", [Var(BarVar), Num(index)])
  }

  /** The `items` style applied to the first `n` tab-bar buttons. */
  function ItemsOps(n: nat): (r: seq<Op>)
    ensures |r| == n
    ensures forall k :: 0 <= k < n ==> r[k] == SetObjProperties(BarChild(k), "items")
  {
    if n == 0 then [] else ItemsOps(n - 1) + [SetObjProperties(BarChild(n - 1), "items")]
  }

  /** The tab bar's style, and the `items` style on each tab's button,
      when `tab_style` is non-empty. */
  function BarOps(obj: string, c: TabviewConf): seq<Op> {
    if c.tabStyle == map[] then []
    else
      [BeginLocal(BarVar, Expr("tabview_get_tab_bar", [Var(obj)])), SetObjProperties(Var(BarVar), "tab_style")]
      + (if Given(c.tabStyle, "items") then ItemsOps(|c.tabs|) else [])
      + [EndLocal(BarVar)]
  }

  function ContentOps(obj: string, c: TabviewConf): seq<Op> {
    if c.contentStyle.Some? && c.contentStyle.value != map[] then
      [ BeginLocal(ContentVar, Expr("tabview_get_content", [Var(obj)])),
        SetObjProperties(Var(ContentVar), "content_style"),
        EndLocal(ContentVar) ]
    else []
  }

  function TabviewOps(obj: string, c: TabviewConf): seq<Op> {
    [ SetProperty(Var(obj), "tab_bar_position", V(c.position)),
      SetProperty(Var(obj), "tab_bar_size", V(c.size)) ]
    + TabsOps(obj, c.tabs) + BarOps(obj, c) + ContentOps(obj, c)
  }

  method AddTabs(code: Code, obj: string, tabs: seq<Tab>)
    modifies code
    ensures code.ops == old(code.ops) + TabsOps(obj, tabs)
    ensures code.defines == old(code.defines) && code.warnings == old(code.warnings)
  {
    var i := 0;
    while i < |tabs|
      invariant 0 <= i <= |tabs|
      invariant code.ops == old(code.ops) + TabsOps(obj, tabs[..i])
      invariant code.defines == old(code.defines) && code.warnings == old(code.warnings)
    {
      assert tabs[..i + 1][..i] == tabs[..i];
      var t := tabs[i];
      code.Add(Declare(t.id, Lit("nullptr")));
      code.Add(Assign(t.id, Expr("tabview_add_tab", [Var(obj), V(Str(t.name))])));
      code.Add(SetObjProperties(Var(t.id), t.id));
      code.Add(AddWidgets(Var(t.id), t.id));
      i := i + 1;
    }
    assert tabs[..i] == tabs;
  }

  method StyleBar(code: Code, obj: string, c: TabviewConf)
    modifies code
    ensures code.ops == old(code.ops) + BarOps(obj, c)
    ensures code.defines == old(code.defines) && code.warnings == old(code.warnings)
  {
    if c.tabStyle != map[] {
      code.Add(BeginLocal(BarVar, Expr("tabview_get_tab_bar", [Var(obj)])));
      code.Add(SetObjProperties(Var(BarVar), "tab_style"));
      if Given(c.tabStyle, "items") {
        ghost var before := code.ops;
        var index := 0;
        while index < |c.tabs|
          invariant 0 <= index <= |c.tabs|
          invariant code.ops == before + ItemsOps(index)
          invariant code.defines == old(code.defines) && code.warnings == old(code.warnings)
        {
          code.Add(SetObjProperties(BarChild(index), "items"));
          index := index + 1;
        }
      }
      code.Add(EndLocal(BarVar));
    }
  }

  /** `TabviewType.to_code`. */
  method ToCode(code: Code, obj: string, c: TabviewConf)
    modifies code
    ensures code.ops == old(code.ops) + TabviewOps(obj, c)
    ensures code.defines == old(code.defines) && code.warnings == old(code.warnings)
  {
    code.Add(SetProperty(Var(obj), "tab_bar_position", V(c.position)));
    code.Add(SetProperty(Var(obj), "tab_bar_size", V(c.size)));
    ghost var o1 := code.ops;
    AddTabs(code, obj, c.tabs);
    ghost var o2 := code.ops;
    StyleBar(code, obj, c);
    ghost var o3 := code.ops;
    StyleContent(code, obj, c);
    assert code.ops == o3 + ContentOps(obj, c);
    assert o3 == o2 + BarOps(obj, c);
    assert o2 == o1 + TabsOps(obj, c.tabs);
  }

  method StyleContent(code: Code, obj: string, c: TabviewConf)
    modifies code
    ensures code.ops == old(code.ops) + ContentOps(obj, c)
    ensures code.defines == old(code.defines) && code.warnings == old(code.warnings)
  {
    if c.contentStyle.Some? && c.contentStyle.value != map[] {
      code.Add(BeginLocal(ContentVar, Expr("tabview_get_content", [Var(obj)])));
      code.Add(SetObjProperties(Var(ContentVar), "content_style"));
      code.Add(EndLocal(ContentVar));
    }
  }

  /** The tab-bar position is set before its size, and then every tab, in
      order, is declared, assigned `tabview_add_tab(obj, name)`, and given
      its properties and children. */
  lemma {:induction false} TabsInOrder(obj: string, c: TabviewConf)
    ensures var ops := TabviewOps(obj, c);
      && ops[0] == SetProperty(Var(obj), "tab_bar_position", V(c.position))
      && ops[1] == SetProperty(Var(obj), "tab_bar_size", V(c.size))
      && forall k :: 0 <= k < |c.tabs| ==> ops[2 + 4 * k..6 + 4 * k] == TabOps(obj, c.tabs[k])
  {
    TabsLayout(obj, c.tabs);
    var ops := TabviewOps(obj, c);
    var head := [SetProperty(Var(obj), "tab_bar_position", V(c.position)), SetProperty(Var(obj), "tab_bar_size", V(c.size))];
    assert ops == head + TabsOps(obj, c.tabs) + (BarOps(obj, c) + ContentOps(obj, c));
    forall k | 0 <= k < |c.tabs|
      ensures ops[2 + 4 * k..6 + 4 * k] == TabOps(obj, c.tabs[k])
    {
      assert ops[2 + 4 * k..6 + 4 * k] == TabsOps(obj, c.tabs)[4 * k..4 * k + 4];
    }
  }

  lemma {:induction false} TabsLayout(obj: string, tabs: seq<Tab>)
    ensures forall k :: 0 <= k < |tabs| ==> TabsOps(obj, tabs)[4 * k..4 * k + 4] == TabOps(obj, tabs[k])
    decreases |tabs|
  {
    if |tabs| > 0 {
      var init := tabs[..|tabs| - 1];
      TabsLayout(obj, init);
      var ops := TabsOps(obj, tabs);
      forall k | 0 <= k < |tabs| - 1
        ensures ops[4 * k..4 * k + 4] == TabOps(obj, tabs[k])
      {
        assert tabs[k] == init[k];
        assert ops[4 * k..4 * k + 4] == TabsOps(obj, init)[4 * k..4 * k + 4];
      }
    }
  }

  /** The `items` style reaches the button of every tab index, and only
      when `tab_style` is non-empty and has `items`. */
  lemma ItemsStyleEveryTab(obj: string, c: TabviewConf)
    ensures c.tabStyle == map[] ==> BarOps(obj, c) == []
    ensures c.tabStyle != map[] && Given(c.tabStyle, "items") ==>
      |BarOps(obj, c)| == |c.tabs| + 3
      && forall k :: 0 <= k < |c.tabs| ==> BarOps(obj, c)[k + 2] == SetObjProperties(BarChild(k), "items")
    ensures c.tabStyle != map[] && !Given(c.tabStyle, "items") ==>
      BarOps(obj, c) == [BeginLocal(BarVar, Expr("tabview_get_tab_bar", [Var(obj)])), SetObjProperties(Var(BarVar), "tab_style"), EndLocal(BarVar)]
  {
  }

  /** The content style is applied, to the content object, exactly when it
      is given and non-empty. */
  lemma ContentStyle(obj: string, c: TabviewConf)
    ensures ContentOps(obj, c) != [] <==> c.contentStyle.Some? && c.contentStyle.value != map[]
    ensures ContentOps(obj, c) != [] ==>
      (ContentOps(obj, c)[1] == SetObjProperties(Var(ContentVar), "content_style")
       && ContentOps(obj, c)[0].init == Expr("tabview_get_content", [Var(obj)]))
  {
  }

  /** The select action as written in the configuration. */
  datatype SelectInput = SelectInput(index: Option<Value>, tabId: Option<Value>, animated: Option<Value>)

  /** The select action's schema: the index is required, which also meets
      "at least one of index and tab id"; `tab_id` is not one of the schema's
      keys, so it is refused as an extra key; `animated` defaults to false. */
  function SelectSchema(s: SelectInput): (r: Result<(Value, Value), string>)
    ensures r.Ok? <==> s.index.Some? && s.tabId.None?
    ensures r.Ok? ==> r.value == (s.index.value, s.animated.GetOr(Bool(false)))
  {
    if s.tabId.Some? then Err("extra keys not allowed @ data['tab_id']")
    else if s.index.None? then Err("required key not provided: index")
    else Ok((s.index.value, s.animated.GetOr(Bool(false))))
  }

  /** `do_select`: select the tab, then report the change. */
  function SelectOps(obj: string, index: Value, animated: Value): seq<Op> {
    [ Call("tabview_set_act", [Var(obj), V(index), V(animated)]),
      Call("obj_send_event", [Var(obj), Lit("LV_EVENT_VALUE_CHANGED"), Lit("nullptr")]) ]
  }

  method Select(code: Code, obj: string, index: Value, animated: Value)
    modifies code
    ensures code.ops == old(code.ops) + SelectOps(obj, index, animated)
    ensures code.defines == old(code.defines) && code.warnings == old(code.warnings)
  {
    code.Call("tabview_set_act", [Var(obj), V(index), V(animated)]);
    code.Call("obj_send_event", [Var(obj), Lit("LV_EVENT_VALUE_CHANGED"), Lit("nullptr")]);
  }

  /** Without `animated`, the tab is selected without animation, and a
      value-changed event follows every selection. */
  lemma SelectDefaults(obj: string, index: Value)
    ensures var r := SelectSchema(SelectInput(Some(index), None, None));
      r.Ok? && SelectOps(obj, r.value.0, r.value.1)[0] == Call("tabview_set_act", [Var(obj), V(index), V(Bool(false))])
      && SelectOps(obj, r.value.0, r.value.1)[1].fn == "obj_send_event"
  {
  }
}
