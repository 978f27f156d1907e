/** widgets/menu.py: a menu whose pages are created first, followed by the
    root back-button mode and the optional sidebar page.

    `to_code` looks the sidebar page up with `cg.get_variable` but does not
    await it, so the call receives a coroutine instead of the page and the
    expression builder refuses it: `MenuOpsAsWritten` models that code,
    `MenuOps`, which `ToCode` follows, awaits the lookup. */
module MenuWidget {
  import opened Wrappers
  import opened Strings
  import opened Emit
  import Helpers

  /** `MENU_MODES`: accepted by the schema, not used by `to_code`. */
  const MenuModes: map<string, string> := map[
    "ROOT" := "LV_MENU_ROOT_BACK_BTN_DISABLED", "HEADER" := "LV_MENU_HEADER_TOP_FIXED",
    "SIDEBAR" := "LV_MENU_HEADER_TOP_UNFIXED"]

  const BackEnabled := "LV_MENU_ROOT_BACK_BTN_ENABLED"
  const BackDisabled := "LV_MENU_ROOT_BACK_BTN_DISABLED"

  /** A page of `MENU_PAGE_SCHEMA`: its id, its optional title; its other
      keys are the container properties and children under the page's id. */
  datatype Page = Page(id: string, title: Option<Value>)

  /** A menu as written in the configuration (absent keys are `None`). */
  datatype MenuInput = MenuInput(pages: seq<Page>, rootBackButton: Option<Value>, mode: Option<string>, sidebarPage: Option<string>)

  /** A menu after `MENU_SCHEMA`. */
  datatype MenuConf = MenuConf(pages: seq<Page>, rootBackButton: Value, mode: string, sidebarPage: Option<string>)

  /** `MENU_SCHEMA`: the back button defaults to false, the mode to `HEADER`
      and is matched in any case; an unknown mode is refused. */
  function Schema(c: MenuInput): (r: Result<MenuConf, string>)
    ensures r.Ok? <==> (c.mode.None? || Upper(c.mode.value) in MenuModes)
    ensures r.Ok? ==> r.value.pages == c.pages && r.value.sidebarPage == c.sidebarPage
    ensures r.Ok? ==> r.value.rootBackButton == c.rootBackButton.GetOr(Bool(false))
    ensures r.Ok? ==> r.value.mode == (if c.mode.Some? then Upper(c.mode.value) else "HEADER")
  {
    var mode := if c.mode.Some? then Upper(c.mode.value) else "HEADER";
    if mode !in MenuModes then Err("Unknown value '" + mode + "'")
    else Ok(MenuConf(c.pages, c.rootBackButton.GetOr(Bool(false)), mode, c.sidebarPage))
  }

  /** What `_create_page` emits: the page, created under the menu with its
      title or `NULL`, then its properties and its children. */
  function PageOps(obj: string, p: Page): seq<Op> {
    [ Declare(p.id, Expr("menu_page_create", [Var(obj), if p.title.Some? then V(p.title.value) else Lit("NULL")])),
      SetObjProperties(Var(p.id), p.id),
      AddWidgets(Var(p.id), p.id) ]
  }

  function PagesOps(obj: string, pages: seq<Page>): (r: seq<Op>)
    ensures |r| == 3 * |pages|
    decreases |pages|
  {
    if |pages| == 0 then [] else PagesOps(obj, pages[..|pages| - 1]) + PageOps(obj, pages[|pages| - 1])
  }

  /** The back-button mode and the sidebar page that follow the pages. */
  function TailOps(obj: string, c: MenuConf): seq<Op> {
    [Call("menu_set_mode_root_back_btn", [Var(obj), Lit(if Truthy(c.rootBackButton) then BackEnabled else BackDisabled)])]
    + (if c.sidebarPage.Some? then [Call("menu_set_sidebar_page", [Var(obj), Var(c.sidebarPage.value)])] else [])
  }

  function MenuOps(obj: string, c: MenuConf): seq<Op> {
    PagesOps(obj, c.pages) + TailOps(obj, c)
  }

  /** The message the expression builder raises for an un-awaited value. */
  const CoroutineError := "Object is a coroutine. Did you forget to await the expression with 'await'?"

  /** `to_code` as written: with a sidebar page, passing the un-awaited
      lookup to `menu_set_sidebar_page` fails code generation. */
  function MenuOpsAsWritten(obj: string, c: MenuConf): Result<seq<Op>, string> {
    if c.sidebarPage.Some? then Err(CoroutineError) else Ok(MenuOps(obj, c))
  }

  /** As written, every menu with a sidebar page fails, while the awaited
      lookup sets that page as the menu's last statement; without a sidebar
      page the two agree. */
  lemma AsWrittenSidebarFails(obj: string, c: MenuConf)
    ensures MenuOpsAsWritten(obj, c).Err? <==> c.sidebarPage.Some?
    ensures c.sidebarPage.None? ==> MenuOpsAsWritten(obj, c) == Ok(MenuOps(obj, c))
    ensures c.sidebarPage.Some? ==>
      MenuOps(obj, c)[|MenuOps(obj, c)| - 1] == Call("menu_set_sidebar_page", [Var(obj), Var(c.sidebarPage.value)])
  {
    if c.sidebarPage.Some? {
      BackButtonAndSidebar(obj, c);
    }
  }

  /** A concrete menu: one page used as the sidebar. */
  lemma SidebarExample(obj: string)
    ensures var c := MenuConf([Page("main_page", None)], Bool(false), "HEADER", Some("main_page"));
      MenuOpsAsWritten(obj, c) == Err(CoroutineError) && |MenuOps(obj, c)| == 5
  {
    var c := MenuConf([Page("main_page", None)], Bool(false), "HEADER", Some("main_page"));
    BackButtonAndSidebar(obj, c);
  }

  /** `_create_page`. */
  method CreatePage(code: Code, obj: string, p: Page)
    modifies code
    ensures code.ops == old(code.ops) + PageOps(obj, p)
    ensures code.defines == old(code.defines) && code.warnings == old(code.warnings)
  {
    if p.title.Some? {
      code.Add(Declare(p.id, Expr("menu_page_create", [Var(obj), V(p.title.value)])));
    } else {
      code.Add(Declare(p.id, Expr("menu_page_create", [Var(obj), Lit("NULL")])));
    }
    code.Add(SetObjProperties(Var(p.id), p.id));
    code.Add(AddWidgets(Var(p.id), p.id));
  }

  /** `MenuType.to_code`, with the sidebar page's lookup awaited. */
  method ToCode(code: Code, uses: Helpers.Uses, obj: string, c: MenuConf)
    modifies code, uses
    ensures code.ops == old(code.ops) + MenuOps(obj, c)
    ensures code.defines == old(code.defines) && code.warnings == old(code.warnings)
    ensures uses.componentsRequired == old(uses.componentsRequired) + {"menu"}
    ensures uses.lvUses == old(uses.lvUses)
  {
    uses.AddComponent("menu");
    ghost var before := code.ops;
    var i := 0;
    while i < |c.pages|
      modifies code
      invariant 0 <= i <= |c.pages|
      invariant code.ops == before + PagesOps(obj, c.pages[..i])
      invariant code.defines == old(code.defines) && code.warnings == old(code.warnings)
    {
      assert c.pages[..i + 1][..i] == c.pages[..i];
      CreatePage(code, obj, c.pages[i]);
      i := i + 1;
    }
    assert c.pages[..i] == c.pages;
    if Truthy(c.rootBackButton) {
      code.Call("menu_set_mode_root_back_btn", [Var(obj), Lit(BackEnabled)]);
    } else {
      code.Call("menu_set_mode_root_back_btn", [Var(obj), Lit(BackDisabled)]);
    }
    if c.sidebarPage.Some? {
      code.Call("menu_set_sidebar_page", [Var(obj), Var(c.sidebarPage.value)]);
    }
  }

  /** Each page is three operations, in page order: it is declared before
      its properties and children refer to it. */
  lemma {:induction false} PagesLayout(obj: string, pages: seq<Page>)
    ensures forall k :: 0 <= k < |pages| ==> PagesOps(obj, pages)[3 * k..3 * k + 3] == PageOps(obj, pages[k])
    ensures CountCalls(PagesOps(obj, pages), "menu_set_mode_root_back_btn") == 0
    ensures CountCalls(PagesOps(obj, pages), "menu_set_sidebar_page") == 0
    decreases |pages|
  {
    if |pages| > 0 {
      var init := pages[..|pages| - 1];
      var last := pages[|pages| - 1];
      PagesLayout(obj, init);
      var ops := PagesOps(obj, pages);
      forall k | 0 <= k < |pages|
        ensures ops[3 * k..3 * k + 3] == PageOps(obj, pages[k])
      {
        if k < |pages| - 1 {
          assert pages[k] == init[k];
          assert ops[3 * k..3 * k + 3] == PagesOps(obj, init)[3 * k..3 * k + 3];
        }
      }
      var p := PageOps(obj, last);
      assert p == [p[0]] + [p[1]] + [p[2]];
      CountCallsAppend(PagesOps(obj, init), p, "menu_set_mode_root_back_btn");
      CountCallsAppend(PagesOps(obj, init), p, "menu_set_sidebar_page");
      CountCallsAppend([p[0]] + [p[1]], [p[2]], "menu_set_mode_root_back_btn");
      CountCallsAppend([p[0]] + [p[1]], [p[2]], "menu_set_sidebar_page");
      CountCallsAppend([p[0]], [p[1]], "menu_set_mode_root_back_btn");
      CountCallsAppend([p[0]], [p[1]], "menu_set_sidebar_page");
    }
  }

  /** The back-button mode is set exactly once, enabled exactly when the
      option is true, after every page; the sidebar page is set at most
      once, exactly when one is named, and last. */
  lemma BackButtonAndSidebar(obj: string, c: MenuConf)
    ensures CountCalls(MenuOps(obj, c), "menu_set_mode_root_back_btn") == 1
    ensures CountCalls(MenuOps(obj, c), "menu_set_sidebar_page") == (if c.sidebarPage.Some? then 1 else 0)
    ensures var ops := MenuOps(obj, c); var n := 3 * |c.pages|;
      ops[n] == Call("menu_set_mode_root_back_btn", [Var(obj), Lit(if Truthy(c.rootBackButton) then BackEnabled else BackDisabled)])
      && (c.sidebarPage.Some? ==> |ops| == n + 2 && ops[n + 1] == Call("menu_set_sidebar_page", [Var(obj), Var(c.sidebarPage.value)]))
      && (c.sidebarPage.None? ==> |ops| == n + 1)
  {
    PagesLayout(obj, c.pages);
    var t := TailOps(obj, c);
    CountCallsAppend(PagesOps(obj, c.pages), t, "menu_set_mode_root_back_btn");
    CountCallsAppend(PagesOps(obj, c.pages), t, "menu_set_sidebar_page");
    assert [t[0]][..0] == [];
    if c.sidebarPage.Some? {
      assert t == [t[0]] + [t[1]];
      CountCallsAppend([t[0]], [t[1]], "menu_set_mode_root_back_btn");
      CountCallsAppend([t[0]], [t[1]], "menu_set_sidebar_page");
    } else {
      assert t == [t[0]];
    }
  }

  /** Pages are created in list order. */
  lemma {:induction false} PagesInOrder(obj: string, a: seq<Page>, b: seq<Page>)
    ensures PagesOps(obj, a + b) == PagesOps(obj, a) + PagesOps(obj, b)
    decreases |b|
  {
    if |b| == 0 {
      assert a + b == a;
    } else {
      assert (a + b)[..|a + b| - 1] == a + b[..|b| - 1];
      assert (a + b)[|a + b| - 1] == b[|b| - 1];
      PagesInOrder(obj, a, b[..|b| - 1]);
    }
  }

  /** The menu mode is validated but has no effect on what is emitted. */
  lemma ModeHasNoEffect(obj: string, c: MenuConf, mode: string)
    ensures MenuOps(obj, c.(mode := mode)) == MenuOps(obj, c)
  {
  }

  /** By default the back button is disabled and the mode is `HEADER`. */
  lemma Defaults(pages: seq<Page>)
    ensures Schema(MenuInput(pages, None, None, None)) == Ok(MenuConf(pages, Bool(false), "HEADER", None))
    ensures Schema(MenuInput(pages, None, Some("sidebar"), None)).Ok?
  {
    assert Upper("sidebar") == "SIDEBAR";
  }
}
