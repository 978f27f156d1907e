# ESPHome LVGL component: a verified model of its code generation

The LVGL component of ESPHome turns a validated YAML configuration into C++
code that builds an LVGL user interface. This project models the core of
that translation, plus two small C++ pieces that run on the device:

- **Layouts** (`layout.py`): the `FR(n)` track sizes, the `horizontal` and
  `vertical` shortcuts, the flex layout's `stretch` workaround (including
  its write into the shared `FLEX_OBJ_SCHEMA`), the priority order in which
  `append_layout_schema` tries the layouts, and the grid layout, which
  expands the `"RxC"` shorthand and places every child over a rows-by-columns
  occupancy matrix (auto-placement in the first free cell in row-major
  order, bounds checks on every spanned cell, collision rejection unless
  `multiple_widgets_per_cell` is set).
- **Styles** (`styles.py`): one setter per property in the fixed property
  order, lists joined with `|`, lazily created named styles that are created
  at most once, `styles_to_code`, and the theme map keyed by widget, part and
  state.
- **Gradients** (`gradient.py`): at least two stops, three parallel arrays per
  gradient and the running maximum published as `LV_GRADIENT_MAX_STOPS`.
- **Helpers** (`helpers.py`): the printf-pattern count check, the single-`%f`
  rule of `if_nan`, and the only-growing sets of LVGL features and components
  in use.
- **Widgets** (`widgets/*.py`): button, bar, arc label, spinner, calendar,
  chart, table, list, image button, span group, menu, window, tab view,
  message box, Lottie animation, QR code and image. Each widget has its
  schema's defaults and error cases, and a `to_code` method proved against a
  function that gives the exact sequence of operations it emits. For the span
  group and the menu that function is the intended behaviour; the source as
  written differs (see "## Findings"), and that version is modelled beside it.
- **Lottie loader** (`lottie_loader.h`): the render task's frame arithmetic,
  the context's allocation lifecycle and the screen events that drive it.
- **SD-card file-system driver** (`lv_fs_driver.cpp`): the path mapping, the
  open-mode and seek-origin mappings, and the results of the callbacks.

The generated code is modelled by the `Emit.Code` class. It holds the
operation stream that code generation appends to, plus the build's defines
and warnings. Every method that emits code states its new stream as the old
one followed by a specification function of its inputs. The lemmas then
state what the source promises about those functions: order, counts,
defaults, exactly-when conditions and memoisation.

## Model

| member | source | states |
|---|---|---|
| Helpers.Uses.constructor | components/lvgl/helpers.py:8-24 | `lv_uses` starts as the five default features and no component is required |
| Helpers.Uses.AddLvUse | components/lvgl/helpers.py:17-19 | every name given is added to `lv_uses`, nothing is removed, and the required components are untouched |
| Helpers.Uses.AddComponent | components/lvgl/helpers.py:73 | the component is added to `lvgl_components_required` and `lv_uses` is untouched |
| Helpers.Uses.RequiresComponent | components/lvgl/helpers.py:71-76 | the component is recorded whether or not validation passes; the value passes through unchanged exactly when the component is part of the build |
| Helpers.MatchAtSpec | components/lvgl/helpers.py:27-53 | a text starting at a position is one match of the expression (`%`, up to five flags, width, precision, size, type character) exactly when the matcher ends there, so a match has one end |
| Helpers.FindAll | components/lvgl/helpers.py:58 | every string `findall` returns is one whole match of the expression |
| Helpers.NoPercentNoPattern | components/lvgl/helpers.py:27-53 | a text without `%` holds no pattern |
| Helpers.FloatPatternsCounted | components/lvgl/helpers.py:27-53 | `f_regex` never finds more patterns than `c_regex` in the same text |
| Helpers.ValidatePrintf | components/lvgl/helpers.py:56-68 | accepted, unchanged, exactly when the pattern count equals the argument count and, with a truthy `if_nan`, there is exactly one `%f` pattern |
| Helpers.PercentEscapeCounts | components/lvgl/helpers.py:41-53 | `"%%d"` is counted as one pattern `%d`: the `%%` escape is not recognised |
| Helpers.FullPatternExample | components/lvgl/helpers.py:27-53 | `"%-08.3lf"` (flags, width, precision, size `l`, type `f`) is a single pattern for both expressions |
| Styles.NoStylePropsNoSetters | components/lvgl/styles.py:29-40 | when `has_style_props` is false no setter is emitted |
| Styles.StyleOpsAppend | components/lvgl/styles.py:33-40 | setters follow the property order: the setters for `a + b` are those for `a` then those for `b` |
| Styles.StyleOpsExactly | components/lvgl/styles.py:33-40 | an operation is emitted exactly when it is the setter `style_set_<remap(p)>` of a property `p` whose value is present and not `None` |
| Styles.ListJoined | components/lvgl/styles.py:38-40 | a list value is set as its items joined with `"\|"` |
| Styles.ItemText | components/lvgl/styles.py:38-40 | the constant name one item of a list value contributes to the `"\|"`-joined setter argument; Styles.ListJoined proves the join |
| Styles.StyleSet | components/lvgl/styles.py:33-40 | appends exactly the setters of `StyleOps` and changes nothing else |
| Styles.StyleOps | components/lvgl/styles.py:33-40 | the setters `style_set` emits, one per property present in the style, in property order; Styles.StyleOpsExactly, Styles.StyleOpsAppend and Styles.StyleOpsAreSetters prove this |
| Styles.StyleOpsAreSetters | components/lvgl/styles.py:33-40 | every operation `style_set` emits is a `style_set_` call |
| Styles.CreateStyleOrder | components/lvgl/styles.py:43-49 | the declaration comes first, then `style_init`, then only setters; without a non-empty style there are no setters |
| Styles.CreateStyle | components/lvgl/styles.py:43-49 | returns the variable named by the id and appends exactly `CreateStyleOps` |
| Styles.CreateStyleOps | components/lvgl/styles.py:43-49 | `create_style`'s output: the declaration and `style_init`, then the setters only for a non-empty style; Styles.CreateStyleOrder and Styles.CreateStyleDeclares prove it |
| Styles.LVStyle.constructor | components/lvgl/styles.py:59-62 | a new style keeps its name and properties and has no variable yet |
| Styles.LVStyle.GetVar | components/lvgl/styles.py:64-67 | the first call creates `<id>_style` with the style's properties; later calls emit nothing; the variable is always `<id>_style` |
| Styles.GetVarTwice | components/lvgl/styles.py:64-67 | two calls return the same variable and create the style once |
| Styles.StyleRegistry.constructor | components/lvgl/styles.py:57 | `named_styles` and the theme map start empty |
| Styles.StyleRegistry.GetStyle | components/lvgl/styles.py:70-71 | a registered name returns the same object; a new name registers and returns a fresh style without properties |
| Styles.StatesMapSpec | components/lvgl/styles.py:107-112 | the state map of a part maps exactly the listed states, each to `_lv_theme_style_<w>_<part>_<state>` |
| Styles.PartsMapSpec | components/lvgl/styles.py:105-112 | the part map of a widget holds exactly the listed parts, each entry named after widget, part and state |
| Styles.ThemeMapSpec | components/lvgl/styles.py:101-113 | every entry of the theme map names its style `_lv_theme_style_<w>_<part>_<state>`, for exactly the widgets of the theme |
| Styles.MergeConsistent | components/lvgl/styles.py:113 | writing consistently named entries into a consistent theme map keeps it consistent |
| Styles.StyleRegistry.ThemeToCode | components/lvgl/styles.py:98-113 | the theme map gains `ThemeMap(theme)`, the styles are created in theme order, `theme` is added to the features exactly when the theme is non-empty, and named styles are untouched |
| Styles.ThemeStyleName | components/lvgl/styles.py:101-113 | the name of the style a theme gives one widget, part and state; Styles.ThemeMapSpec shows every theme-map entry names such a style |
| Styles.ThemeMap | components/lvgl/styles.py:101-113 | the widget → part → state → style map `theme_to_code` builds; Styles.ThemeMapSpec, Styles.ThemeParts, Styles.ThemeStates and Styles.MergeConsistent state its contents |
| Styles.ThemeOps | components/lvgl/styles.py:98-113 | the styles `theme_to_code` creates, widget by widget; Styles.StyleRegistry.ThemeToCode emits exactly these |
| Styles.StyleRegistry.ThemeWidgets | components/lvgl/styles.py:101-113 | the widget loop writes `ThemeMap(theme)` over the old map and emits `ThemeOps(theme)` |
| Styles.ThemeParts | components/lvgl/styles.py:105-112 | the part loop returns `PartsMap` and emits `PartsOps` |
| Styles.ThemeStates | components/lvgl/styles.py:107-112 | the state comprehension returns `StatesMap` and emits one style per state |
| Styles.CreateStyleDeclares | components/lvgl/styles.py:43-49 | creating a style declares exactly one variable, the style's id |
| Styles.OneStylePerDefinition | components/lvgl/styles.py:74-77 | the definitions declare exactly their ids, one each, in declaration order |
| Styles.StylesToCode | components/lvgl/styles.py:74-77 | appends exactly `StylesOps(defs)` |
| Styles.StylesOps | components/lvgl/styles.py:74-77 | one `create_style` per style definition, in order; Styles.OneStylePerDefinition proves it |
| Gradient.MinStops | components/lvgl/gradient.py:21-24 | accepted, unchanged, exactly when there are at least two stops |
| Gradient.MaxStopsIsMaximum | components/lvgl/gradient.py:53-62 | the published maximum is at least 2 and at least every gradient's stop count, and it is 2 or the stop count of some gradient |
| Gradient.MaxStopsOf | components/lvgl/gradient.py:53-62 | the value of `max_stops` after the gradients: Gradient.MaxStopsIsMaximum proves it is the largest stop count and never below two |
| Gradient.NoGradientsMaxTwo | components/lvgl/gradient.py:53-81 | without gradients `LV_GRADIENT_MAX_STOPS` is 2 |
| Gradient.GradientsOpsLayout | components/lvgl/gradient.py:58-79 | each gradient contributes its six statements, in declaration order |
| Gradient.ParallelArrays | components/lvgl/gradient.py:67-79 | the colour, opacity and position arrays hold one entry per stop in stop order, and `grad_init_stops` gets the stop count |
| Gradient.DirectionInit | components/lvgl/gradient.py:63-66 | `VER`/`VERTICAL` use the vertical initialiser and `HOR`/`HORIZONTAL` the horizontal one |
| Gradient.DitherWheneverGradients | components/lvgl/gradient.py:34-57 | since the schema always supplies `dither`, the advisory fires exactly when there is a gradient |
| Gradient.GradientsToCode | components/lvgl/gradient.py:52-81 | emits `GradientsOps`, warns exactly when some gradient has `dither`, and defines `LV_GRADIENT_MAX_STOPS` as `MaxStopsOf` |
| Gradient.AddGradients | components/lvgl/gradient.py:58-79 | the loop emits every gradient in order and returns `MaxStopsOf(gs)` |
| Gradient.AddGradient | components/lvgl/gradient.py:59-79 | one gradient emits exactly `GradientOps` |
| Gradient.GradientOps | components/lvgl/gradient.py:59-79 | what one gradient emits: descriptor, direction initialiser, the three parallel arrays, stop initialisation; Gradient.ParallelArrays and Gradient.DirectionInit state it |
| Gradient.GradientsOps | components/lvgl/gradient.py:58-79 | the gradients' output concatenated in configuration order; Gradient.GradientsOpsLayout and Gradient.AddGradients prove it |
| Layout.FlexHvSchema | components/lvgl/layout.py:70-75 | the child schema has exactly `flex_grow` (default 1) and the cross dimension (default `100%`): `height` for `horizontal`, `width` otherwise |
| Layout.DirectionalValidate | components/lvgl/layout.py:173-183 | the layout string becomes the `FLEX_HV_STYLE` dictionary with flow `LV_FLEX_FLOW_<FLOW>`; row and column padding are present exactly when `pad_all` is truthy and then equal it; every other key is unchanged |
| Layout.DirectionalIsFlex | components/lvgl/layout.py:173-183 | the rewritten layout is a flex layout, and the cross dimension of its flow is the one `flex_hv_schema` fills |
| Layout.RowCrossIsHeight | components/lvgl/layout.py:136-140 | the flow `LV_FLEX_FLOW_ROW` does not name a column, so the stretch dimension is `height` |
| Layout.ColumnCrossIsWidth | components/lvgl/layout.py:136-140 | the flow `LV_FLEX_FLOW_COLUMN` names a column, so the stretch dimension is `width` |
| Layout.CrossDimension | components/lvgl/layout.py:136-140 | the dimension the stretch work-around fills; Layout.RowCrossIsHeight and Layout.ColumnCrossIsWidth prove it is `width` exactly for a column flow |
| Layout.FlexChildSchema | components/lvgl/layout.py:126-142 | a truthy layout `flex_grow` becomes the children's default; stretch cross alignment adds a `100%` default on `width` exactly when the flow contains `COLUMN` and on `height` otherwise; stretch without a flow is a key error |
| Layout.StretchLeaks | components/lvgl/layout.py:130-141 | without `flex_grow` the stretch default is written into the shared `FLEX_OBJ_SCHEMA`, so a later non-stretched flex container gets the same default |
| Layout.DeclineKeepsState | components/lvgl/layout.py:126-142 | a class that declines leaves `FLEX_OBJ_SCHEMA` as it was |
| Layout.AppendLayoutSchemaSpec | components/lvgl/layout.py:332-389 | without `widgets`, a `layout` key is an error and otherwise the schema is unchanged; `widgets` without `layout` extends the schema; a layout neither string nor dictionary is rejected at the `layout` path; a chosen layout class implies both keys |
| Layout.SchemasFor | components/lvgl/layout.py:126-239 | each layout class's `get_layout_schemas`; Layout.FlexChildSchema, Layout.DirectionalValidate and Layout.ShorthandSelectsGrid state what each class accepts |
| Layout.FirstMatch | components/lvgl/layout.py:364-374 | the loop over `LAYOUT_CLASSES`; Layout.FirstMatchIsFirst proves the selected class is the first that applies and Layout.NoMatchIffAllDecline that none is selected exactly when all decline |
| Layout.AppendUsesFirstMatch | components/lvgl/layout.py:332-389 | once the sanity checks pass, `append_layout_schema` returns the first matching class's schema, passes a class's error through, and otherwise raises the dict or the value error |
| Layout.MissingWidgets | components/lvgl/layout.py:338-343 | the error for a `layout` without `widgets`, naming the layout and the `widgets` key; Layout.AppendLayoutSchemaSpec raises it exactly in that case |
| Layout.FirstMatchIsFirst | components/lvgl/layout.py:323-374 | the class chosen is the first, in the order flex, grid, horizontal, vertical, whose schemas apply; every class before it declines |
| Layout.NoMatchIffAllDecline | components/lvgl/layout.py:364-389 | no class is chosen exactly when every class declines |
| Layout.ShorthandSelectsGrid | components/lvgl/layout.py:192-216 | a `rows x cols` string with a `widgets` key is taken by the grid class, with centred cell alignment defaults |
| Layout.LayoutRegistry.constructor | components/lvgl/layout.py:65-67 | `FLEX_OBJ_SCHEMA` starts as the single optional `flex_grow` |
| Layout.LayoutRegistry.GetLayoutSchemas | components/lvgl/layout.py:126-239 | the call returns what the class's discriminator computes and leaves `FLEX_OBJ_SCHEMA` as the discriminator leaves it |
| Layout.LayoutRegistry.AppendLayoutSchema | components/lvgl/layout.py:332-389 | the result and the new `FLEX_OBJ_SCHEMA` are those of `AppendLayoutSchemaSpec` |
| Layout.GridFreeSpace | components/lvgl/layout.py:78-83 | accepted only for `FR(<digits>)` in any case, giving `LV_GRID_FR(<n>)` |
| Layout.GridFreeSpaceRoundTrip | components/lvgl/layout.py:78-83 | `fr(n)` in lower case is accepted and keeps its count |
| LayoutGrid.Repeat | components/lvgl/layout.py:261-262 | `[x] * n` has length `n` and every entry is `x` |
| LayoutGrid.MatchCoreRoundTrip | components/lvgl/layout.py:255-258 | a string `<rows><spaces>x<spaces><cols>` matches the shorthand pattern and gives back exactly `rows` and `cols` |
| LayoutGrid.MatchShorthandOfStripped | components/lvgl/layout.py:254-255 | matching the stripped string gives the same result as matching the original, since the anchored `\s*` absorb what `strip()` removes |
| LayoutGrid.MatchShorthand | components/lvgl/layout.py:254-258 | `_GRID_LAYOUT_REGEX.match`; LayoutGrid.MatchShorthandOfStripped proves surrounding whitespace changes nothing and LayoutGrid.MatchCoreRoundTrip that `<rows>x<cols>` is matched back to the same counts |
| LayoutGrid.ExpandLayout | components/lvgl/layout.py:250-269 | a shorthand string is accepted exactly when it matches and then becomes `rows` and `columns` lists of `LV_GRID_FR(1)` of the matched lengths, without `multiple_widgets_per_cell`; a dictionary passes unchanged |
| LayoutGrid.EmptyGrid | components/lvgl/layout.py:276 | the occupancy matrix has `rows` rows of `columns` cells, all free |
| LayoutGrid.SetCell | components/lvgl/layout.py:318 | the assignment changes the one named cell and no other, keeping the matrix rectangular |
| LayoutGrid.FirstFreeFromSpec | components/lvgl/layout.py:288-294 | the scan from a cell finds a free cell not before it, and every cell between is taken; it finds none exactly when every later cell is taken |
| LayoutGrid.FirstFreeSpec | components/lvgl/layout.py:288-298 | the auto-placement target is a free cell with every cell before it in row-major order taken; there is none exactly when every cell is taken |
| LayoutGrid.FirstFreeFrom | components/lvgl/layout.py:288-294 | the row-major scan for a free cell; LayoutGrid.FirstFreeFromSpec proves it finds a free cell and none earlier |
| LayoutGrid.FirstFree | components/lvgl/layout.py:288-298 | the first free cell of the grid; LayoutGrid.FirstFreeSpec proves it is free, no cell before it is, and it is absent exactly when the grid is full |
| LayoutGrid.MarkFromSpec | components/lvgl/layout.py:302-318 | the span loops succeed exactly when every spanned cell is inside the grid and, unless several widgets per cell are allowed, free; on success the spanned cells hold the child's index and all others are unchanged |
| LayoutGrid.MarkFromErr | components/lvgl/layout.py:302-317 | a failing span loop reports the child's index with either a spanned cell outside the grid (and the span and grid size) or a spanned occupied cell and its occupant, the latter only when several widgets per cell are not allowed |
| LayoutGrid.MarkFrom | components/lvgl/layout.py:302-318 | the span loops; LayoutGrid.MarkFromSpec proves the cells covered are marked and no other changes, LayoutGrid.MarkFromErr which error stops it |
| LayoutGrid.PlaceAll | components/lvgl/layout.py:276-318 | a successful walk over the children yields a `rows` by `columns` matrix and one output child per input child |
| LayoutGrid.CoversFromStart | components/lvgl/layout.py:302-303 | the cells the span loops visit from (0, 0) are exactly the cells of the span |
| LayoutGrid.PlaceSpec | components/lvgl/layout.py:279-318 | one child: exactly one position is rejected; no position and no free cell is "No free cells"; otherwise it succeeds exactly when its spanned cells are in the grid and (unless allowed) free, keeps an explicit position or takes the first free cell, and marks exactly its cells |
| LayoutGrid.Resolve | components/lvgl/layout.py:287-300 | a child's position: kept when given, otherwise the first free cell; LayoutGrid.AutoPlacement proves it |
| LayoutGrid.Place | components/lvgl/layout.py:279-318 | one iteration of the children loop; LayoutGrid.PlaceSpec states its grid and child |
| LayoutGrid.PlaceAllPrefix | components/lvgl/layout.py:277-318 | a prefix of the children is placed as the whole list places it, and an error in a prefix is the error of the whole list |
| LayoutGrid.PlaceAllChildren | components/lvgl/layout.py:279-300 | after a successful walk no child had exactly one position, every child is positioned with its spans unchanged, and an explicit position is kept |
| LayoutGrid.PlaceAllGrid | components/lvgl/layout.py:276-318 | every cell a placed child spans is inside the grid, and every cell holds the index of the last child spanning it, or is free when none does |
| LayoutGrid.PlaceAllExclusive | components/lvgl/layout.py:310-317 | without `multiple_widgets_per_cell` no two placed children share a cell |
| LayoutGrid.AutoPlacement | components/lvgl/layout.py:287-300 | an auto-placed child lands inside the grid on a cell no earlier child covers, and every cell before it in row-major order is covered by an earlier child |
| LayoutGrid.NoFreeCellsWhenFull | components/lvgl/layout.py:288-298 | a child without positions after the earlier children cover every cell is rejected with "No free cells" at its index, whether or not several widgets per cell are allowed |
| LayoutGrid.MixedRejected | components/lvgl/layout.py:279-283 | a child giving exactly one of row and column position is rejected at its index once the earlier children are placed |
| LayoutGrid.CollisionNamesOccupant | components/lvgl/layout.py:310-317 | an "already occupied" error names the rejected child's index, happens only without `multiple_widgets_per_cell`, and names the last earlier child covering that cell |
| LayoutGrid.PlaceAllIdempotent | components/lvgl/layout.py:277-320 | validating the returned children again gives the same matrix and children |
| LayoutGrid.MarkSingle | components/lvgl/layout.py:302-318 | a 1x1 span on an allowed cell marks just that cell |
| LayoutGrid.AutoFillsRowMajor | components/lvgl/layout.py:287-300 | four children without positions fill a 2x2 grid row by row, at (0,0), (0,1), (1,0), (1,1) |
| LayoutGrid.CollisionExample | components/lvgl/layout.py:310-317 | two children at (0, 0) of a 1x1 grid: the second is rejected and the first named as the occupant |
| LayoutGrid.Snapshot | components/lvgl/layout.py:276 | the matrix read from the array has its dimensions and its cells |
| LayoutGrid.FindFree | components/lvgl/layout.py:288-294 | the nested scan over `used_cells` returns the first free cell in row-major order |
| LayoutGrid.MarkSpan | components/lvgl/layout.py:302-318 | the span loops over the array fail exactly when the specification fails, with its error, and otherwise leave the array equal to the specification's matrix |
| LayoutGrid.MarkRow | components/lvgl/layout.py:302-318 | one pass of the inner span loop over `used_cells` for span row `i`: either it stops with exactly the error the span loops give at that row, or it marks that row's cells and leaves the remaining span loops' outcome unchanged |
| LayoutGrid.PlaceChild | components/lvgl/layout.py:278-318 | one iteration: fails exactly as the one-child specification does, otherwise updates the array and writes the child's position back |
| LayoutGrid.NewGrid | components/lvgl/layout.py:276 | a fresh array of the given size with every cell free |
| LayoutGrid.PlaceChildren | components/lvgl/layout.py:276-318 | the loop over the children fails exactly when `PlaceAll` does, with its error, and otherwise leaves the children as `PlaceAll` returns them |
| LayoutGrid.ValidateGrid | components/lvgl/layout.py:241-320 | `GridLayout.validate` returns the expanded layout and updates the children exactly as `ValidateGridSpec` says, or fails with its error |
| ButtonWidget.Validate | components/lvgl/widgets/button.py:23-28 | a button is rejected exactly when it has both `text` and `widgets`; otherwise it passes unchanged, and `label` is recorded as used exactly when it has `text` |
| ButtonWidget.OnCreate | components/lvgl/widgets/button.py:33-36 | a label is created on the button exactly when the configuration has `text`, and the button object is returned |
| ButtonWidget.ToCode | components/lvgl/widgets/button.py:38-43 | the text is set on the button's first child exactly when a non-empty text is given, and nothing else is emitted |
| ButtonWidget.CreateOps | components/lvgl/widgets/button.py:33-36 | what `on_create` emits; ButtonWidget.TextGoesToLabel and ButtonWidget.NoTextNoLabel prove a label exists exactly when there is text |
| ButtonWidget.TextOps | components/lvgl/widgets/button.py:38-43 | what `to_code` emits; ButtonWidget.TextGoesToLabel proves the text goes to the label |
| ButtonWidget.FinalValidate | components/lvgl/widgets/button.py:45-49 | an update is rejected, at the given path, exactly when it sets `text` on a button configured without one |
| ButtonWidget.TextGoesToLabel | components/lvgl/widgets/button.py:33-43 | with text, creation makes exactly one label on the button and the text is written to child 0 of the button, which is that label |
| ButtonWidget.NoTextNoLabel | components/lvgl/widgets/button.py:33-43 | without a `text` key nothing is emitted; with an empty text the label is still created but no text is set |
| SpinnerWidget.Schema | components/lvgl/widgets/spinner.py:12-19 | accepted exactly when `arc_length` is absent or a whole number in [0, 360]; absent keys default to an arc length of 200 and a spin time of `2s` |
| SpinnerWidget.ArcLengthRange | components/lvgl/widgets/spinner.py:33-35 | an accepted arc length is moved into [180, 360]: below 180 it gains 180, from 180 on it is kept |
| SpinnerWidget.ToCode | components/lvgl/widgets/spinner.py:31-36 | one `spinner_set_anim_params` call with the spin time and the adjusted arc length |
| SpinnerWidget.ArcLength | components/lvgl/widgets/spinner.py:33-35 | the arc length passed on; SpinnerWidget.ArcLengthRange proves an accepted length is moved into [180, 360] |
| SpinnerWidget.SpinnerOps | components/lvgl/widgets/spinner.py:31-36 | what `to_code` emits; SpinnerWidget.OneCallInRange and SpinnerWidget.DefaultArc state it |
| SpinnerWidget.OneCallInRange | components/lvgl/widgets/spinner.py:12-36 | for every accepted configuration exactly one call is emitted, its arc length lies in [180, 360], and an absent spin time becomes `2s` |
| SpinnerWidget.DefaultArc | components/lvgl/widgets/spinner.py:14-36 | the default arc length reaches the call as 200 |
| ArcLabelWidget.Schema | components/lvgl/widgets/arclabel.py:27-35 | accepted exactly when `text` is given; radius 100, start angle 0, end angle 360 and rotation 0 fill the absent keys |
| ArcLabelWidget.AngleSizePositive | components/lvgl/widgets/arclabel.py:61-66 | the angle size is the end minus the start, with 360 added when that is not positive; it is positive exactly when the span exceeds -360, lies in (0, 360] for a span in (-360, 360], and a start of 360 with an end of 0 gives 0 |
| ArcLabelWidget.ToCode | components/lvgl/widgets/arclabel.py:49-84 | the seven calls of `ArcLabelOps` are emitted in order and `arclabel` is added to the required components |
| ArcLabelWidget.AngleSize | components/lvgl/widgets/arclabel.py:61-66 | the angle size; ArcLabelWidget.AngleSizePositive proves it lies in (0, 360] for a span in (-360, 360] |
| ArcLabelWidget.ArcLabelOps | components/lvgl/widgets/arclabel.py:49-84 | everything `to_code` emits; ArcLabelWidget.Geometry and ArcLabelWidget.Defaults state it |
| ArcLabelWidget.Geometry | components/lvgl/widgets/arclabel.py:53-84 | the text is set first; both pivot coordinates are the radius; the object is a square of side `2 * radius + 50`; the transform angle is ten times the rotation, on the main part |
| ArcLabelWidget.Defaults | components/lvgl/widgets/arclabel.py:27-84 | with only `text` given the radius is 100, the angle size 360, the rotation 0 and the side 250 |
| ArcLabelWidget.ToCodeUpdate | components/lvgl/widgets/arclabel.py:86-89 | an update emits what `UpdateOps` lists: the text call when the update names a text |
| ArcLabelWidget.UpdateOps | components/lvgl/widgets/arclabel.py:86-89 | what `to_code_update` emits; ArcLabelWidget.UpdateOnlyText proves only the text is set |
| ArcLabelWidget.UpdateOnlyText | components/lvgl/widgets/arclabel.py:86-89 | an update emits one `arclabel_set_text` call when it has a text and nothing otherwise |
| BarWidget.ValidateBar | components/lvgl/widgets/lv_bar.py:22-31 | accepted, unchanged, exactly when `start_value` appears only with mode `LV_BAR_MODE_RANGE` and `min_value` and `max_value` appear together; a misplaced start value is reported with its own message |
| BarWidget.Schema | components/lvgl/widgets/lv_bar.py:34-43 | an accepted configuration keeps every given key and has `animated`, true unless given |
| BarWidget.ToCode | components/lvgl/widgets/lv_bar.py:55-69 | emits the mode, the range, the value and the start value statements of `BarOps`, in that order |
| BarWidget.BarOps | components/lvgl/widgets/lv_bar.py:55-69 | everything `to_code` emits; BarWidget.EmittedExactly and BarWidget.RangeAndAnimation state it |
| BarWidget.SchemaValidates | components/lvgl/widgets/lv_bar.py:34-64 | what the schema accepts has the `animated` flag and a `max_value` wherever it has a `min_value`, so `to_code` can read both |
| BarWidget.EmittedExactly | components/lvgl/widgets/lv_bar.py:57-69 | each call appears at most once and exactly under its condition: the mode when truthy, the range when `min_value` is present, the value and the start value when truthy |
| BarWidget.RangeAndAnimation | components/lvgl/widgets/lv_bar.py:41-69 | the range passes the minimum then the maximum, and both value calls carry the `animated` flag, true by default |
| ImgWidget.Schema | components/lvgl/widgets/img.py:26-51 | accepted, unchanged, exactly when `mode` is absent, `angle` and `rotation` are not both given, `zoom` and `scale` are not both given, the source is present on creation, and no other key appears |
| ImgWidget.ToCode | components/lvgl/widgets/img.py:67-70 | the source is set first, then each schema key in schema order, as `ImgOps` lists |
| ImgWidget.PropertyOps | components/lvgl/widgets/img.py:69-70 | `set_property` for one key: a setter exactly when the key is present; ImgWidget.ExactlyPresentKeys proves it |
| ImgWidget.ImgOps | components/lvgl/widgets/img.py:67-70 | the source, then the present keys in schema order; ImgWidget.KeysInOrder proves the order |
| ImgWidget.ExactlyPresentKeys | components/lvgl/widgets/img.py:69-70 | a property is set exactly for each listed key present in the configuration, with that key's value |
| ImgWidget.KeysInOrder | components/lvgl/widgets/img.py:69-70 | the keys are visited in list order: the operations for two lists in sequence are those of the first then those of the second |
| ImgWidget.AcceptedOutput | components/lvgl/widgets/img.py:26-70 | for an accepted configuration the source, when given, is set first and is given whenever the widget is created; `mode` is never set; `angle` and `rotation` are never both set, nor `zoom` and `scale` |
| ImgbtnWidget.Schema | components/lvgl/widgets/imgbtn.py:40-49 | accepted, unchanged, exactly when every key is one of the six state sources |
| ImgbtnWidget.ToCode | components/lvgl/widgets/imgbtn.py:62-80 | `imgbtn` is added to the required components and the state images are set in `state_configs` order, as `SrcOps` lists |
| ImgbtnWidget.SrcOps | components/lvgl/widgets/imgbtn.py:76-80 | one `imgbtn_set_src` per state that has an image; ImgbtnWidget.ExactlyPresentKeys and ImgbtnWidget.FullConfigOrder prove it |
| ImgbtnWidget.ExactlyPresentKeys | components/lvgl/widgets/imgbtn.py:76-80 | an image is set for a state exactly when its key is present, with that key's image, the state's constant and `NULL` side images, and nothing else is emitted |
| ImgbtnWidget.EmptyEmitsNothing | components/lvgl/widgets/imgbtn.py:76-80 | an empty configuration emits no image call |
| ImgbtnWidget.FullConfigOrder | components/lvgl/widgets/imgbtn.py:67-80 | with all six keys present six calls are emitted, the k-th for the k-th state: released, pressed, disabled, then the checked states |
| CalendarWidget.Field | components/lvgl/widgets/calendar.py:43-51 | a date field is accepted exactly when it is an integer in its range, or absent and not required; an accepted field keeps its value, an absent one stays absent |
| CalendarWidget.DateSchema | components/lvgl/widgets/calendar.py:39-53 | an accepted date has no keys besides year, month and day, has all three when required, keeps year in 1970..2099, month in 1..12 and day in 1..31, and is truthy exactly when the mapping was non-empty |
| CalendarWidget.ElementsPointwise | components/lvgl/widgets/calendar.py:101-106 | one `{y, m, d}` element per highlighted date, in list order |
| CalendarWidget.DatesToCode | components/lvgl/widgets/calendar.py:80-175 | emits the today call, the shown call and the highlighted array with its call, as `CalendarOps` lists |
| CalendarWidget.SetDate | components/lvgl/widgets/calendar.py:81-92 | a date call is emitted only for a non-empty date, its missing fields filled with 2024, 1 and 1 |
| CalendarWidget.BuildElements | components/lvgl/widgets/calendar.py:101-106 | the loop builds exactly the `Elements` of the highlighted dates |
| CalendarWidget.HighlightedToCode | components/lvgl/widgets/calendar.py:95-115 | a non-empty list emits the static array declaration and one `calendar_set_highlighted_dates` call with the list length; an empty list emits nothing |
| CalendarWidget.ToCode | components/lvgl/widgets/calendar.py:76-115 | adds `CALENDAR` to the required components and emits the dates with the `_highlighted_dates` array name |
| CalendarWidget.UpdateToCode | components/lvgl/widgets/calendar.py:140-175 | the update action emits the same statements with the `_highlighted_dates_update` array name |
| CalendarWidget.DateOps | components/lvgl/widgets/calendar.py:81-92 | the call that sets a date, with 2024-01-01 filling what is missing; CalendarWidget.DateDefaults proves the defaults |
| CalendarWidget.Elements | components/lvgl/widgets/calendar.py:101-106 | the `dates_elements` list; CalendarWidget.ElementsPointwise proves one element per date, in order |
| CalendarWidget.HighlightedOps | components/lvgl/widgets/calendar.py:95-115 | the highlighted-dates array and the call handing it over; CalendarWidget.HighlightedComplete states it |
| CalendarWidget.CalendarOps | components/lvgl/widgets/calendar.py:76-115 | everything `to_code` emits; CalendarWidget.CalendarLayout states it and CalendarWidget.UpdateMirrorsCreate ties the update action to it |
| CalendarWidget.HighlightedComplete | components/lvgl/widgets/calendar.py:39-60 | a highlighted date the required schema accepts has all three fields, each in its range |
| CalendarWidget.DateDefaults | components/lvgl/widgets/calendar.py:81-85 | an empty date mapping sets nothing; a date with only month 5 becomes 2024/5/1 |
| CalendarWidget.CalendarLayout | components/lvgl/widgets/calendar.py:80-115 | with both dates and a non-empty list, four statements in the order today, shown, array, highlight call; the array holds the elements of the dates and is named after the widget; the count is the list length |
| CalendarWidget.UpdateMirrorsCreate | components/lvgl/widgets/calendar.py:76-175 | creation and update emit equally many statements, and identical ones without highlighted dates |
| ChartWidget.Schema | components/lvgl/widgets/chart.py:90-104 | accepted exactly when the type and update mode, upper-cased, are known and the point count is not negative; the defaults are `LINE`, 10 and `SHIFT`; axes and series pass unchanged |
| ChartWidget.HeaderOps | components/lvgl/widgets/chart.py:121-131 | the type, the point count and the update mode are three calls |
| ChartWidget.ConfigureAxis | components/lvgl/widgets/chart.py:152-166 | emits the range and division-line statements of `AxisOps` for one axis |
| ChartWidget.AddSeries | components/lvgl/widgets/chart.py:168-191 | one `chart_add_series` call per series, on the primary Y axis, in red unless a colour is given |
| ChartWidget.ToCode | components/lvgl/widgets/chart.py:117-150 | adds `chart` to the required components and emits the header, the four axes and the series, as `ChartOps` lists |
| ChartWidget.AxesOps | components/lvgl/widgets/chart.py:133-145 | the axes, in the fixed order; ChartWidget.AxesFour and ChartWidget.AxesInOrder state it |
| ChartWidget.SeriesOps | components/lvgl/widgets/chart.py:147-150 | one `chart_add_series` per series, in order; ChartWidget.SeriesInOrder proves it |
| ChartWidget.ChartOps | components/lvgl/widgets/chart.py:117-150 | everything `to_code` emits; ChartWidget.AxesInOrder and ChartWidget.Defaults state it |
| ChartWidget.ConfigureAxes | components/lvgl/widgets/chart.py:133-145 | the four axes are configured in `AxisOrder` |
| ChartWidget.AddAllSeries | components/lvgl/widgets/chart.py:147-150 | one series call per list entry, in list order |
| ChartWidget.Defaults | components/lvgl/widgets/chart.py:92-131 | an empty configuration gives a line chart of 10 points in shift mode |
| ChartWidget.AxisRange | components/lvgl/widgets/chart.py:154-166 | a range is set for an axis exactly when the axis has both bounds, and the division line count is passed twice |
| ChartWidget.SeriesInOrder | components/lvgl/widgets/chart.py:148-178 | one `chart_add_series` per series, the k-th belonging to the k-th series |
| ChartWidget.PointsIgnored | components/lvgl/widgets/chart.py:180-191 | a series' points and type change nothing that is emitted |
| ChartWidget.AxesInOrder | components/lvgl/widgets/chart.py:121-150 | after the three header calls come primary Y, secondary Y, primary X and secondary X, then the series |
| ChartWidget.AxesFour | components/lvgl/widgets/chart.py:133-145 | the axis loop emits the four axes one after the other |
| ListWidget.ItemSchema | components/lvgl/widgets/list.py:27-33 | an item is accepted exactly when its type, lower-cased, is `button` or `text` and it has a text; the accepted item carries the lower-cased type, the text and the optional icon |
| ListWidget.ToCode | components/lvgl/widgets/list.py:52-72 | adds `list` to the required components and emits the item calls of `ListOps`, in item order |
| ListWidget.ItemOp | components/lvgl/widgets/list.py:61-72 | the one operation an item emits; ListWidget.ItemShapes spells out the three shapes |
| ListWidget.ListOps | components/lvgl/widgets/list.py:56-72 | one operation per item, in order; ListWidget.OnePerItem proves it |
| ListWidget.OnePerItem | components/lvgl/widgets/list.py:56-72 | exactly one call per item, the k-th belonging to the k-th item |
| ListWidget.ItemShapes | components/lvgl/widgets/list.py:61-72 | a button item passes its icon, or `NULL` without one, before its text; a text item passes only its text |
| ListWidget.TypeIgnoresCase | components/lvgl/widgets/list.py:29 | the type `BUTTON` is accepted as `button` |
| MenuWidget.Schema | components/lvgl/widgets/menu.py:62-71 | accepted exactly when the mode is absent or, upper-cased, one of `MENU_MODES`; the back button defaults to false and the mode to `HEADER`; pages and sidebar page pass unchanged |
| MenuWidget.PagesOps | components/lvgl/widgets/menu.py:89-91 | each page contributes three statements |
| MenuWidget.CreatePage | components/lvgl/widgets/menu.py:104-120 | the page is created under the menu with its title or `NULL` and kept under its id, then its properties and its children are set on it |
| MenuWidget.ToCode | components/lvgl/widgets/menu.py:84-102 | adds `menu` to the required components and emits the pages, the back-button mode and the sidebar page, as `MenuOps` lists, with the sidebar page's lookup awaited |
| MenuWidget.PagesLayout | components/lvgl/widgets/menu.py:89-120 | page k occupies statements 3k to 3k+2, declared before its properties and children; pages set neither the back-button mode nor the sidebar page |
| MenuWidget.BackButtonAndSidebar | components/lvgl/widgets/menu.py:93-102 | the back-button mode is set exactly once, after every page, enabled exactly when the option is truthy; the sidebar page is set once, last, exactly when one is named (with its lookup awaited) |
| MenuWidget.TailOps | components/lvgl/widgets/menu.py:93-102 | the back-button mode and the sidebar page, with the lookup awaited; MenuWidget.BackButtonAndSidebar states them |
| MenuWidget.MenuOps | components/lvgl/widgets/menu.py:84-102 | everything `to_code` emits, with the sidebar lookup awaited; MenuWidget.PagesLayout and MenuWidget.BackButtonAndSidebar state it |
| MenuWidget.MenuOpsAsWritten | components/lvgl/widgets/menu.py:99-102 | `to_code` as written: the un-awaited sidebar lookup fails code generation; MenuWidget.AsWrittenSidebarFails states when |
| MenuWidget.AsWrittenSidebarFails | components/lvgl/widgets/menu.py:99-102 | as written, code generation fails exactly when a sidebar page is given, and otherwise agrees with the corrected output, whose last call sets the sidebar page |
| MenuWidget.SidebarExample | components/lvgl/widgets/menu.py:99-102 | a menu with one page that is also the sidebar page fails as written, while the corrected output has five operations |
| MenuWidget.PagesInOrder | components/lvgl/widgets/menu.py:89-91 | pages are created in list order |
| MenuWidget.ModeHasNoEffect | components/lvgl/widgets/menu.py:66-102 | the validated mode changes nothing that is emitted |
| MenuWidget.Defaults | components/lvgl/widgets/menu.py:65-68 | without options the back button is disabled and the mode is `HEADER`; `sidebar` in lower case is accepted |
| WinWidget.Schema | components/lvgl/widgets/win.py:47-54 | accepted exactly when the title is given; the header height defaults to 40 |
| WinWidget.ButtonsOps | components/lvgl/widgets/win.py:82-84 | one statement per header button |
| WinWidget.AddHeaderButton | components/lvgl/widgets/win.py:90-110 | one `win_add_button` of width 40 with the icon or `NULL`, kept under the button's id when it has one |
| WinWidget.ToCode | components/lvgl/widgets/win.py:67-84 | adds `win` to the required components, sets the title, then adds the header buttons in order, as `WinOps` lists |
| WinWidget.WinOps | components/lvgl/widgets/win.py:67-84 | everything `to_code` emits; WinWidget.ButtonsInOrder and WinWidget.OneOpPerButton state it |
| WinWidget.ButtonsInOrder | components/lvgl/widgets/win.py:79-110 | the title comes first; then each header button is exactly one statement, in order, creating a width-40 button with its icon or `NULL`, declared under its id exactly when it has a non-empty one |
| WinWidget.OneOpPerButton | components/lvgl/widgets/win.py:82-84 | the k-th statement belongs to the k-th header button |
| WinWidget.HeaderHeightHasNoEffect | components/lvgl/widgets/win.py:51-75 | the header height is validated but nothing emitted depends on it |
| LottieWidget.SourceOf | components/lvgl/widgets/lottie.py:38-52 | a string is a file path and an id names an embedded Lottie file; any other value is refused |
| LottieWidget.Schema | components/lvgl/widgets/lottie.py:56-64 | accepted exactly when the source is absent, a string or an id; autoplay and loop default to true; the source stays absent when it was |
| LottieWidget.ModifySchema | components/lvgl/widgets/lottie.py:66-70 | an update is accepted exactly when it names at most a text source and no other key; it then carries that source as a file path |
| LottieWidget.ToCode | components/lvgl/widgets/lottie.py:83-142 | adds `lottie` to the required components, loads the source, then controls playback, as `LottieOps` lists |
| LottieWidget.SrcOps | components/lvgl/widgets/lottie.py:97-123 | how the animation's source is loaded; LottieWidget.SourceDispatch states which call each source kind gets |
| LottieWidget.AnimOps | components/lvgl/widgets/lottie.py:125-142 | playback control; LottieWidget.Playback and LottieWidget.NoLoadInAnim state it |
| LottieWidget.LottieOps | components/lvgl/widgets/lottie.py:83-142 | everything `to_code` emits; LottieWidget.DefaultsAndUpdate states it |
| LottieWidget.LoadSource | components/lvgl/widgets/lottie.py:97-123 | a path is logged and loaded with `lottie_set_src_file`; an embedded file is logged and loaded with `lottie_set_src_data` from its data and size; no source loads nothing |
| LottieWidget.ControlPlayback | components/lvgl/widgets/lottie.py:125-142 | emits the playback statements of `AnimOps`: nothing when autoplay and loop are both on, otherwise the animation in a local with its deletion or its single repeat |
| LottieWidget.SourceDispatch | components/lvgl/widgets/lottie.py:97-123 | a path is loaded as a file and an embedded file as data, each exactly once; without a source nothing is loaded |
| LottieWidget.NoLoadInAnim | components/lvgl/widgets/lottie.py:125-142 | playback control never loads a source |
| LottieWidget.Playback | components/lvgl/widgets/lottie.py:131-142 | nothing is emitted exactly when autoplay and loop are both on; without autoplay the animation is deleted and no repeat count is set, whatever `loop` says; with autoplay but no loop it plays once and is not deleted |
| LottieWidget.DefaultsAndUpdate | components/lvgl/widgets/lottie.py:56-142 | the defaults loop and emit no playback control; an accepted update only loads its source |
| QrCodeWidget.Schema | components/lvgl/widgets/qrcode.py:17-22 | accepted exactly when the size is given; the dark colour defaults to black and the light colour to white; nothing else changes |
| QrCodeWidget.ModifySchema | components/lvgl/widgets/qrcode.py:24-29 | every update is accepted unchanged: no key is required and none is defaulted |
| QrCodeWidget.SetPropertyIfGiven | components/lvgl/widgets/qrcode.py:46-52 | a property is set exactly when its value is present |
| QrCodeWidget.ToCode | components/lvgl/widgets/qrcode.py:45-59 | sets the light colour, the dark colour and the size when present, then the text, as `QrOps` lists |
| QrCodeWidget.PropertyOps | components/lvgl/widgets/qrcode.py:46-52 | `set_property`, skipping an absent value; QrCodeWidget.SetPropertyIfGiven proves a setter is emitted exactly for a given value |
| QrCodeWidget.TextOps | components/lvgl/widgets/qrcode.py:53-59 | the text update; QrCodeWidget.OneUpdatePerText and QrCodeWidget.TextUpdates state it |
| QrCodeWidget.QrOps | components/lvgl/widgets/qrcode.py:45-59 | everything `to_code` emits; QrCodeWidget.CreationOrder and QrCodeWidget.UpdateSetsOnlyGiven state it |
| QrCodeWidget.CreationOrder | components/lvgl/widgets/qrcode.py:17-59 | on creation the light colour (white by default), the dark colour (black by default) and the size come first, in that order, then the text |
| QrCodeWidget.OneUpdatePerText | components/lvgl/widgets/qrcode.py:53-59 | exactly one `qrcode_update` when there is a text and none otherwise; a literal string passes its own length, any other text the size of the local `std::string` |
| QrCodeWidget.TextUpdates | components/lvgl/widgets/qrcode.py:53-59 | the text's statements hold one `qrcode_update` exactly when a text is given |
| QrCodeWidget.UpdateSetsOnlyGiven | components/lvgl/widgets/qrcode.py:24-59 | an update naming only a text emits only the text's statements |
| SpanWidget.Schema | components/lvgl/widgets/span.py:53-68 | accepted exactly when the mode and every span's decoration, upper-cased, are known; the mode defaults to `BREAK`; every span is kept |
| SpanWidget.SpansCreatedAppend | components/lvgl/widgets/span.py:94-116 | the spans created by two statement lists in sequence add up |
| SpanWidget.AsWrittenCreatesSpanPerStyle | components/lvgl/widgets/span.py:96-116 | as written, one span is created for the text and one more for each of the colour and the decoration |
| SpanWidget.ColoredSpanSplits | components/lvgl/widgets/span.py:96-116 | as written, a red underlined span creates three spans |
| SpanWidget.AddSpanCreatesOne | components/lvgl/widgets/span.py:94-116 | with the span held in a variable exactly one span is created, by the first statement |
| SpanWidget.AddSpanAddressesVar | components/lvgl/widgets/span.py:99-116 | the text, the colour and the decoration all address the variable holding the span, or its style |
| SpanWidget.StyledCreatesNone | components/lvgl/widgets/span.py:99-116 | styling a span through its variable creates no span |
| SpanWidget.AddSpanToCode | components/lvgl/widgets/span.py:94-116 | `_add_span` as intended: emits the span creation into a local, the text, the colour when given and the decoration when given, as `AddSpan` lists |
| SpanWidget.AddSpanAsWritten | components/lvgl/widgets/span.py:96-116 | `_add_span` as written; SpanWidget.AsWrittenCreatesSpanPerStyle proves each statement creates a new span |
| SpanWidget.AddSpan | components/lvgl/widgets/span.py:94-116 | `_add_span` as intended; SpanWidget.AddSpanCreatesOne and SpanWidget.AddSpanAddressesVar prove one span is created and addressed throughout |
| SpanWidget.ToCode | components/lvgl/widgets/span.py:81-92 | adds `spangroup` to the required components, sets the mode, then adds the spans with `_add_span` as intended, as `SpangroupOps` lists |
| SpanWidget.SpangroupOps | components/lvgl/widgets/span.py:81-92 | everything `to_code` emits with `_add_span` as intended; SpanWidget.SpansInOrder and SpanWidget.ModeFirstAndFontIgnored state it |
| SpanWidget.AddSpans | components/lvgl/widgets/span.py:90-92 | the spans are added in list order, each by `_add_span` as intended |
| SpanWidget.SpansInOrder | components/lvgl/widgets/span.py:90-92 | the output for a list of spans is that of its first part followed by that of the rest |
| SpanWidget.ModeFirstAndFontIgnored | components/lvgl/widgets/span.py:65-111 | the mode defaults to `BREAK` and is set first; the font is accepted and emits nothing |
| TableWidget.SchemasAgree | components/lvgl/widgets/table.py:42-59 | the update schema has the same keys as the creation schema, none of them required |
| TableWidget.ToCode | components/lvgl/widgets/table.py:72-99 | adds `TABLE` to the required components and emits the counts, the column widths and the cells, as `TableOps` lists |
| TableWidget.CountOps | components/lvgl/widgets/table.py:76-84 | the row and column counts; TableWidget.ZeroCountsSkipped proves a zero count is not set |
| TableWidget.TableOps | components/lvgl/widgets/table.py:72-99 | everything `to_code` emits; TableWidget.TableLayout, TableWidget.ColumnsInOrder and TableWidget.CellsInOrder state it |
| TableWidget.CountsToCode | components/lvgl/widgets/table.py:76-84 | the row count and the column count are each set only when given and non-zero |
| TableWidget.ColumnsToCode | components/lvgl/widgets/table.py:86-91 | one width call per column entry, in list order |
| TableWidget.CellsToCode | components/lvgl/widgets/table.py:93-99 | one cell call per cell entry, in list order |
| TableWidget.ColumnsInOrder | components/lvgl/widgets/table.py:87-91 | the k-th width call sets the k-th entry's column to its width |
| TableWidget.CellsInOrder | components/lvgl/widgets/table.py:94-99 | the k-th cell call sets the k-th entry's row and column to its text |
| TableWidget.TableLayout | components/lvgl/widgets/table.py:76-99 | the output is the non-zero counts, then one width per column entry, then one call per cell, each in list order |
| TableWidget.ZeroCountsSkipped | components/lvgl/widgets/table.py:77-82 | counts of 0 emit nothing |
| MsgboxWidget.Schema | components/lvgl/widgets/msgbox.py:86-103 | a message box is accepted exactly when it has a title; the body defaults to empty and `close_button` to true, everything else is kept |
| MsgboxWidget.MsgboxToCode | components/lvgl/widgets/msgbox.py:106-169 | adds the flex, button, label and msgbox uses, warns exactly when `button_style` is given, emits the head, the outer style's creation (only if it did not exist) and the body, and leaves the outer style created and unchanged |
| MsgboxWidget.MsgboxOps | components/lvgl/widgets/msgbox.py:106-169 | everything one message box emits; MsgboxWidget.Structure, MsgboxWidget.BodyLayout and MsgboxWidget.CloseBehaviour state it |
| MsgboxWidget.BuildMsgbox | components/lvgl/widgets/msgbox.py:126-169 | the outer object and box, then the shared style's creation, then the box's body, in that order; the outer style exists afterwards |
| MsgboxWidget.OuterStyleVar | components/lvgl/widgets/msgbox.py:41-50 | the shared `msgbox_outer` style's variable, created on first use only |
| MsgboxWidget.AddHead | components/lvgl/widgets/msgbox.py:126-138 | the outer object on the top layer, the box inside it, and the outer object sized to its full parent |
| MsgboxWidget.AddMid | components/lvgl/widgets/msgbox.py:139-145 | the outer object is styled and hidden, the title and text are added, the box is centred and gets its properties and children |
| MsgboxWidget.AddButtons | components/lvgl/widgets/msgbox.py:146-150 | one widget per button, in order, all created on the box |
| MsgboxWidget.AddBody | components/lvgl/widgets/msgbox.py:139-169 | the body: styling, title and text, footer buttons, header buttons, then the close action |
| MsgboxWidget.AddClose | components/lvgl/widgets/msgbox.py:152-169 | the close action, attached to a new close button or else to the outer object |
| MsgboxWidget.MsgboxesToCode | components/lvgl/widgets/msgbox.py:172-175 | the top layer is fetched, then every message box is emitted in order on it |
| MsgboxWidget.MsgboxesOps | components/lvgl/widgets/msgbox.py:172-175 | the message boxes in order; MsgboxWidget.FirstCreatesStyle proves only the first creates the shared style |
| MsgboxWidget.AddMsgboxes | components/lvgl/widgets/msgbox.py:174-175 | every message box in order, only the first creating the outer style; the style stays valid |
| MsgboxWidget.FirstCreatesStyle | components/lvgl/widgets/msgbox.py:139 | the outer style is created once, by the first message box; the later ones only refer to it |
| MsgboxWidget.Structure | components/lvgl/widgets/msgbox.py:127-142 | the outer object is named `<id>_outer` and created on the top layer with the box inside it; it is hidden before the title, which comes before the body text, empty by default |
| MsgboxWidget.ButtonsAndClose | components/lvgl/widgets/msgbox.py:146-169 | footer buttons come first, in order, then header buttons, in order, all on the box; the close action and its attachment end the box's code |
| MsgboxWidget.BodyLayout | components/lvgl/widgets/msgbox.py:139-169 | the positions of the buttons and the close action within the body |
| MsgboxWidget.ButtonsInOrder | components/lvgl/widgets/msgbox.py:146-150 | the k-th button statement creates the k-th button |
| MsgboxWidget.CloseBehaviour | components/lvgl/widgets/msgbox.py:152-169 | the close action hides the outer object; it runs on a click of a new close button exactly when `close_button` is true (the default), and on a click of the outer object otherwise |
| TabviewWidget.Schema | components/lvgl/widgets/tabview.py:38-54 | a tab view is accepted exactly when it has tabs; the position defaults to `top`, the size to `10%`, and an absent tab style is empty |
| TabviewWidget.ToCode | components/lvgl/widgets/tabview.py:78-109 | the bar position and size, the tabs, the tab-bar style and the content style, in that order |
| TabviewWidget.TabviewOps | components/lvgl/widgets/tabview.py:78-109 | everything `to_code` emits; TabviewWidget.TabsLayout, TabviewWidget.ItemsStyleEveryTab and TabviewWidget.ContentStyle state it |
| TabviewWidget.AddTabs | components/lvgl/widgets/tabview.py:83-89 | every tab in order is declared as `nullptr`, assigned the new tab and given its properties and children |
| TabviewWidget.StyleBar | components/lvgl/widgets/tabview.py:90-103 | the tab bar is styled when `tab_style` is non-empty, and the `items` style goes to the button of every tab index when given |
| TabviewWidget.StyleContent | components/lvgl/widgets/tabview.py:105-109 | the content object is styled exactly when a non-empty `content_style` is given |
| TabviewWidget.TabsInOrder | components/lvgl/widgets/tabview.py:79-89 | the position is set before the size, then every tab in order gets its four statements, created with its own name |
| TabviewWidget.TabsLayout | components/lvgl/widgets/tabview.py:83-89 | the k-th group of four tab statements belongs to the k-th tab |
| TabviewWidget.ItemsStyleEveryTab | components/lvgl/widgets/tabview.py:90-103 | nothing without a tab style; with `items`, the style reaches the button of every tab index 0..n-1; without it, only the bar is styled |
| TabviewWidget.ContentStyle | components/lvgl/widgets/tabview.py:105-109 | the content style is applied, to the content object, exactly when it is given and non-empty |
| TabviewWidget.SelectSchema | components/lvgl/widgets/tabview.py:115-125 | the select action is accepted exactly when it has an index and no `tab_id` (an extra key); `animated` defaults to false |
| TabviewWidget.Select | components/lvgl/widgets/tabview.py:130-132 | the tab is selected, then a value-changed event is sent |
| TabviewWidget.SelectOps | components/lvgl/widgets/tabview.py:130-132 | `do_select`: select the tab, then report the change; TabviewWidget.SelectDefaults states it |
| TabviewWidget.SelectDefaults | components/lvgl/widgets/tabview.py:121-132 | without `animated` the tab is selected without animation, and the selection is followed by a value-changed event |
| LottieLoader.FrameDelayClamped | components/lvgl/lottie_loader.h:108-111 | the per-frame delay is the duration divided by the frame count, clamped into [16, 100] ms: equal to the quotient inside the range, 16 below it, 100 above it |
| LottieLoader.FrameDelay | components/lvgl/lottie_loader.h:108-111 | `frame_delay_ms`; LottieLoader.FrameDelayClamped proves it is the per-frame duration clamped into [16, 100] ms |
| LottieLoader.ScaledBelow | components/lvgl/lottie_loader.h:123-133 | a reading before the end of the duration scales to a frame offset below the frame count |
| LottieLoader.ScaledMonotone | components/lvgl/lottie_loader.h:133 | within one run a later reading never gives an earlier frame |
| LottieLoader.Scaled | components/lvgl/lottie_loader.h:123-133 | the frame offset at an elapsed time; LottieLoader.ScaledBelow bounds it and LottieLoader.ScaledMonotone proves it never decreases |
| LottieLoader.StepInRange | components/lvgl/lottie_loader.h:118-134 | in looping mode every reading renders a frame in [start, end); without looping a reading completes exactly when it reached the duration, rendering `end`, and otherwise renders a frame in [start, end) |
| LottieLoader.StepAt | components/lvgl/lottie_loader.h:118-134 | one step of the render loop; LottieLoader.StepInRange proves the frame is in range |
| LottieLoader.FramesInRange | components/lvgl/lottie_loader.h:118-141 | every rendered frame lies in [start, end]; a looping run renders one frame below `end` per reading; a single run ends on `end` exactly when some reading reached the duration |
| LottieLoader.Frames | components/lvgl/lottie_loader.h:118-141 | the frames the loop renders; LottieLoader.FramesInRange proves each is in range |
| LottieLoader.ShouldRender | components/lvgl/lottie_loader.h:95-105 | the render loop is entered only with a callback, a positive duration, an end frame after the start frame and auto-start on |
| LottieLoader.LoadCall | components/lvgl/lottie_loader.h:54-62 | the source the render task loads; LottieLoader.LoadPriority proves the order of preference |
| LottieLoader.LoadPriority | components/lvgl/lottie_loader.h:54-62 | embedded data (with its size) is loaded exactly when present, else a file path exactly when present, else nothing; the object, data, size and path are passed unchanged |
| LottieLoader.RenderTask | components/lvgl/lottie_loader.h:48-141 | the task first loads the source `LoadCall` picks; then, without an exec callback, with a zero duration, with an end frame not after the start frame or with auto-start off nothing is rendered; otherwise the frames rendered for the clock readings are those `Frames` gives |
| LottieLoader.RenderLoop | components/lvgl/lottie_loader.h:118-141 | the render loop entered with a valid animation renders, for the clock readings, exactly the frames `Frames` gives: each in range, one per reading, stopping after the end frame of a run that does not loop (LottieLoader.FramesInRange) |
| LottieLoader.BufferBytesWraps | components/lvgl/lottie_loader.h:184 | the 32-bit `size_t` buffer size is exact exactly when `width * height * 4` fits in 32 bits; a 32768 x 32768 buffer computes to 0 bytes |
| LottieLoader.BufferBytes | components/lvgl/lottie_loader.h:184 | the buffer size as a 32-bit `size_t` computes it; LottieLoader.BufferBytesWraps proves it is exact exactly when the product fits in 32 bits |
| LottieLoader.LottieContext.constructor | components/lvgl/lottie_loader.h:279-292 | the zero-filled context holds the eight configuration fields and no resource |
| LottieLoader.LottieContext.FreeResources | components/lvgl/lottie_loader.h:154-176 | the render task is deleted and the stack, TCB and pixel buffer freed, with the stop flag cleared again |
| LottieLoader.LottieContext.Launch | components/lvgl/lottie_loader.h:182-224 | the launch succeeds exactly when every allocation and the render task creation succeed, and then holds all four with a zeroed buffer handed to LVGL and the widget hidden; a failed buffer allocation changes nothing else; a later failure frees everything; from no buffer it keeps the lifecycle invariant |
| LottieLoader.LottieContext.ScreenUnloadStart | components/lvgl/lottie_loader.h:234-248 | the stop flag is set, the render task deleted and the widget hidden, while the memory stays allocated |
| LottieLoader.LottieContext.ScreenUnloaded | components/lvgl/lottie_loader.h:250-262 | the stack, TCB and buffer are freed and the stop flag cleared; the render task handle is left as it was, so the lifecycle invariant holds afterwards exactly when no task handle remained |
| LottieLoader.LottieContext.ScreenLoaded | components/lvgl/lottie_loader.h:264-269 | with the buffer still present nothing changes; without it the animation is relaunched, holding every resource when every allocation succeeds; the lifecycle invariant is kept |
| LottieLoader.Init | components/lvgl/lottie_loader.h:276-303 | a failed context allocation returns false with no context; otherwise the context holds the configuration, the three screen events are registered and the result is true exactly when the launch succeeded |
| LottieLoader.ScreenCycle | components/lvgl/lottie_loader.h:234-269 | unload start, unloaded and loaded from a running widget free every resource and, with successful allocations, run it again on a fresh zeroed buffer; otherwise nothing stays held |
| FsDriver.Init | components/lvgl/lv_fs_driver.cpp:13-31 | the driver registers drive letter `S` with no cache and the five callbacks open, close, read, seek and tell, each exactly once, in this order |
| FsDriver.FullPath | components/lvgl/lv_fs_driver.cpp:11-35 | the mapped path is the mount point, a slash and the drive path |
| FsDriver.FullPathRoundTrip | components/lvgl/lv_fs_driver.cpp:11-35 | every mapped path starts with `/sdcard/` and the drive path is what follows it |
| FsDriver.FullPathInjective | components/lvgl/lv_fs_driver.cpp:35 | two drive paths map to the same file path exactly when they are equal |
| FsDriver.OpenModeAsWrittenNeverReadOnly | components/lvgl/lv_fs_driver.cpp:37-42 | as written the read-write test `mode == LV_FS_MODE_RD \| LV_FS_MODE_WR` always holds, so `rb` is never chosen and read-only opening uses `r+b` |
| FsDriver.OpenModeIntended | components/lvgl/lv_fs_driver.cpp:37-42 | with the test read as `mode == (RD \| WR)`: write-only opens `wb`, read-write `r+b`, anything else `rb`; this differs from the code as written exactly for the modes other than write-only and read-write |
| FsDriver.ReadWriteTestAsWritten | components/lvgl/lv_fs_driver.cpp:37-42 | the read-write test as C parses it; FsDriver.OpenModeAsWrittenNeverReadOnly proves it always holds |
| FsDriver.OpenModeAsWritten | components/lvgl/lv_fs_driver.cpp:37-42 | the `fopen` mode as written: never `"rb"` |
| FsDriver.OpenMode | components/lvgl/lv_fs_driver.cpp:37-42 | the `fopen` mode as intended; FsDriver.OpenModeIntended proves read gives `"rb"`, write `"wb"`, both `"r+b"` |
| FsDriver.OpenCb | components/lvgl/lv_fs_driver.cpp:33-52 | `fopen` is called with the mapped path and the intended mode string, one of `rb`, `wb`, `r+b`, and the handle it returns (null on failure) is passed back |
| FsDriver.CloseCb | components/lvgl/lv_fs_driver.cpp:54-60 | a handle is closed exactly when it is not null, and the result is always OK |
| FsDriver.ReadCb | components/lvgl/lv_fs_driver.cpp:62-71 | a null handle reads nothing and reports an unknown error; otherwise the count `fread` returned is reported with OK, also on a short read |
| FsDriver.Whence | components/lvgl/lv_fs_driver.cpp:79-84 | `LV_FS_SEEK_CUR` and `LV_FS_SEEK_END` map to `SEEK_CUR` and `SEEK_END`, and every other value to `SEEK_SET` |
| FsDriver.SeekCb | components/lvgl/lv_fs_driver.cpp:73-88 | `fseek` is called exactly when the handle is not null, with the position and the translated whence; the result is OK exactly when it was called and returned 0 |
| FsDriver.TellPosition | components/lvgl/lv_fs_driver.cpp:97 | an `ftell` result that fits in 32 bits is stored unchanged |
| FsDriver.TellCb | components/lvgl/lv_fs_driver.cpp:90-99 | a null handle reports position 0 and an unknown error; otherwise the `ftell` result truncated to 32 bits is reported with OK |
| FsDriver.TellErrorUnreported | components/lvgl/lv_fs_driver.cpp:97-98 | an `ftell` failure (-1) is reported as position `0xFFFFFFFF` with OK |

## Left out

- Code generation's backend (`cg`, `lv`, `lv_expr`, `lv_obj`, `LambdaContext`, `LocalVariable`, `Pvariable`): it is reduced to appending abstract operations to `Emit.Code`. The C++ text it would print, including C string escaping, is not modelled.
- Configuration validation's library (`cv.Schema`, defaults, `one_of`, `ensure_list`): each schema is a function that checks required keys and fills in defaults, and only the checks the core adds are modelled.
- The value converters (`.process()` of `lv_text`, `lv_color`, `size`, `pixels_or_percent` and the others): converted values are the configured values unchanged, because their modules are not part of this model.
- `ALL_STYLES` and `remap_property` come from modules that are not part of this model: they are parameters of the style functions.
- `set_obj_properties`, `add_widgets`, `widget_to_code` and `Widget.set_property` (widgets/__init__.py is not part of this model): each is one abstract operation. `set_property`'s skipping of absent values is modelled only where a widget of this model can pass one: QrCodeWidget.PropertyOps and ImgWidget.PropertyOps.
- `get_uses` of each widget type and `action_to_code`/`get_widgets` of the update actions: these belong to widgets/__init__.py and automation.py. The actions are modelled only by the operations their callbacks emit.
- `style_update_to_code` and `add_top_layer` in styles.py are not modelled. The first wraps `style_set` in a lambda of the backend. The second applies `set_obj_properties` and `add_widgets` to the top layer. Both reduce to abstract operations here.
- lvcode.py, defines.py, schemas.py and lv_validation.py are not part of this model.
- Styles.ItemText: a list item that is not a string renders as the empty string, where Python would raise a `TypeError` when joining.
- Layout.GridFreeSpace: the number inside `FR(n)` is read as decimal digits only. Other spellings that `cv.positive_int` accepts are not modelled.
- ArcLabelWidget: angles, radius and rotation are whole numbers. A fractional rotation and the float arithmetic are not modelled.
- Floating point in general (the gradient's default opacity 1.0, percentages): values are integers or opaque configuration values.
- QrCodeWidget: the length passed with literal text counts characters, not UTF-8 bytes.
- WinWidget: `header_height` is validated but, as in the source, never emitted. `HeaderHeightHasNoEffect` states this.
- MenuWidget: the `mode` key is validated but, as in the source, not used by `to_code`.
- ChartWidget: a series' `id` and `points` are accepted but emit nothing, as in the source, where setting points is commented out. The series' `type` only selects a constant.
- MsgboxWidget: `move_to_foreground` is kept as a widget call without its effect. `Percent100` is the converted size `100%` and is not derived from `1.0`.
- lottie_loader.h's FreeRTOS task creation, deletion and suspension, `vTaskDelay` pacing, `lv_lock`, heap allocation, tick counting and the ThorVG calls are not modelled. What an allocation returns is a parameter, and elapsed time is a sequence of readings.
- LottieLoader.RenderTask: the widget's unhiding before the loop and the delay between frames are not modelled. The frame index is computed over unbounded integers, so the overflow of the 32-bit products and the wrap-around of the 32-bit elapsed counter are not modelled.
- LottieLoader.LottieContext: `data_size` is passed to `lv_lottie_set_src_data` (LottieLoader.LoadCall); only its logging is left out.
- Strings.IsSpace, Strings.IsDigit, Strings.Upper, Strings.Lower: ASCII only, where Python's `\s`, `\d`, `str.strip`, `str.upper` and `str.lower` are Unicode-aware. This affects LayoutGrid.MatchShorthand and its strip, Layout.GridFreeSpace, Layout.CrossDimension, the case-insensitive enumerations (MenuWidget, ListWidget, SpanWidget, ChartWidget and the other widget schemas) and Helpers' printf `\d` matching: non-ASCII digits, spaces and letters are treated as other characters.
- Layout.LayoutText: a dictionary or list `layout` value is shown by a placeholder in the missing-widgets error, not by Python's `repr`.
- lv_fs_driver.cpp's stdio calls and `lv_fs_drv_register`: what `fopen`, `fread`, `fseek` and `ftell` return is a parameter, and the driver's registration is a record of the fields it sets.
- FsDriver.TellCb: `ftell`'s failure value is truncated to 32 bits like any other result and reported with OK, as written.
- The LVGL constants (`LV_FS_MODE_*`, `LV_FS_SEEK_*`, result codes) have their values from LVGL's headers, which are not part of this model.
- widgets/tex3d.py, widgets/container.py, the PPA draw unit, atomic.h and lv_fs_driver.h: these have no behaviour of their own worth modelling (a passthrough, a schema, hardware stubs, declarations).
- `async`/`await`: code generation is sequential, so it is modelled as plain sequential code.
- MenuWidget.ToCode: models the corrected definition, with the sidebar page's lookup awaited; the source as written fails code generation for any sidebar page, which MenuWidget.MenuOpsAsWritten models (see "## Findings").
- MenuWidget.BackButtonAndSidebar: states the corrected sidebar call, with the lookup awaited, for the same reason.
- MenuWidget.MenuOps: the corrected output, with the sidebar lookup awaited; the source as written is MenuWidget.MenuOpsAsWritten.
- MenuWidget.TailOps: the corrected back-button and sidebar calls, with the lookup awaited; the source as written is MenuWidget.MenuOpsAsWritten.
- SpanWidget.AddSpanToCode: models `_add_span` as intended, creating the span once into a local; the source as written, which creates a span per statement, is SpanWidget.AddSpanAsWritten.
- SpanWidget.AddSpans: adds each span by the intended `_add_span`, not SpanWidget.AddSpanAsWritten.
- SpanWidget.ToCode: emits the spans by the intended `_add_span`, not SpanWidget.AddSpanAsWritten.
- SpanWidget.SpangroupOps: the output of `to_code` with the intended `_add_span`, not SpanWidget.AddSpanAsWritten.
- FsDriver.OpenCb: opens with the intended mode, so a read-only open gets `rb`; the source as written gives `r+b`, which is FsDriver.OpenModeAsWritten.

## Findings

| source | as written | input that shows it | evidently intended | confidence | as-written member | corrected member |
|---|---|---|---|---|---|---|
| components/lvgl/lv_fs_driver.cpp:37-42 | `mode == LV_FS_MODE_RD \| LV_FS_MODE_WR` parses as `(mode == LV_FS_MODE_RD) \| LV_FS_MODE_WR`, which is always non-zero | mode `LV_FS_MODE_RD` opens with `"r+b"`, which fails on a read-only file and never reaches the `"rb"` branch | `mode == (LV_FS_MODE_RD \| LV_FS_MODE_WR)`: read-only opens `"rb"`, read-write `"r+b"`, write-only `"wb"` | high; not executed | FsDriver.OpenModeAsWrittenNeverReadOnly | FsDriver.OpenModeIntended |
| components/lvgl/widgets/span.py:96-116 | `span_var` holds the expression `lv_spangroup_new_span(obj)`, not a variable, so each statement that uses it creates a new span | a span with text `hello`, `text_color: red` and `text_decor: UNDERLINE` creates three spans; the text is on the first, the colour and the decoration are on two empty ones | create the span once into a local variable, then set its text, colour and decoration | medium; not executed | SpanWidget.AsWrittenCreatesSpanPerStyle | SpanWidget.AddSpanCreatesOne |
| components/lvgl/widgets/menu.py:99-102 | `cg.get_variable(sidebar_page_id)` is not awaited, so `lv.menu_set_sidebar_page` receives a coroutine, which the expression builder refuses | any menu with `sidebar_page: main_page` naming one of its pages | `await cg.get_variable(sidebar_page_id)`, as every other lookup of a declared variable is written | high; not executed | MenuWidget.AsWrittenSidebarFails | MenuWidget.BackButtonAndSidebar |
