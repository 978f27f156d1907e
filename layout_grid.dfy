/** `GridLayout` of layout.py: the `"<rows>x<cols>"` shorthand and the
    placement of child widgets over a rows-by-columns occupancy matrix.

    The functional specification is `PlaceAll`, a left fold of `Place` over the
    children; the imperative `ValidateGrid` fills an `array2` exactly as the
    source fills `used_cells`, writes auto-placed positions back into the
    children, and is proved to compute what `PlaceAll` computes. */
module LayoutGrid {
  import opened Wrappers
  import opened Strings

  /** A child widget's grid-cell settings after its schema has been applied:
      the optional `grid_cell_row_pos`/`grid_cell_column_pos` and the spans
      (`cv.positive_int`, default 1; zero is admitted). */
  datatype Child = Child(rowPos: Option<nat>, colPos: Option<nat>, rowSpan: nat, colSpan: nat)
  {
    predicate Positioned() { rowPos.Some? && colPos.Some? }
    /** Exactly one of the two positions is given. */
    predicate Mixed() { rowPos.Some? != colPos.Some? }
  }

  /** The rectangle a positioned child claims. */
  datatype Span = Span(row: nat, col: nat, rowSpan: nat, colSpan: nat)

  function SpanOf(w: Child): Span
    requires w.Positioned()
  {
    Span(w.rowPos.value, w.colPos.value, w.rowSpan, w.colSpan)
  }

  predicate Covers(s: Span, r: int, c: int) {
    s.row <= r < s.row + s.rowSpan && s.col <= c < s.col + s.colSpan
  }

  predicate ChildCovers(w: Child, r: int, c: int) {
    w.Positioned() && Covers(SpanOf(w), r, c)
  }

  /** The `cv.Invalid` errors of `GridLayout.validate`; all but `BadShorthand`
      carry the path `[widgets, index]`, `BadShorthand` the path `[layout]`. */
  datatype GridError =
    | BadShorthand
    | MixedPosition(index: nat)
    | NoFreeCells(index: nat)
    | ExceedsGrid(index: nat, span: Span, rows: nat, cols: nat)
    | AlreadyOccupied(index: nat, row: nat, col: nat, occupant: nat)

  /** The `layout` dictionary of a grid container. */
  datatype GridConf = GridConf(rows: seq<string>, columns: seq<string>, multiple: bool)

  /** What `validate` may find under `layout`: the shorthand string or a grid
      dictionary. */
  datatype GridInput = Shorthand(text: string) | GridDict(conf: GridConf)

  const FrOne := "LV_GRID_FR(1)"

  /** `[x] * n`. */
  function Repeat(x: string, n: nat): (r: seq<string>)
    ensures |r| == n && forall i :: 0 <= i < n ==> r[i] == x
  {
    seq(n, _ => x)
  }

  // ---------------------------------------------------------------------------
  // The shorthand

  /** `(\d+)\s*x\s*(\d+)` matched against the whole of `t`: the greedy runs can
      never give back a character, since neither a digit nor whitespace is `x`. */
  function MatchCore(t: string): Option<(nat, nat)> {
    var n1 := LeadingDigits(t);
    if n1 == 0 then None else MatchAfterRows(DigitsValue(t[..n1]), t[n1..])
  }

  /** `\s*x\s*(\d+)` against the whole of `t`, after the row count. */
  function MatchAfterRows(rows: nat, t: string): Option<(nat, nat)> {
    var t2 := t[LeadingSpaces(t)..];
    if |t2| == 0 || t2[0] != 'x' then None else MatchCols(rows, t2[1..])
  }

  /** `\s*(\d+)` against the whole of `t`, after the `x`. */
  function MatchCols(rows: nat, t: string): Option<(nat, nat)> {
    var t4 := t[LeadingSpaces(t)..];
    if |t4| == 0 || !AllDigits(t4) then None else Some((rows, DigitsValue(t4)))
  }

  /** `_GRID_LAYOUT_REGEX.match(s)`, `^\s*(\d+)\s*x\s*(\d+)\s*$`: the anchored
      `\s*` at either end absorb exactly the whitespace `strip()` removes. */
  function MatchShorthand(s: string): Option<(nat, nat)> {
    MatchCore(Strip(s))
  }

  lemma MatchColsOf(rows: nat, sp: string, d: string)
    requires AllSpace(sp) && |d| > 0 && AllDigits(d)
    ensures MatchCols(rows, sp + d) == Some((rows, DigitsValue(d)))
  {
    LeadingSpacesOf(sp, d);
    assert (sp + d)[|sp|..] == d;
  }

  lemma MatchAfterRowsOf(rows: nat, sp1: string, sp2: string, d: string)
    requires AllSpace(sp1) && AllSpace(sp2) && |d| > 0 && AllDigits(d)
    ensures MatchAfterRows(rows, sp1 + ("x" + (sp2 + d))) == Some((rows, DigitsValue(d)))
  {
    var r2 := "x" + (sp2 + d);
    LeadingSpacesOf(sp1, r2);
    assert (sp1 + r2)[|sp1|..] == r2;
    assert r2[1..] == sp2 + d;
    MatchColsOf(rows, sp2, d);
  }

  /** The pattern's three parts, read back from their concatenation. */
  lemma MatchCoreOf(d1: string, sp1: string, sp2: string, d2: string)
    requires |d1| > 0 && AllDigits(d1) && |d2| > 0 && AllDigits(d2)
    requires AllSpace(sp1) && AllSpace(sp2)
    ensures MatchCore(d1 + sp1 + "x" + sp2 + d2) == Some((DigitsValue(d1), DigitsValue(d2)))
  {
    var r1 := sp1 + ("x" + (sp2 + d2));
    assert d1 + sp1 + "x" + sp2 + d2 == d1 + r1;
    assert r1[0] == if |sp1| > 0 then sp1[0] else 'x';
    LeadingDigitsOf(d1, r1);
    assert (d1 + r1)[|d1|..] == r1 && (d1 + r1)[..|d1|] == d1;
    MatchAfterRowsOf(DigitsValue(d1), sp1, sp2, d2);
  }

  /** The shorthand written as `str(rows) + sp1 + "x" + sp2 + str(cols)` is read
      back as `(rows, cols)`. */
  lemma MatchCoreRoundTrip(rows: nat, sp1: string, sp2: string, cols: nat)
    requires AllSpace(sp1) && AllSpace(sp2)
    ensures MatchCore(NatToString(rows) + sp1 + "x" + sp2 + NatToString(cols)) == Some((rows, cols))
  {
    MatchCoreOf(NatToString(rows), sp1, sp2, NatToString(cols));
    NatToStringRoundTrip(rows);
    NatToStringRoundTrip(cols);
  }

  /** `validate` strips the string before matching it; the match of the
      stripped string is the match of the original one. */
  lemma MatchShorthandOfStripped(s: string)
    ensures MatchShorthand(Strip(s)) == MatchShorthand(s)
  {
    StripIdempotent(s);
  }

  /** The layout dictionary `validate` works on: the shorthand becomes `rows`
      and `columns` lists of `"LV_GRID_FR(1)"`, with no
      `multiple_widgets_per_cell` key; a string that does not match is
      rejected. */
  function ExpandLayout(layout: GridInput): (r: Result<GridConf, GridError>)
    ensures layout.Shorthand? ==> (r.Ok? <==> MatchShorthand(layout.text).Some?)
    ensures layout.Shorthand? && r.Ok? ==>
      var (rows, cols) := MatchShorthand(layout.text).value;
      r.value == GridConf(Repeat(FrOne, rows), Repeat(FrOne, cols), false)
    ensures layout.GridDict? ==> r == Ok(layout.conf)
  {
    match layout
    case GridDict(conf) => Ok(conf)
    case Shorthand(text) =>
      MatchShorthandOfStripped(text);
      match MatchShorthand(Strip(text))
      case None => Err(BadShorthand)
      case Some((rows, cols)) => Ok(GridConf(Repeat(FrOne, rows), Repeat(FrOne, cols), false))
  }

  // ---------------------------------------------------------------------------
  // The occupancy matrix

  /** `used_cells`: `None` for a free cell, the occupying child's index otherwise. */
  type Grid = seq<seq<Option<nat>>>

  predicate IsRect(g: Grid, cols: nat) {
    forall r :: 0 <= r < |g| ==> |g[r]| == cols
  }

  predicate InGrid(g: Grid, cols: nat, r: int, c: int) {
    0 <= r < |g| && 0 <= c < cols
  }

  /** `[[None] * columns for _ in range(rows)]`. */
  function EmptyGrid(rows: nat, cols: nat): (g: Grid)
    ensures |g| == rows && IsRect(g, cols)
    ensures forall r, c :: InGrid(g, cols, r, c) ==> g[r][c].None?
  {
    seq(rows, _ => seq(cols, _ => None))
  }

  /** `used_cells[r][c] = v`. */
  function SetCell(g: Grid, cols: nat, r: nat, c: nat, v: Option<nat>): (g': Grid)
    requires IsRect(g, cols) && InGrid(g, cols, r, c)
    ensures |g'| == |g| && IsRect(g', cols)
    ensures forall r', c' :: InGrid(g, cols, r', c') ==>
      g'[r'][c'] == if r' == r && c' == c then v else g[r'][c']
  {
    g[r := g[r][c := v]]
  }

  /** Row-major order: cell (r1, c1) comes no later than cell (r2, c2). */
  predicate NotAfter(r1: int, c1: int, r2: int, c2: int) {
    r1 < r2 || (r1 == r2 && c1 <= c2)
  }

  /** The first free cell at or after (r, c), scanning row by row: the generator
      `next((r, c) for r, row in ... for c, value in ... if value is None)`. */
  function FirstFreeFrom(g: Grid, cols: nat, r: nat, c: nat): Option<(nat, nat)>
    requires IsRect(g, cols) && c <= cols
    decreases |g| - r, cols - c
  {
    if r >= |g| then None
    else if c == cols then FirstFreeFrom(g, cols, r + 1, 0)
    else if g[r][c].None? then Some((r, c))
    else FirstFreeFrom(g, cols, r, c + 1)
  }

  function FirstFree(g: Grid, cols: nat): Option<(nat, nat)>
    requires IsRect(g, cols)
  {
    FirstFreeFrom(g, cols, 0, 0)
  }

  lemma {:induction false} FirstFreeFromSpec(g: Grid, cols: nat, r: nat, c: nat)
    requires IsRect(g, cols) && c <= cols
    ensures var p := FirstFreeFrom(g, cols, r, c);
      && (p.None? <==> forall r', c' :: InGrid(g, cols, r', c') && NotAfter(r, c, r', c') ==> g[r'][c'].Some?)
      && (p.Some? ==>
            && InGrid(g, cols, p.value.0, p.value.1) && g[p.value.0][p.value.1].None?
            && NotAfter(r, c, p.value.0, p.value.1)
            && forall r', c' ::
                 (InGrid(g, cols, r', c') && NotAfter(r, c, r', c') && !NotAfter(p.value.0, p.value.1, r', c'))
                 ==> g[r'][c'].Some?)
    decreases |g| - r, cols - c
  {
    if r >= |g| {
    } else if c == cols {
      FirstFreeFromSpec(g, cols, r + 1, 0);
    } else if g[r][c].None? {
    } else {
      FirstFreeFromSpec(g, cols, r, c + 1);
    }
  }

  /** The auto-placement target is the first free cell in row-major order, and
      there is none exactly when every cell is taken. */
  lemma FirstFreeSpec(g: Grid, cols: nat)
    requires IsRect(g, cols)
    ensures var p := FirstFree(g, cols);
      && (p.None? <==> forall r, c :: InGrid(g, cols, r, c) ==> g[r][c].Some?)
      && (p.Some? ==>
            && InGrid(g, cols, p.value.0, p.value.1) && g[p.value.0][p.value.1].None?
            && forall r, c :: InGrid(g, cols, r, c) && !NotAfter(p.value.0, p.value.1, r, c) ==> g[r][c].Some?)
  {
    FirstFreeFromSpec(g, cols, 0, 0);
  }

  /** Cell (r, c) of span `s` at offset (i, j) or later in the nested
      `for i ... for j ...` loops. */
  predicate CoversFrom(s: Span, i: int, j: int, r: int, c: int) {
    Covers(s, r, c) && NotAfter(i, j, r - s.row, c - s.col)
  }

  /** The span loops of `validate` from offset (i, j) on: each cell is
      bounds-checked, then (unless several widgets per cell are allowed)
      checked for an occupant, then marked with the child's index. */
  function MarkFrom(g: Grid, cols: nat, index: nat, s: Span, allow: bool, i: nat, j: nat): (res: Result<Grid, GridError>)
    requires IsRect(g, cols) && j <= s.colSpan
    ensures res.Ok? ==> |res.value| == |g| && IsRect(res.value, cols)
    decreases s.rowSpan - i, s.colSpan - j
  {
    if i >= s.rowSpan then Ok(g)
    else if j == s.colSpan then MarkFrom(g, cols, index, s, allow, i + 1, 0)
    else
      var r, c := s.row + i, s.col + j;
      if r >= |g| || c >= cols then Err(ExceedsGrid(index, s, |g|, cols))
      else if !allow && g[r][c].Some? then Err(AlreadyOccupied(index, r, c, g[r][c].value))
      else MarkFrom(SetCell(g, cols, r, c, Some(index)), cols, index, s, allow, i, j + 1)
  }

  /** The span loops succeed iff every remaining cell is inside the grid and,
      unless `allow`, free; on success exactly those cells hold the child's
      index and every other cell is unchanged. */
  lemma {:induction false} MarkFromSpec(g: Grid, cols: nat, index: nat, s: Span, allow: bool, i: nat, j: nat)
    requires IsRect(g, cols) && j <= s.colSpan
    ensures var res := MarkFrom(g, cols, index, s, allow, i, j);
      && (res.Ok? <==> forall r, c :: CoversFrom(s, i, j, r, c) ==> InGrid(g, cols, r, c) && (allow || g[r][c].None?))
      && (res.Ok? ==> forall r, c :: InGrid(g, cols, r, c) ==>
            res.value[r][c] == if CoversFrom(s, i, j, r, c) then Some(index) else g[r][c])
    decreases s.rowSpan - i, s.colSpan - j, 1
  {
    if i >= s.rowSpan {
      assert forall r, c :: !CoversFrom(s, i, j, r, c);
    } else if j == s.colSpan {
      MarkFromSpec(g, cols, index, s, allow, i + 1, 0);
      assert forall r, c :: CoversFrom(s, i, j, r, c) <==> CoversFrom(s, i + 1, 0, r, c);
    } else {
      var r0, c0 := s.row + i, s.col + j;
      assert CoversFrom(s, i, j, r0, c0);
      if r0 < |g| && c0 < cols && (allow || g[r0][c0].None?) {
        MarkFromCell(g, cols, index, s, allow, i, j);
      }
    }
  }

  /** The step of MarkFromSpec that marks a cell inside the grid. */
  lemma {:induction false} MarkFromCell(g: Grid, cols: nat, index: nat, s: Span, allow: bool, i: nat, j: nat)
    requires IsRect(g, cols) && i < s.rowSpan && j < s.colSpan
    requires s.row + i < |g| && s.col + j < cols && (allow || g[s.row + i][s.col + j].None?)
    ensures var res := MarkFrom(g, cols, index, s, allow, i, j);
      && (res.Ok? <==> forall r, c :: CoversFrom(s, i, j, r, c) ==> InGrid(g, cols, r, c) && (allow || g[r][c].None?))
      && (res.Ok? ==> forall r, c :: InGrid(g, cols, r, c) ==>
            res.value[r][c] == if CoversFrom(s, i, j, r, c) then Some(index) else g[r][c])
    decreases s.rowSpan - i, s.colSpan - j, 0
  {
    var r0, c0 := s.row + i, s.col + j;
    var g1 := SetCell(g, cols, r0, c0, Some(index));
    assert MarkFrom(g, cols, index, s, allow, i, j) == MarkFrom(g1, cols, index, s, allow, i, j + 1);
    MarkFromSpec(g1, cols, index, s, allow, i, j + 1);
    assert forall r, c :: CoversFrom(s, i, j, r, c) <==> (r == r0 && c == c0) || CoversFrom(s, i, j + 1, r, c);
    assert forall r, c :: CoversFrom(s, i, j + 1, r, c) && InGrid(g, cols, r, c) ==> g1[r][c] == g[r][c];
    if forall r, c :: CoversFrom(s, i, j, r, c) ==> InGrid(g, cols, r, c) && (allow || g[r][c].None?) {
      forall r, c | CoversFrom(s, i, j + 1, r, c)
        ensures InGrid(g1, cols, r, c) && (allow || g1[r][c].None?)
      {
        assert CoversFrom(s, i, j, r, c);
      }
    }
    if forall r, c :: CoversFrom(s, i, j + 1, r, c) ==> InGrid(g1, cols, r, c) && (allow || g1[r][c].None?) {
      forall r, c | CoversFrom(s, i, j, r, c)
        ensures InGrid(g, cols, r, c) && (allow || g[r][c].None?)
      {
        if r != r0 || c != c0 {
          assert CoversFrom(s, i, j + 1, r, c);
        }
      }
    }
  }

  /** A failing span loop reports the child's index and either a spanned cell
      outside the grid (with the span and the grid size) or, when several
      widgets per cell are not allowed, a spanned cell and its occupant. */
  lemma {:induction false} MarkFromErr(g: Grid, cols: nat, index: nat, s: Span, allow: bool, i: nat, j: nat)
    requires IsRect(g, cols) && j <= s.colSpan
    ensures var res := MarkFrom(g, cols, index, s, allow, i, j);
      res.Err? ==> match res.error
        case ExceedsGrid(k, sp, rows, cs) =>
          k == index && sp == s && rows == |g| && cs == cols
          && exists r, c :: CoversFrom(s, i, j, r, c) && !InGrid(g, cols, r, c)
        case AlreadyOccupied(k, r, c, o) =>
          k == index && !allow && CoversFrom(s, i, j, r, c) && InGrid(g, cols, r, c) && g[r][c] == Some(o)
        case _ => false
    decreases s.rowSpan - i, s.colSpan - j
  {
    if i >= s.rowSpan {
    } else if j == s.colSpan {
      MarkFromErr(g, cols, index, s, allow, i + 1, 0);
      var res := MarkFrom(g, cols, index, s, allow, i + 1, 0);
      if res.Err? && res.error.ExceedsGrid? {
        var r1, c1 :| CoversFrom(s, i + 1, 0, r1, c1) && !InGrid(g, cols, r1, c1);
        assert CoversFrom(s, i, j, r1, c1);
      }
    } else {
      var r0, c0 := s.row + i, s.col + j;
      assert CoversFrom(s, i, j, r0, c0);
      if r0 >= |g| || c0 >= cols {
      } else if !allow && g[r0][c0].Some? {
      } else {
        var g1 := SetCell(g, cols, r0, c0, Some(index));
        MarkFromErr(g1, cols, index, s, allow, i, j + 1);
        var res := MarkFrom(g1, cols, index, s, allow, i, j + 1);
        if res.Err? && res.error.ExceedsGrid? {
          var r1, c1 :| CoversFrom(s, i, j + 1, r1, c1) && !InGrid(g1, cols, r1, c1);
          assert CoversFrom(s, i, j, r1, c1);
        }
        if res.Err? && res.error.AlreadyOccupied? {
          var AlreadyOccupied(_, r1, c1, _) := res.error;
          assert CoversFrom(s, i, j, r1, c1);
          assert g1[r1][c1] == g[r1][c1];
        }
      }
    }
  }

  // ---------------------------------------------------------------------------
  // Placing the children

  /** The child with its position resolved: an explicit position is kept, a
      missing one becomes the first free cell, written back into the child. */
  function Resolve(g: Grid, cols: nat, index: nat, w: Child): Result<Child, GridError>
    requires IsRect(g, cols)
  {
    if w.Positioned() then Ok(w)
    else match FirstFree(g, cols)
      case None => Err(NoFreeCells(index))
      case Some((r, c)) => Ok(w.(rowPos := Some(r), colPos := Some(c)))
  }

  /** One iteration of the loop over `config[widgets]`. */
  function Place(g: Grid, cols: nat, index: nat, w: Child, allow: bool): Result<(Grid, Child), GridError>
    requires IsRect(g, cols)
  {
    if w.Mixed() then Err(MixedPosition(index))
    else match Resolve(g, cols, index, w)
      case Err(e) => Err(e)
      case Ok(w') =>
        if !w'.Positioned() then Err(NoFreeCells(index))  // not reached: Resolve positions the child
        else match MarkFrom(g, cols, index, SpanOf(w'), allow, 0, 0)
          case Err(e) => Err(e)
          case Ok(g') => Ok((g', w'))
  }

  /** The whole loop: the occupancy matrix and the children after placement,
      or the first error. */
  function PlaceAll(rows: nat, cols: nat, allow: bool, ws: seq<Child>): (res: Result<(Grid, seq<Child>), GridError>)
    ensures res.Ok? ==> |res.value.0| == rows && IsRect(res.value.0, cols) && |res.value.1| == |ws|
    decreases |ws|
  {
    if |ws| == 0 then Ok((EmptyGrid(rows, cols), []))
    else match PlaceAll(rows, cols, allow, ws[..|ws| - 1])
      case Err(e) => Err(e)
      case Ok((g, out)) =>
        match Place(g, cols, |ws| - 1, ws[|ws| - 1], allow)
        case Err(e) => Err(e)
        case Ok((g', w')) => Ok((g', out + [w']))
  }

  /** `GridLayout.validate`: the expanded layout and the children with their
      positions filled in. */
  function ValidateGridSpec(layout: GridInput, ws: seq<Child>): Result<(GridConf, seq<Child>), GridError> {
    match ExpandLayout(layout)
    case Err(e) => Err(e)
    case Ok(conf) =>
      match PlaceAll(|conf.rows|, |conf.columns|, conf.multiple, ws)
      case Err(e) => Err(e)
      case Ok((_, out)) => Ok((conf, out))
  }

  // ---------------------------------------------------------------------------
  // What placement guarantees

  /** Covering (0, 0) onwards is covering. */
  lemma CoversFromStart(s: Span)
    ensures forall r, c :: CoversFrom(s, 0, 0, r, c) <==> Covers(s, r, c)
  {
  }

  /** One child's placement: a mixed position is rejected; otherwise the child
      keeps its explicit position or takes the first free cell, every cell it
      spans lies inside the grid and (unless `allow`) was free, those cells now
      hold its index and no other cell changes. */
  lemma PlaceSpec(g: Grid, cols: nat, index: nat, w: Child, allow: bool)
    requires IsRect(g, cols)
    ensures var res := Place(g, cols, index, w, allow);
      && (w.Mixed() ==> res == Err(MixedPosition(index)))
      && (!w.Mixed() && !w.Positioned() && FirstFree(g, cols).None? ==> res == Err(NoFreeCells(index)))
      && (res.Ok? <==>
            && !w.Mixed()
            && (w.Positioned() || FirstFree(g, cols).Some?)
            && forall r, c :: Covers(SpanOf(Resolve(g, cols, index, w).value), r, c) ==>
                 InGrid(g, cols, r, c) && (allow || g[r][c].None?))
      && (res.Ok? ==>
            var (g', w') := res.value;
            && w'.Positioned() && w'.rowSpan == w.rowSpan && w'.colSpan == w.colSpan
            && (w.Positioned() ==> w' == w)
            && (!w.Positioned() ==> FirstFree(g, cols) == Some((w'.rowPos.value, w'.colPos.value)))
            && |g'| == |g| && IsRect(g', cols)
            && (forall r, c :: ChildCovers(w', r, c) ==> InGrid(g, cols, r, c) && (allow || g[r][c].None?))
            && forall r, c :: InGrid(g, cols, r, c) ==>
                 g'[r][c] == if ChildCovers(w', r, c) then Some(index) else g[r][c])
      && (res.Err? && res.error.AlreadyOccupied? ==>
            var AlreadyOccupied(k, r, c, o) := res.error;
            k == index && !allow && InGrid(g, cols, r, c) && g[r][c] == Some(o))
  {
    if !w.Mixed() && (w.Positioned() || FirstFree(g, cols).Some?) {
      var w' := Resolve(g, cols, index, w).value;
      CoversFromStart(SpanOf(w'));
      MarkFromSpec(g, cols, index, SpanOf(w'), allow, 0, 0);
      MarkFromErr(g, cols, index, SpanOf(w'), allow, 0, 0);
    }
  }

  /** The index of the last child whose span covers cell (r, c), if any. */
  function LastCovering(out: seq<Child>, r: int, c: int): (k: Option<nat>)
    ensures k.Some? ==> k.value < |out| && ChildCovers(out[k.value], r, c)
    ensures k.Some? ==> forall k' :: k.value < k' < |out| ==> !ChildCovers(out[k'], r, c)
    ensures k.None? <==> forall k' :: 0 <= k' < |out| ==> !ChildCovers(out[k'], r, c)
    decreases |out|
  {
    if |out| == 0 then None
    else if ChildCovers(out[|out| - 1], r, c) then Some(|out| - 1)
    else LastCovering(out[..|out| - 1], r, c)
  }

  /** A prefix of the children is placed as the whole list places it, and an
      error in a prefix is the error of the whole list. */
  lemma {:induction false} PlaceAllPrefix(rows: nat, cols: nat, allow: bool, ws: seq<Child>, k: nat)
    requires k <= |ws|
    ensures PlaceAll(rows, cols, allow, ws).Ok? ==>
      PlaceAll(rows, cols, allow, ws[..k]).Ok?
      && PlaceAll(rows, cols, allow, ws[..k]).value.1 == PlaceAll(rows, cols, allow, ws).value.1[..k]
    ensures PlaceAll(rows, cols, allow, ws[..k]).Err? ==>
      PlaceAll(rows, cols, allow, ws) == PlaceAll(rows, cols, allow, ws[..k])
    decreases |ws|
  {
    if k < |ws| {
      var n := |ws| - 1;
      assert ws[..n][..k] == ws[..k];
      PlaceAllPrefix(rows, cols, allow, ws[..n], k);
      if PlaceAll(rows, cols, allow, ws).Ok? {
        var out := PlaceAll(rows, cols, allow, ws).value.1;
        assert out[..n][..k] == out[..k];
      }
    } else {
      assert ws[..k] == ws;
    }
  }

  /** What the loop establishes for every child: it had both positions or
      neither, and it ends up positioned, with its spans unchanged and an
      explicit position kept. */
  lemma {:induction false} PlaceAllChildren(rows: nat, cols: nat, allow: bool, ws: seq<Child>)
    ensures var res := PlaceAll(rows, cols, allow, ws);
      res.Ok? ==> forall k :: 0 <= k < |ws| ==>
        var w' := res.value.1[k];
        && !ws[k].Mixed()
        && w'.Positioned() && w'.rowSpan == ws[k].rowSpan && w'.colSpan == ws[k].colSpan
        && (ws[k].Positioned() ==> w' == ws[k])
    decreases |ws|
  {
    if |ws| > 0 {
      var n := |ws| - 1;
      PlaceAllChildren(rows, cols, allow, ws[..n]);
      var prev := PlaceAll(rows, cols, allow, ws[..n]);
      if prev.Ok? {
        PlaceSpec(prev.value.0, cols, n, ws[n], allow);
      }
    }
  }

  /** Every cell a placed child spans lies inside the grid, and every cell of
      the matrix holds the index of the last child spanning it (`None` if
      there is none): with several widgets per cell the later child wins. */
  lemma {:induction false} PlaceAllGrid(rows: nat, cols: nat, allow: bool, ws: seq<Child>)
    ensures var res := PlaceAll(rows, cols, allow, ws);
      res.Ok? ==>
        var (g, out) := res.value;
        && (forall k, r, c :: 0 <= k < |out| && ChildCovers(out[k], r, c) ==> InGrid(g, cols, r, c))
        && (forall r, c :: InGrid(g, cols, r, c) ==> g[r][c] == LastCovering(out, r, c))
    decreases |ws|
  {
    if |ws| > 0 {
      var n := |ws| - 1;
      PlaceAllGrid(rows, cols, allow, ws[..n]);
      var prev := PlaceAll(rows, cols, allow, ws[..n]);
      var res := PlaceAll(rows, cols, allow, ws);
      if prev.Ok? && res.Ok? {
        var (g0, out0) := prev.value;
        PlaceSpec(g0, cols, n, ws[n], allow);
        var (g, out) := res.value;
        var pl := Place(g0, cols, n, ws[n], allow);
        assert pl.Ok? && pl.value == (g, out[n]);
        assert out == out0 + [out[n]];
        assert out[..n] == out0;
        forall k, r, c | 0 <= k < |out| && ChildCovers(out[k], r, c)
          ensures InGrid(g, cols, r, c)
        {
          if k < n {
            assert out[k] == out0[k];
            assert InGrid(g0, cols, r, c);
          } else {
            assert ChildCovers(pl.value.1, r, c);
            assert InGrid(g0, cols, r, c);
          }
          assert |g| == |g0|;
        }
      }
    }
  }

  /** Without `multiple_widgets_per_cell` no two children share a cell. */
  lemma {:induction false} PlaceAllExclusive(rows: nat, cols: nat, ws: seq<Child>)
    ensures var res := PlaceAll(rows, cols, false, ws);
      res.Ok? ==> forall k1, k2, r, c ::
        0 <= k1 < k2 < |ws| && ChildCovers(res.value.1[k1], r, c) ==> !ChildCovers(res.value.1[k2], r, c)
    decreases |ws|
  {
    if |ws| > 0 {
      var n := |ws| - 1;
      PlaceAllExclusive(rows, cols, ws[..n]);
      PlaceAllGrid(rows, cols, false, ws[..n]);
      var prev := PlaceAll(rows, cols, false, ws[..n]);
      var res := PlaceAll(rows, cols, false, ws);
      if prev.Ok? && res.Ok? {
        var (g0, out0) := prev.value;
        PlaceSpec(g0, cols, n, ws[n], false);
        var out := res.value.1;
        assert out[..n] == out0;
        forall k1, k2, r, c | 0 <= k1 < k2 < |ws| && ChildCovers(out[k1], r, c)
          ensures !ChildCovers(out[k2], r, c)
        {
          assert out[k1] == out0[k1];
          if k2 < n {
            assert out[k2] == out0[k2];
          }
        }
      }
    }
  }

  /** An auto-placed child lands on the first cell, in row-major order, that
      no earlier child covers. */
  lemma AutoPlacement(rows: nat, cols: nat, allow: bool, ws: seq<Child>, k: nat)
    requires k < |ws| && !ws[k].Positioned()
    ensures var res := PlaceAll(rows, cols, allow, ws);
      res.Ok? ==>
        var out := res.value.1;
        && out[k].Positioned()
        && var (r, c) := (out[k].rowPos.value, out[k].colPos.value);
        && r < rows && c < cols
        && LastCovering(out[..k], r, c).None?
        && forall r', c' :: 0 <= r' < rows && 0 <= c' < cols && !NotAfter(r, c, r', c') ==>
             LastCovering(out[..k], r', c').Some?
  {
    var res := PlaceAll(rows, cols, allow, ws);
    if res.Ok? {
      var out := res.value.1;
      PlaceAllChildren(rows, cols, allow, ws);
      PlaceAllPrefix(rows, cols, allow, ws, k + 1);
      var p := ws[..k + 1];
      assert p[..k] == ws[..k] && p[k] == ws[k];
      PlaceAllPrefix(rows, cols, allow, ws, k);
      var (g0, out0) := PlaceAll(rows, cols, allow, ws[..k]).value;
      assert out0 == out[..k];
      PlaceAllGrid(rows, cols, allow, ws[..k]);
      PlaceSpec(g0, cols, k, ws[k], allow);
      FirstFreeSpec(g0, cols);
      assert PlaceAll(rows, cols, allow, p).value.1[k] == out[k];
    }
  }

  /** A child with neither position is rejected with "No free cells" when
      every cell is already covered, whether or not several widgets per cell
      are allowed. */
  lemma NoFreeCellsWhenFull(rows: nat, cols: nat, allow: bool, ws: seq<Child>, k: nat)
    requires k < |ws| && ws[k].rowPos.None? && ws[k].colPos.None?
    requires PlaceAll(rows, cols, allow, ws[..k]).Ok?
    requires forall r, c :: 0 <= r < rows && 0 <= c < cols ==>
      LastCovering(PlaceAll(rows, cols, allow, ws[..k]).value.1, r, c).Some?
    ensures PlaceAll(rows, cols, allow, ws) == Err(NoFreeCells(k))
  {
    var (g0, out0) := PlaceAll(rows, cols, allow, ws[..k]).value;
    PlaceAllGrid(rows, cols, allow, ws[..k]);
    FirstFreeSpec(g0, cols);
    PlaceSpec(g0, cols, k, ws[k], allow);
    var p := ws[..k + 1];
    assert p[..k] == ws[..k] && p[k] == ws[k];
    PlaceAllPrefix(rows, cols, allow, ws, k + 1);
  }

  /** A child giving exactly one of the two positions is rejected with its
      index. */
  lemma MixedRejected(rows: nat, cols: nat, allow: bool, ws: seq<Child>, k: nat)
    requires k < |ws| && ws[k].Mixed()
    requires PlaceAll(rows, cols, allow, ws[..k]).Ok?
    ensures PlaceAll(rows, cols, allow, ws) == Err(MixedPosition(k))
  {
    var p := ws[..k + 1];
    assert p[..k] == ws[..k] && p[k] == ws[k];
    PlaceAllPrefix(rows, cols, allow, ws, k + 1);
  }

  /** A collision names the index of the last earlier child covering the cell. */
  lemma CollisionNamesOccupant(rows: nat, cols: nat, allow: bool, ws: seq<Child>, k: nat)
    requires k < |ws| && PlaceAll(rows, cols, allow, ws[..k]).Ok?
    requires PlaceAll(rows, cols, allow, ws[..k + 1]).Err?
    requires PlaceAll(rows, cols, allow, ws[..k + 1]).error.AlreadyOccupied?
    ensures var AlreadyOccupied(i, r, c, o) := PlaceAll(rows, cols, allow, ws[..k + 1]).error;
      && i == k && !allow && o < k
      && LastCovering(PlaceAll(rows, cols, allow, ws[..k]).value.1, r, c) == Some(o)
  {
    var (g0, out0) := PlaceAll(rows, cols, allow, ws[..k]).value;
    PlaceAllGrid(rows, cols, allow, ws[..k]);
    var p := ws[..k + 1];
    assert p[..k] == ws[..k] && p[k] == ws[k];
    PlaceSpec(g0, cols, k, ws[k], allow);
  }

  /** Validating the placed children again changes nothing: every child now
      carries its position, and re-placing it claims the same cells. */
  lemma {:induction false} PlaceAllIdempotent(rows: nat, cols: nat, allow: bool, ws: seq<Child>)
    ensures var res := PlaceAll(rows, cols, allow, ws);
      res.Ok? ==> PlaceAll(rows, cols, allow, res.value.1) == res
    decreases |ws|
  {
    var res := PlaceAll(rows, cols, allow, ws);
    if |ws| > 0 && res.Ok? {
      var n := |ws| - 1;
      PlaceAllIdempotent(rows, cols, allow, ws[..n]);
      var (g0, out0) := PlaceAll(rows, cols, allow, ws[..n]).value;
      var out := res.value.1;
      assert out[..n] == out0;
      assert Place(g0, cols, n, out[n], allow) == Ok((res.value.0, out[n]));
    }
  }

  /** A 1x1 span marks a single free cell. */
  lemma MarkSingle(g: Grid, cols: nat, index: nat, r: nat, c: nat, allow: bool)
    requires IsRect(g, cols) && InGrid(g, cols, r, c) && (allow || g[r][c].None?)
    ensures MarkFrom(g, cols, index, Span(r, c, 1, 1), allow, 0, 0) == Ok(SetCell(g, cols, r, c, Some(index)))
  {
    var s := Span(r, c, 1, 1);
    var g1 := SetCell(g, cols, r, c, Some(index));
    assert MarkFrom(g, cols, index, s, allow, 0, 0) == MarkFrom(g1, cols, index, s, allow, 0, 1);
    assert MarkFrom(g1, cols, index, s, allow, 0, 1) == MarkFrom(g1, cols, index, s, allow, 1, 0);
  }

  /** The first row of the 2x2 scenario below. */
  lemma AutoFillsFirstRow(ws: seq<Child>)
    requires ws == [Child(None, None, 1, 1), Child(None, None, 1, 1), Child(None, None, 1, 1), Child(None, None, 1, 1)]
    ensures PlaceAll(2, 2, false, ws[..2]) ==
      Ok(([[Some(0), Some(1)], [None, None]], [Child(Some(0), Some(0), 1, 1), Child(Some(0), Some(1), 1, 1)]))
  {
    var a := Child(None, None, 1, 1);
    var e: Grid := [[None, None], [None, None]];
    assert ws[..0] == [];
    GridExt(EmptyGrid(2, 2), e, 2);
    assert FirstFree(e, 2) == Some((0, 0));
    var g1: Grid := [[Some(0), None], [None, None]];
    MarkSingle(e, 2, 0, 0, 0, false);
    GridExt(SetCell(e, 2, 0, 0, Some(0)), g1, 2);
    assert ws[..1][..0] == [];
    assert PlaceAll(2, 2, false, ws[..1][..0]) == Ok((e, []));
    assert Place(e, 2, 0, a, false) == Ok((g1, Child(Some(0), Some(0), 1, 1)));
    PlaceAllStep(2, 2, false, ws, 0);
    assert [] + [Child(Some(0), Some(0), 1, 1)] == [Child(Some(0), Some(0), 1, 1)];
    assert PlaceAll(2, 2, false, ws[..1]) == Ok((g1, [Child(Some(0), Some(0), 1, 1)]));
    assert FirstFree(g1, 2) == Some((0, 1));
    var g2: Grid := [[Some(0), Some(1)], [None, None]];
    MarkSingle(g1, 2, 1, 0, 1, false);
    GridExt(SetCell(g1, 2, 0, 1, Some(1)), g2, 2);
    assert ws[..2][..1] == ws[..1];
    assert Place(g1, 2, 1, a, false) == Ok((g2, Child(Some(0), Some(1), 1, 1)));
    PlaceAllStep(2, 2, false, ws, 1);
    assert [Child(Some(0), Some(0), 1, 1)] + [Child(Some(0), Some(1), 1, 1)]
      == [Child(Some(0), Some(0), 1, 1), Child(Some(0), Some(1), 1, 1)];
    assert PlaceAll(2, 2, false, ws[..2]) == Ok((g2, [Child(Some(0), Some(0), 1, 1), Child(Some(0), Some(1), 1, 1)]));
  }

  /** The third child of the 2x2 scenario below starts the second row. */
  lemma AutoFillsThird(ws: seq<Child>)
    requires ws == [Child(None, None, 1, 1), Child(None, None, 1, 1), Child(None, None, 1, 1), Child(None, None, 1, 1)]
    ensures PlaceAll(2, 2, false, ws[..3]) ==
      Ok(([[Some(0), Some(1)], [Some(2), None]],
        [Child(Some(0), Some(0), 1, 1), Child(Some(0), Some(1), 1, 1), Child(Some(1), Some(0), 1, 1)]))
  {
    var a := Child(None, None, 1, 1);
    var g2: Grid := [[Some(0), Some(1)], [None, None]];
    AutoFillsFirstRow(ws);
    assert FirstFreeFrom(g2, 2, 0, 2) == FirstFreeFrom(g2, 2, 1, 0);
    assert FirstFree(g2, 2) == Some((1, 0));
    var g3: Grid := [[Some(0), Some(1)], [Some(2), None]];
    MarkSingle(g2, 2, 2, 1, 0, false);
    GridExt(SetCell(g2, 2, 1, 0, Some(2)), g3, 2);
    assert ws[..3][..2] == ws[..2];
    assert Place(g2, 2, 2, a, false) == Ok((g3, Child(Some(1), Some(0), 1, 1)));
    PlaceAllStep(2, 2, false, ws, 2);
    assert [Child(Some(0), Some(0), 1, 1), Child(Some(0), Some(1), 1, 1)] + [Child(Some(1), Some(0), 1, 1)]
      == [Child(Some(0), Some(0), 1, 1), Child(Some(0), Some(1), 1, 1), Child(Some(1), Some(0), 1, 1)];
  }

  /** Four auto-placed children fill a 2x2 grid row by row. */
  lemma AutoFillsRowMajor()
    ensures var a := Child(None, None, 1, 1);
      PlaceAll(2, 2, false, [a, a, a, a]) == Ok(([[Some(0), Some(1)], [Some(2), Some(3)]],
        [Child(Some(0), Some(0), 1, 1), Child(Some(0), Some(1), 1, 1),
         Child(Some(1), Some(0), 1, 1), Child(Some(1), Some(1), 1, 1)]))
  {
    var a := Child(None, None, 1, 1);
    var ws := [a, a, a, a];
    AutoFillsThird(ws);
    var g3: Grid := [[Some(0), Some(1)], [Some(2), None]];
    assert FirstFreeFrom(g3, 2, 0, 2) == FirstFreeFrom(g3, 2, 1, 0);
    assert FirstFree(g3, 2) == Some((1, 1));
    var g4: Grid := [[Some(0), Some(1)], [Some(2), Some(3)]];
    MarkSingle(g3, 2, 3, 1, 1, false);
    GridExt(SetCell(g3, 2, 1, 1, Some(3)), g4, 2);
    assert ws[..4][..3] == ws[..3];
    assert Place(g3, 2, 3, a, false) == Ok((g4, Child(Some(1), Some(1), 1, 1)));
    PlaceAllStep(2, 2, false, ws, 3);
    assert [Child(Some(0), Some(0), 1, 1), Child(Some(0), Some(1), 1, 1), Child(Some(1), Some(0), 1, 1)]
      + [Child(Some(1), Some(1), 1, 1)]
      == [Child(Some(0), Some(0), 1, 1), Child(Some(0), Some(1), 1, 1),
          Child(Some(1), Some(0), 1, 1), Child(Some(1), Some(1), 1, 1)];
    assert ws[..4] == ws;
  }

  /** Two children claiming cell (0, 0) of a 1x1 grid: the second is rejected
      and the first is named as the occupant. */
  lemma CollisionExample()
    ensures var a := Child(Some(0), Some(0), 1, 1);
      PlaceAll(1, 1, false, [a, a]) == Err(AlreadyOccupied(1, 0, 0, 0))
  {
    var a := Child(Some(0), Some(0), 1, 1);
    var ws := [a, a];
    var e: Grid := [[None]];
    assert ws[..0] == [];
    GridExt(EmptyGrid(1, 1), e, 1);
    var g1: Grid := [[Some(0)]];
    MarkSingle(e, 1, 0, 0, 0, false);
    GridExt(SetCell(e, 1, 0, 0, Some(0)), g1, 1);
    assert ws[..1][..0] == [];
    assert PlaceAll(1, 1, false, ws[..1][..0]) == Ok((e, []));
    assert Place(e, 1, 0, a, false) == Ok((g1, a));
    PlaceAllStep(1, 1, false, ws, 0);
    assert [] + [a] == [a];
    assert PlaceAll(1, 1, false, ws[..1]) == Ok((g1, [a]));
    assert ws[..2][..1] == ws[..1];
    assert ws[..2] == ws;
  }

  // ---------------------------------------------------------------------------
  // The imperative loop

  /** The contents of the occupancy matrix. */
  function Snapshot(a: array2<Option<nat>>): (g: Grid)
    reads a
    ensures |g| == a.Length0 && IsRect(g, a.Length1)
    ensures forall r, c :: InGrid(g, a.Length1, r, c) ==> g[r][c] == a[r, c]
  {
    seq(a.Length0, r requires 0 <= r < a.Length0 reads a =>
      seq(a.Length1, c requires 0 <= c < a.Length1 reads a => a[r, c]))
  }

  lemma GridExt(g1: Grid, g2: Grid, cols: nat)
    requires |g1| == |g2| && IsRect(g1, cols) && IsRect(g2, cols)
    requires forall r, c :: InGrid(g1, cols, r, c) ==> g1[r][c] == g2[r][c]
    ensures g1 == g2
  {
    forall r | 0 <= r < |g1|
      ensures g1[r] == g2[r]
    {
      assert forall c :: 0 <= c < cols ==> g1[r][c] == g2[r][c];
    }
  }

  /** The generator over `used_cells`: the first free cell in row-major order. */
  method FindFree(used: array2<Option<nat>>) returns (p: Option<(nat, nat)>)
    ensures p == FirstFree(Snapshot(used), used.Length1)
  {
    ghost var g := Snapshot(used);
    var r := 0;
    while r < used.Length0
      invariant 0 <= r <= used.Length0
      invariant FirstFree(g, used.Length1) == FirstFreeFrom(g, used.Length1, r, 0)
    {
      var c := 0;
      while c < used.Length1
        invariant 0 <= c <= used.Length1
        invariant FirstFree(g, used.Length1) == FirstFreeFrom(g, used.Length1, r, c)
      {
        if used[r, c].None? {
          return Some((r, c));
        }
        c := c + 1;
      }
      r := r + 1;
    }
    return None;
  }

  /** The nested span loops over `used_cells`, marking each spanned cell with
      the child's index after checking it. */
  method MarkSpan(used: array2<Option<nat>>, index: nat, s: Span, allow: bool) returns (err: Option<GridError>)
    modifies used
    ensures var spec := MarkFrom(old(Snapshot(used)), used.Length1, index, s, allow, 0, 0);
      && (err.None? <==> spec.Ok?)
      && (spec.Ok? ==> Snapshot(used) == spec.value)
      && (spec.Err? ==> err == Some(spec.error))
  {
    ghost var g0 := Snapshot(used);
    var i := 0;
    while i < s.rowSpan
      invariant 0 <= i <= s.rowSpan
      invariant MarkFrom(g0, used.Length1, index, s, allow, 0, 0) == MarkFrom(Snapshot(used), used.Length1, index, s, allow, i, 0)
    {
      err := MarkRow(used, index, s, allow, i);
      if err.Some? {
        return;
      }
      i := i + 1;
    }
    return None;
  }

  /** One pass of the inner span loop: row `i` of the span. */
  method MarkRow(used: array2<Option<nat>>, index: nat, s: Span, allow: bool, i: nat) returns (err: Option<GridError>)
    requires i < s.rowSpan
    modifies used
    ensures var spec := MarkFrom(old(Snapshot(used)), used.Length1, index, s, allow, i, 0);
      && (err.None? ==> spec == MarkFrom(Snapshot(used), used.Length1, index, s, allow, i + 1, 0))
      && (err.Some? ==> spec == Err(err.value))
  {
    ghost var g0 := Snapshot(used);
    var rows, cols := used.Length0, used.Length1;
    var j := 0;
    while j < s.colSpan
      invariant j <= s.colSpan
      invariant MarkFrom(g0, cols, index, s, allow, i, 0) == MarkFrom(Snapshot(used), cols, index, s, allow, i, j)
    {
      var r, c := s.row + i, s.col + j;
      if r >= rows || c >= cols {
        return Some(ExceedsGrid(index, s, rows, cols));
      }
      if !allow && used[r, c].Some? {
        return Some(AlreadyOccupied(index, r, c, used[r, c].value));
      }
      ghost var before := Snapshot(used);
      used[r, c] := Some(index);
      GridExt(Snapshot(used), SetCell(before, cols, r, c, Some(index)), cols);
      j := j + 1;
    }
    return None;
  }

  /** One iteration of the loop over the children. */
  method PlaceChild(used: array2<Option<nat>>, children: array<Child>, k: nat, allow: bool)
    returns (err: Option<GridError>)
    requires k < children.Length
    modifies used, children
    ensures var spec := Place(old(Snapshot(used)), used.Length1, k, old(children[k]), allow);
      && (err.None? <==> spec.Ok?)
      && (spec.Ok? ==> Snapshot(used) == spec.value.0 && children[..] == old(children[..])[k := spec.value.1])
      && (spec.Err? ==> err == Some(spec.error))
  {
    ghost var g0 := Snapshot(used);
    var w := children[k];
    if w.Mixed() {
      return Some(MixedPosition(k));
    }
    if !w.Positioned() {
      var free := FindFree(used);
      if free.None? {
        return Some(NoFreeCells(k));
      }
      w := w.(rowPos := Some(free.value.0), colPos := Some(free.value.1));
      children[k] := w;
    }
    assert Resolve(g0, used.Length1, k, old(children[k])) == Ok(w);
    err := MarkSpan(used, k, SpanOf(w), allow);
  }

  lemma UpdatePrefix<T>(a: seq<T>, k: nat, x: T)
    requires k < |a|
    ensures a[k := x][..k + 1] == a[..k] + [x] && a[k := x][k + 1..] == a[k + 1..]
  {
  }

  /** The fold's step: the first k + 1 children are the first k followed by
      one more `Place`. */
  lemma PlaceAllStep(rows: nat, cols: nat, allow: bool, ws: seq<Child>, k: nat)
    requires k < |ws| && PlaceAll(rows, cols, allow, ws[..k]).Ok?
    ensures var (g, out) := PlaceAll(rows, cols, allow, ws[..k]).value;
      PlaceAll(rows, cols, allow, ws[..k + 1]) ==
        match Place(g, cols, k, ws[k], allow)
        case Err(e) => Err(e)
        case Ok((g', w')) => Ok((g', out + [w']))
  {
    var p := ws[..k + 1];
    assert p[..k] == ws[..k] && p[k] == ws[k];
  }

  /** A fresh `rows` by `cols` occupancy matrix with every cell free. */
  method NewGrid(rows: nat, cols: nat) returns (used: array2<Option<nat>>)
    ensures fresh(used) && used.Length0 == rows && used.Length1 == cols
    ensures Snapshot(used) == EmptyGrid(rows, cols)
  {
    used := new Option<nat>[rows, cols]((_, _) => None);
    GridExt(Snapshot(used), EmptyGrid(rows, cols), cols);
  }

  /** The walk over the children, from an empty occupancy matrix. */
  method PlaceChildren(used: array2<Option<nat>>, children: array<Child>, allow: bool) returns (err: Option<GridError>)
    requires Snapshot(used) == EmptyGrid(used.Length0, used.Length1)
    modifies used, children
    ensures var spec := PlaceAll(used.Length0, used.Length1, allow, old(children[..]));
      && (err.None? <==> spec.Ok?)
      && (spec.Ok? ==> children[..] == spec.value.1)
      && (spec.Err? ==> err == Some(spec.error))
  {
    ghost var ws := children[..];
    var rows, cols := used.Length0, used.Length1;
    var k := 0;
    while k < children.Length
      invariant 0 <= k <= children.Length
      invariant children[k..] == ws[k..]
      invariant PlaceAll(rows, cols, allow, ws[..k]) == Ok((Snapshot(used), children[..k]))
    {
      assert children[k] == ws[k];
      PlaceAllStep(rows, cols, allow, ws, k);
      ghost var before := children[..];
      var e := PlaceChild(used, children, k, allow);
      if e.Some? {
        PlaceAllPrefix(rows, cols, allow, ws, k + 1);
        return e;
      }
      UpdatePrefix(before, k, children[k]);
      assert before[k + 1..] == ws[k + 1..] by {
        assert before[k + 1..] == before[k..][1..];
      }
      k := k + 1;
    }
    assert ws[..k] == ws && children[..k] == children[..];
    return None;
  }

  /** `GridLayout.validate`: expands the shorthand, then walks the children
      over a fresh `rows` by `columns` occupancy matrix, writing auto-placed
      positions back into the children. */
  method ValidateGrid(layout: GridInput, children: array<Child>) returns (res: Result<GridConf, GridError>)
    modifies children
    ensures var spec := ValidateGridSpec(layout, old(children[..]));
      && (res.Ok? <==> spec.Ok?)
      && (spec.Ok? ==> res.value == spec.value.0 && children[..] == spec.value.1)
      && (spec.Err? ==> res == Err(spec.error))
  {
    var expanded := ExpandLayout(layout);
    if expanded.Err? {
      return Err(expanded.error);
    }
    var conf := expanded.value;
    var rows, cols, allow := |conf.rows|, |conf.columns|, conf.multiple;
    var used := NewGrid(rows, cols);
    var err := PlaceChildren(used, children, allow);
    if err.Some? {
      return Err(err.value);
    }
    return Ok(conf);
  }
}
