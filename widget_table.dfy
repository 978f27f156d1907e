/** widgets/table.py: row and column counts, column widths and cell texts. */
module TableWidget {
  import opened Wrappers
  import opened Emit
  import Helpers

  /** A `COLUMN_SCHEMA` entry: the column index and its width. */
  datatype Column = Column(id: nat, width: nat)

  /** A `CELL_SCHEMA` entry. */
  datatype Cell = Cell(row: nat, column: nat, text: Value)

  /** A table configuration; absent lists are empty. */
  datatype TableConf = TableConf(rowCount: Option<nat>, columnCount: Option<nat>, columns: seq<Column>, cells: seq<Cell>)

  /** A schema as the keys it accepts, each with whether it is required. */
  type Keys = seq<(string, bool)>

  /** `TABLE_SCHEMA`. */
  const TableSchema: Keys := [("row_count", false), ("column_count", false), ("cells", false), ("columns", false)]

  /** `TABLE_UPDATE_SCHEMA`. */
  const TableUpdateSchema: Keys := [("row_count", false), ("column_count", false), ("cells", false), ("columns", false)]

  /** The update schema accepts exactly what the creation schema accepts. */
  lemma SchemasAgree()
    ensures TableSchema == TableUpdateSchema
    ensures forall k :: 0 <= k < |TableSchema| ==> !TableSchema[k].1
  {
  }

  /** `if n := config.get(key):` on a count. */
  predicate GivenCount(n: Option<nat>) {
    n.Some? && n.value != 0
  }

  function ColumnOp(obj: string, col: Column): Op {
    Call("table_set_column_width", [Var(obj), Num(col.id), Num(col.width)])
  }

  function CellOp(obj: string, cell: Cell): Op {
    Call("table_set_cell_value", [Var(obj), Num(cell.row), Num(cell.column), V(cell.text)])
  }

  function ColumnOps(obj: string, cols: seq<Column>): seq<Op>
    decreases |cols|
  {
    if |cols| == 0 then [] else ColumnOps(obj, cols[..|cols| - 1]) + [ColumnOp(obj, cols[|cols| - 1])]
  }

  function CellOps(obj: string, cells: seq<Cell>): seq<Op>
    decreases |cells|
  {
    if |cells| == 0 then [] else CellOps(obj, cells[..|cells| - 1]) + [CellOp(obj, cells[|cells| - 1])]
  }

  function CountOps(obj: string, c: TableConf): seq<Op> {
    (if GivenCount(c.rowCount) then [Call("table_set_row_count", [Var(obj), Num(c.rowCount.value)])] else [])
    + (if GivenCount(c.columnCount) then [Call("table_set_column_count", [Var(obj), Num(c.columnCount.value)])] else [])
  }

  /** Everything `to_code` emits, in order. */
  function TableOps(obj: string, c: TableConf): seq<Op> {
    CountOps(obj, c) + ColumnOps(obj, c.columns) + CellOps(obj, c.cells)
  }

  /** `TableType.to_code`. */
  method ToCode(code: Code, uses: Helpers.Uses, obj: string, c: TableConf)
    modifies code, uses
    ensures code.ops == old(code.ops) + TableOps(obj, c)
    ensures code.defines == old(code.defines) && code.warnings == old(code.warnings)
    ensures uses.componentsRequired == old(uses.componentsRequired) + {"TABLE"}
    ensures uses.lvUses == old(uses.lvUses)
  {
    uses.AddComponent("TABLE");
    ghost var o0 := code.ops;
    CountsToCode(code, obj, c);
    ColumnsToCode(code, obj, c.columns);
    CellsToCode(code, obj, c.cells);
    AppendAssoc(o0 + CountOps(obj, c), ColumnOps(obj, c.columns), CellOps(obj, c.cells));
    AppendAssoc(o0, CountOps(obj, c), ColumnOps(obj, c.columns) + CellOps(obj, c.cells));
  }

  /** The row and column counts, each set only when given and non-zero. */
  method CountsToCode(code: Code, obj: string, c: TableConf)
    modifies code
    ensures code.ops == old(code.ops) + CountOps(obj, c)
    ensures code.defines == old(code.defines) && code.warnings == old(code.warnings)
  {
    if c.rowCount.Some? && c.rowCount.value != 0 {
      code.Call("table_set_row_count", [Var(obj), Num(c.rowCount.value)]);
    }
    if c.columnCount.Some? && c.columnCount.value != 0 {
      code.Call("table_set_column_count", [Var(obj), Num(c.columnCount.value)]);
    }
  }

  /** The column-width loop of `to_code`. */
  method ColumnsToCode(code: Code, obj: string, columns: seq<Column>)
    modifies code
    ensures code.ops == old(code.ops) + ColumnOps(obj, columns)
    ensures code.defines == old(code.defines) && code.warnings == old(code.warnings)
  {
    var i := 0;
    while i < |columns|
      invariant 0 <= i <= |columns|
      invariant code.ops == old(code.ops) + ColumnOps(obj, columns[..i])
      invariant code.defines == old(code.defines) && code.warnings == old(code.warnings)
    {
      assert columns[..i + 1][..i] == columns[..i];
      var col := columns[i];
      code.Call("table_set_column_width", [Var(obj), Num(col.id), Num(col.width)]);
      i := i + 1;
    }
    assert columns[..i] == columns;
  }

  /** The cell loop of `to_code`. */
  method CellsToCode(code: Code, obj: string, cells: seq<Cell>)
    modifies code
    ensures code.ops == old(code.ops) + CellOps(obj, cells)
    ensures code.defines == old(code.defines) && code.warnings == old(code.warnings)
  {
    var j := 0;
    while j < |cells|
      invariant 0 <= j <= |cells|
      invariant code.ops == old(code.ops) + CellOps(obj, cells[..j])
      invariant code.defines == old(code.defines) && code.warnings == old(code.warnings)
    {
      assert cells[..j + 1][..j] == cells[..j];
      var cell := cells[j];
      code.Call("table_set_cell_value", [Var(obj), Num(cell.row), Num(cell.column), V(cell.text)]);
      j := j + 1;
    }
    assert cells[..j] == cells;
  }

  /** One width operation per column entry, in list order. */
  lemma {:induction false} ColumnsInOrder(obj: string, cols: seq<Column>)
    ensures |ColumnOps(obj, cols)| == |cols|
    ensures forall k :: 0 <= k < |cols| ==> ColumnOps(obj, cols)[k] == ColumnOp(obj, cols[k])
    decreases |cols|
  {
    if |cols| > 0 {
      ColumnsInOrder(obj, cols[..|cols| - 1]);
    }
  }

  /** One cell operation per cell entry, in list order. */
  lemma {:induction false} CellsInOrder(obj: string, cells: seq<Cell>)
    ensures |CellOps(obj, cells)| == |cells|
    ensures forall k :: 0 <= k < |cells| ==> CellOps(obj, cells)[k] == CellOp(obj, cells[k])
    decreases |cells|
  {
    if |cells| > 0 {
      CellsInOrder(obj, cells[..|cells| - 1]);
    }
  }

  /** The layout of the whole output: the counts that are present and
      non-zero, then the column widths, then the cells. */
  lemma TableLayout(obj: string, c: TableConf)
    ensures var n := (if GivenCount(c.rowCount) then 1 else 0) + (if GivenCount(c.columnCount) then 1 else 0);
      && |TableOps(obj, c)| == n + |c.columns| + |c.cells|
      && (forall k :: 0 <= k < |c.columns| ==> TableOps(obj, c)[n + k] == ColumnOp(obj, c.columns[k]))
      && (forall k :: 0 <= k < |c.cells| ==> TableOps(obj, c)[n + |c.columns| + k] == CellOp(obj, c.cells[k]))
  {
    ColumnsInOrder(obj, c.columns);
    CellsInOrder(obj, c.cells);
  }

  /** A row or column count of 0 is not emitted. */
  lemma ZeroCountsSkipped(obj: string, c: TableConf)
    requires c.rowCount == Some(0) && c.columnCount == Some(0)
    ensures TableOps(obj, c) == ColumnOps(obj, c.columns) + CellOps(obj, c.cells)
  {
  }
}
