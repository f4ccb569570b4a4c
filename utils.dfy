/**
  The grid of columns behind a Quirk circuit (captain_quirk/_utils.py).

  A column holds one cell per qubit row: the placeholder `EMPTY` (the integer
  1 in the source) or a display token. The grid keeps its columns in append
  order. Appending a column first tries to merge it into the last column:
  the two are walked row by row, the shorter one padded with `EMPTY`; if no
  row is occupied on both sides the last column is replaced by the row-wise
  combination, otherwise the new column is pushed as it is. Only the last
  column is ever looked at or changed.
*/
module Utils {
  import opened Wrappers
  import opened Json

  /** A rotation angle, carried as the text `str()` gives for it. */
  datatype Angle = Angle(text: string)

  /** A display token (`AbstractGate`): a label, and an angle for rotations. */
  datatype Token = Token(symbol: string, param: Option<Angle>)

  /** One row of a column: the placeholder `EMPTY`, or a token. */
  datatype Cell = Empty | Gate(token: Token)

  type Column = seq<Cell>

  /** The integer that stands for `EMPTY`, in the grid and in its JSON. */
  const EmptyMarker: nat := 1

  // ---------------------------------------------------------------------
  // JSON form of cells and grids
  // ---------------------------------------------------------------------

  /** Reads a cell back from its JSON form; the partner of `CellJson`. */
  function CellOfJson(j: Json): Option<Cell> {
    match j
    case JNumber(n) => if n == EmptyMarker then Some(Empty) else None
    case JString(symbol) => Some(Gate(Token(symbol, None)))
    case JObject(members) =>
      if |members| == 2 && members[0].key == "id" && members[1].key == "arg"
         && members[0].value.JString? && members[1].value.JString?
      then Some(Gate(Token(members[0].value.s, Some(Angle(members[1].value.s)))))
      else None
    case JArray(_) => None
  }

  /**
    A cell's JSON value: `EMPTY` stays the integer 1, a token without a
    parameter becomes its bare label, a token with one becomes
    `{"id": label, "arg": str(param)}`.
  */
  function CellJson(c: Cell): (r: Json)
    ensures CellOfJson(r) == Some(c)
    ensures c == Empty <==> r == JNumber(1)
    ensures c.Gate? && c.token.param.None? <==> r.JString?
  {
    match c
    case Empty => JNumber(EmptyMarker)
    case Gate(Token(symbol, None)) => JString(symbol)
    case Gate(Token(symbol, Some(angle))) =>
      JObject([Member("id", JString(symbol)), Member("arg", JString(angle.text))])
  }

  /** The grid's JSON value: an array of columns, each an array of cells. */
  function GridJson(columns: seq<Column>): (r: Json)
    ensures r.JArray? && |r.items| == |columns|
    ensures forall i :: 0 <= i < |columns| ==>
      r.items[i].JArray? && |r.items[i].items| == |columns[i]|
    ensures forall i, k :: 0 <= i < |columns| && 0 <= k < |columns[i]| ==>
      r.items[i].items[k] == CellJson(columns[i][k])
  {
    JArray(seq(|columns|, i requires 0 <= i < |columns| =>
      JArray(seq(|columns[i]|, k requires 0 <= k < |columns[i]| => CellJson(columns[i][k])))))
  }

  function ColumnOfJson(cells: seq<Json>): Option<Column> {
    if cells == [] then Some([])
    else
      match (CellOfJson(cells[0]), ColumnOfJson(cells[1..]))
      case (Some(c), Some(rest)) => Some([c] + rest)
      case _ => None
  }

  function ColumnsOfJson(columns: seq<Json>): Option<seq<Column>> {
    if columns == [] then Some([])
    else
      match (columns[0], ColumnsOfJson(columns[1..]))
      case (JArray(cells), Some(rest)) =>
        (match ColumnOfJson(cells)
         case Some(column) => Some([column] + rest)
         case None => None)
      case _ => None
  }

  /** Reads a grid back from its JSON value; the partner of `GridJson`. */
  function GridOfJson(j: Json): Option<seq<Column>> {
    match j
    case JArray(columns) => ColumnsOfJson(columns)
    case _ => None
  }

  lemma {:induction false} ColumnOfJsonRoundTrip(column: Column)
    ensures ColumnOfJson(seq(|column|, k requires 0 <= k < |column| => CellJson(column[k]))) == Some(column)
  {
    var cells := seq(|column|, k requires 0 <= k < |column| => CellJson(column[k]));
    if column != [] {
      ColumnOfJsonRoundTrip(column[1..]);
      assert cells[1..] == seq(|column[1..]|, k requires 0 <= k < |column[1..]| => CellJson(column[1..][k]));
      assert [column[0]] + column[1..] == column;
    }
  }

  /** The grid's JSON value determines the grid: same columns, same cells. */
  lemma {:induction false} GridJsonRoundTrip(columns: seq<Column>)
    ensures GridOfJson(GridJson(columns)) == Some(columns)
  {
    if columns != [] {
      var items := GridJson(columns).items;
      GridJsonRoundTrip(columns[1..]);
      assert GridJson(columns[1..]).items == items[1..];
      ColumnOfJsonRoundTrip(columns[0]);
      assert [columns[0]] + columns[1..] == columns;
    }
  }

  // ---------------------------------------------------------------------
  // Merging a column into the last one
  // ---------------------------------------------------------------------

  /** The cell at `row`, reading past the end as `EMPTY` (`zip_longest`'s fill value). */
  function CellAt(column: Column, row: nat): Cell {
    if row < |column| then column[row] else Empty
  }

  /** The column from `row` on (empty past the end). */
  function Drop(column: Column, row: nat): Column {
    if row < |column| then column[row..] else []
  }

  function Width(a: Column, b: Column): nat {
    if |a| < |b| then |b| else |a|
  }

  /** Both cells hold a token: merging would put two tokens in one row. */
  predicate Clash(x: Cell, y: Cell) {
    x != Empty && y != Empty
  }

  /** No row, over the longer of the two columns, is occupied in both. */
  predicate Compatible(a: Column, b: Column) {
    forall row :: 0 <= row < Width(a, b) ==> !Clash(CellAt(a, row), CellAt(b, row))
  }

  /**
    The merge of column `b` into column `a`, walking both in step as
    `zip_longest` does: None on the first row where both hold a token,
    otherwise the rows combined, each taking whichever side is occupied.
  */
  function Merged(a: Column, b: Column): Option<Column>
    decreases |a| + |b|
  {
    if a == [] && b == [] then Some([])
    else
      var oldCell, newCell := CellAt(a, 0), CellAt(b, 0);
      if Clash(oldCell, newCell) then None
      else
        match Merged(Drop(a, 1), Drop(b, 1))
        case None => None
        case Some(rest) => Some([if oldCell == Empty then newCell else oldCell] + rest)
  }

  /** `prefix` in front of a merge outcome, keeping a failure a failure. */
  function Prepend(prefix: Column, m: Option<Column>): Option<Column> {
    match m
    case None => None
    case Some(rest) => Some(prefix + rest)
  }

  /** A merge succeeds exactly when no row is occupied in both columns. */
  lemma {:induction false} MergedSomeIff(a: Column, b: Column)
    ensures Merged(a, b).Some? <==> Compatible(a, b)
    decreases |a| + |b|
  {
    if a != [] || b != [] {
      var a', b' := Drop(a, 1), Drop(b, 1);
      MergedSomeIff(a', b');
      assert Width(a', b') == Width(a, b) - 1;
      assert forall row :: 0 <= row < Width(a', b') ==>
        CellAt(a', row) == CellAt(a, row + 1) && CellAt(b', row) == CellAt(b, row + 1);
      if Compatible(a', b') && !Clash(CellAt(a, 0), CellAt(b, 0)) {
        forall row | 0 <= row < Width(a, b)
          ensures !Clash(CellAt(a, row), CellAt(b, row))
        {
          if row > 0 {
            assert !Clash(CellAt(a', row - 1), CellAt(b', row - 1));
          }
        }
      }
      if Compatible(a, b) {
        forall row | 0 <= row < Width(a', b')
          ensures !Clash(CellAt(a', row), CellAt(b', row))
        {
          assert !Clash(CellAt(a, row + 1), CellAt(b, row + 1));
        }
      }
    }
  }

  /**
    What a successful merge holds: the longer column's length, and in each
    row the token of whichever side had one (`EMPTY` where neither had).
  */
  lemma {:induction false} MergedCells(a: Column, b: Column)
    requires Merged(a, b).Some?
    ensures var m := Merged(a, b).value;
      && |m| == Width(a, b)
      && forall row :: 0 <= row < |m| ==>
        && (CellAt(a, row) != Empty ==> m[row] == CellAt(a, row))
        && (CellAt(b, row) != Empty ==> m[row] == CellAt(b, row))
        && (CellAt(a, row) == Empty && CellAt(b, row) == Empty ==> m[row] == Empty)
    decreases |a| + |b|
  {
    if a != [] || b != [] {
      var a', b' := Drop(a, 1), Drop(b, 1);
      MergedCells(a', b');
      var m, m' := Merged(a, b).value, Merged(a', b').value;
      assert m[1..] == m';
      forall row | 1 <= row < |m|
        ensures CellAt(a, row) == CellAt(a', row - 1) && CellAt(b, row) == CellAt(b', row - 1)
      {
      }
    }
  }

  /** The number of rows of a column that hold a token. */
  function Occupied(column: Column): nat {
    if column == [] then 0
    else (if column[0] == Empty then 0 else 1) + Occupied(column[1..])
  }

  /** A merge neither drops nor duplicates a token. */
  lemma {:induction false} MergedOccupied(a: Column, b: Column)
    requires Merged(a, b).Some?
    ensures Occupied(Merged(a, b).value) == Occupied(a) + Occupied(b)
    decreases |a| + |b|
  {
    if a != [] || b != [] {
      var a', b' := Drop(a, 1), Drop(b, 1);
      MergedOccupied(a', b');
      var m := Merged(a, b).value;
      assert m[1..] == Merged(a', b').value;
      assert a != [] ==> a[1..] == a';
      assert b != [] ==> b[1..] == b';
    }
  }

  /** One row of the merge walk: a clash ends it, otherwise the row's combined cell joins the prefix. */
  lemma MergedStep(a: Column, b: Column, row: nat, prefix: Column)
    requires row < Width(a, b)
    requires Merged(a, b) == Prepend(prefix, Merged(Drop(a, row), Drop(b, row)))
    ensures Clash(CellAt(a, row), CellAt(b, row)) ==> Merged(a, b).None?
    ensures !Clash(CellAt(a, row), CellAt(b, row)) ==>
      var cell := if CellAt(a, row) == Empty then CellAt(b, row) else CellAt(a, row);
      Merged(a, b) == Prepend(prefix + [cell], Merged(Drop(a, row + 1), Drop(b, row + 1)))
  {
    var rest := Merged(Drop(a, row + 1), Drop(b, row + 1));
    assert Drop(Drop(a, row), 1) == Drop(a, row + 1);
    assert Drop(Drop(b, row), 1) == Drop(b, row + 1);
    assert CellAt(Drop(a, row), 0) == CellAt(a, row) && CellAt(Drop(b, row), 0) == CellAt(b, row);
    if rest.Some? {
      var cell := if CellAt(a, row) == Empty then CellAt(b, row) else CellAt(a, row);
      assert prefix + ([cell] + rest.value) == prefix + [cell] + rest.value;
    }
  }

  // ---------------------------------------------------------------------
  // The grid as a value
  // ---------------------------------------------------------------------

  function Last<T>(s: seq<T>): T
    requires s != []
  {
    s[|s| - 1]
  }

  /**
    The columns after appending `column`: on an empty grid, or when the new
    column clashes with the last one, it is pushed as it is; otherwise the
    last column is replaced by the merge. Earlier columns are never touched.
  */
  function Appended(columns: seq<Column>, column: Column): (r: seq<Column>)
    ensures columns == [] ==> r == [column]
    ensures |r| == |columns| || |r| == |columns| + 1
    ensures |r| == |columns| + 1 ==> r == columns + [column]
    ensures columns != [] ==> r[..|columns| - 1] == columns[..|columns| - 1]
  {
    if columns == [] then [column]
    else
      match Merged(Last(columns), column)
      case Some(m) => columns[..|columns| - 1] + [m]
      case None => columns + [column]
  }

  /**
    The greedy single look-back: the grid keeps its length exactly when the
    new column fits into the last column, whatever the earlier columns hold.
  */
  lemma AppendedMergesIff(columns: seq<Column>, column: Column)
    ensures |Appended(columns, column)| == |columns| <==> columns != [] && Compatible(Last(columns), column)
    ensures columns != [] && !Compatible(Last(columns), column) ==> Appended(columns, column) == columns + [column]
  {
    if columns != [] {
      MergedSomeIff(Last(columns), column);
    }
  }

  /**
    After an append, every token of the new column sits at its row of the
    grid's last column, and every token of the old last column is still at
    its row of the column it was in.
  */
  lemma AppendedKeepsTokens(columns: seq<Column>, column: Column)
    ensures var r := Appended(columns, column);
      forall row :: 0 <= row < |column| && column[row] != Empty ==>
        row < |Last(r)| && Last(r)[row] == column[row]
    ensures var r := Appended(columns, column);
      columns != [] ==>
        forall row :: 0 <= row < |Last(columns)| && Last(columns)[row] != Empty ==>
          row < |r[|columns| - 1]| && r[|columns| - 1][row] == Last(columns)[row]
  {
    if columns != [] && Merged(Last(columns), column).Some? {
      MergedCells(Last(columns), column);
    }
  }

  /** The grid built by appending `columns` one by one to an empty grid. */
  function Layout(columns: seq<Column>): seq<Column> {
    if columns == [] then [] else Appended(Layout(columns[..|columns| - 1]), Last(columns))
  }

  /** A non-empty run of appends gives at least one and at most that many columns. */
  lemma {:induction false} LayoutSize(columns: seq<Column>)
    ensures columns == [] <==> Layout(columns) == []
    ensures |Layout(columns)| <= |columns|
  {
    if columns != [] {
      LayoutSize(columns[..|columns| - 1]);
    }
  }

  /** The number of tokens in a whole grid. */
  function TotalOccupied(columns: seq<Column>): nat {
    if columns == [] then 0 else TotalOccupied(columns[..|columns| - 1]) + Occupied(Last(columns))
  }

  lemma AppendedOccupied(columns: seq<Column>, column: Column)
    ensures TotalOccupied(Appended(columns, column)) == TotalOccupied(columns) + Occupied(column)
  {
    var r := Appended(columns, column);
    if columns != [] && Merged(Last(columns), column).Some? {
      MergedOccupied(Last(columns), column);
      assert r[..|r| - 1] == columns[..|columns| - 1];
    } else {
      assert r[..|r| - 1] == columns;
    }
  }

  /** Laying out columns keeps every token: none is dropped, none doubled. */
  lemma {:induction false} LayoutOccupied(columns: seq<Column>)
    ensures TotalOccupied(Layout(columns)) == TotalOccupied(columns)
  {
    if columns != [] {
      LayoutOccupied(columns[..|columns| - 1]);
      AppendedOccupied(Layout(columns[..|columns| - 1]), Last(columns));
    }
  }

  /**
    The look-back is one column deep: a column that clashes with the last
    column opens a new one, even when an earlier column has room for it.
  */
  lemma GreedyLookBack()
    ensures var h, x, y := Token("H", None), Token("X", None), Token("Y", None);
      Layout([[Gate(h)], [Gate(x), Gate(x)], [Empty, Gate(y)]]) ==
        [[Gate(h)], [Gate(x), Gate(x)], [Empty, Gate(y)]]
  {
    var h, x, y := Token("H", None), Token("X", None), Token("Y", None);
    var c0, c1, c2 := [Gate(h)], [Gate(x), Gate(x)], [Empty, Gate(y)];
    MergedSomeIff(c0, c1);
    assert Clash(CellAt(c0, 0), CellAt(c1, 0));
    assert [c0, c1, c2][..2] == [c0, c1];
    assert [c0, c1][..1] == [c0];
    assert [c0][..0] == [];
    assert Layout([c0]) == [c0];
    assert Layout([c0, c1]) == Appended([c0], c1) == [c0, c1];
    MergedSomeIff(c1, c2);
    assert Clash(CellAt(c1, 1), CellAt(c2, 1));
    assert Layout([c0, c1, c2]) == Appended([c0, c1], c2);
  }

  // ---------------------------------------------------------------------
  // The grid object
  // ---------------------------------------------------------------------

  /** `AbstractSyntaxGrid`: the columns built so far, changed only at the tail. */
  class SyntaxGrid {
    var columns: seq<Column>

    constructor ()
      ensures columns == []
    {
      columns := [];
    }

    /**
      `_merge`: fold `column` into the last column. Fails (the source's
      `IndexError`) on an empty grid or on the first row occupied on both
      sides, leaving the grid as it was; the last column is replaced only
      once every row has been combined.
    */
    method Merge(column: Column) returns (merged: bool)
      modifies this
      ensures merged <==> old(columns) != [] && Merged(Last(old(columns)), column).Some?
      ensures merged ==>
        columns == old(columns)[..|old(columns)| - 1] + [Merged(Last(old(columns)), column).value]
      ensures !merged ==> columns == old(columns)
    {
      if columns == [] {
        return false;
      }
      var last := columns[|columns| - 1];
      var newColumn: Column := [];
      var row := 0;
      assert Drop(last, 0) == last && Drop(column, 0) == column;
      assert Merged(last, column).Some? ==> [] + Merged(last, column).value == Merged(last, column).value;
      while row < |last| || row < |column|
        invariant columns == old(columns)
        invariant row <= Width(last, column)
        invariant Merged(last, column) == Prepend(newColumn, Merged(Drop(last, row), Drop(column, row)))
        decreases Width(last, column) - row
      {
        var oldCell, newCell := CellAt(last, row), CellAt(column, row);
        MergedStep(last, column, row, newColumn);
        if oldCell == Empty {
          newColumn := newColumn + [newCell];
        } else if newCell == Empty {
          newColumn := newColumn + [oldCell];
        } else {
          return false;
        }
        row := row + 1;
      }
      assert Drop(last, row) == [] && Drop(column, row) == [];
      assert newColumn + [] == newColumn;
      columns := columns[..|columns| - 1] + [newColumn];
      return true;
    }

    /** `append`: merge into the last column, or push when that fails. */
    method Append(column: Column)
      modifies this
      ensures columns == Appended(old(columns), column)
    {
      var merged := Merge(column);
      if !merged {
        columns := columns + [column];
      }
    }

    /** `to_json`: the grid as an array of column arrays of cell values. */
    function ToJson(): (r: Json)
      reads this
      ensures GridOfJson(r) == Some(columns)
      ensures r.JArray? && |r.items| == |columns|
    {
      GridJsonRoundTrip(columns);
      GridJson(columns)
    }
  }
}
