/** The `$ARRAY` declarations of a sheet (code_generator/cal_list.py):
    which of the two candidate cells holds the size, how `[rows,cols]` is
    parsed, how the array type is chosen and where the table lies on the
    sheet. */
module Arrays {
  import opened PyStr
  import opened Info

  /** `ArrInfos`: one declared array and the table rows read for it so far. */
  datatype ArrInfo = ArrInfo(
    originalSize: CellPos,        // the size written in the sheet
    readSize: CellPos,            // rows and columns of the table, annotations included
    startPos: CellPos,            // first sheet cell of the table
    endPos: CellPos,              // last sheet cell of the table
    tempArr: seq<seq<string>>,    // the rows read so far
    alignmentSize: seq<int>,      // widest cell per table column, in UTF-8 bytes
    annotateRow: seq<int>,        // table rows written as comments
    annotateCol: seq<int>,        // table columns written as comments
    arrType: ArrType,
    rowCnt: nat,                  // the next row `writeArrMem` writes
    idxOn: bool,                  // the table carries an index row or column
    lineAdd: bool,
    dataType: string)             // the C element type of the declaration

  /** `s.startswith("[") and s.endswith("]")` */
  predicate IsBracketed(s: string) { StartsWith(s, "[") && EndsWith(s, "]") }

  const Brackets: set<char> := {'[', ']'}

  /** `chkArrSize`: `[r,c]` gives `r` rows of `c` columns and `[n]` one row
      of `n`; `None` stands for the ValueError `int()` raises on anything
      that is not an integer. */
  function ChkArrSize(text: string): (r: Option<CellPos>)
    ensures r.Some? && !Contains(StripSet(text, Brackets), ",") ==> r.value.row == 1
    ensures r.Some? ==> StripSet(text, Brackets) != []
  {
    var inner := StripSet(text, Brackets);
    if Contains(inner, ",") then
      var parts := Split(inner, ",");
      assert |parts| >= 2;
      match (PyInt(parts[0]), PyInt(parts[1]))
      case (Some(rows), Some(cols)) =>
        assert inner != [] by { assert Join(parts, ",") == inner; }
        Some(CellPos(rows, cols))
      case _ => None
    else
      match PyInt(inner)
      case Some(cols) => Some(CellPos(1, cols))
      case None => None
  }

  lemma DigitsHaveNoBracketOrComma(s: string)
    requires AllDigits(s)
    ensures ',' !in s && '[' !in s && ']' !in s
  {
    forall i | 0 <= i < |s| ensures s[i] != ',' && s[i] != '[' && s[i] != ']' {
      assert IsAsciiDigit(s[i]);
    }
  }

  /** The size text `[r,c]` the sheet uses reads back as the size it spells. */
  lemma ChkArrSizeOfPair(rows: nat, cols: nat)
    ensures ChkArrSize("[" + (NatToString(rows) + "," + NatToString(cols)) + "]") == Some(CellPos(rows, cols))
  {
    var a := NatToString(rows);
    var b := NatToString(cols);
    DigitsHaveNoBracketOrComma(a);
    DigitsHaveNoBracketOrComma(b);
    PyIntOfNatToString(rows);
    PyIntOfNatToString(cols);
    var inner := a + "," + b;
    StripBrackets(inner);
    assert OccursAt(inner, ",", |a|);
    SplitAtSeparator(a, b, ',');
  }

  /** The size text `[n]` reads back as one row of `n` columns. */
  lemma ChkArrSizeOfSingle(cols: nat)
    ensures ChkArrSize("[" + NatToString(cols) + "]") == Some(CellPos(1, cols))
  {
    var b := NatToString(cols);
    DigitsHaveNoBracketOrComma(b);
    PyIntOfNatToString(cols);
    StripBrackets(b);
    AbsentCharNotContained(b, ',');
  }

  /** Stripping brackets from `[s]` gives `s` back when `s` neither starts
      nor ends with one. */
  lemma StripBrackets(s: string)
    requires |s| > 0 && s[0] !in Brackets && s[|s| - 1] !in Brackets
    ensures StripSet("[" + s + "]", Brackets) == s
  {
    var text := "[" + s + "]";
    assert text[1] == s[0] && text[|text| - 2] == s[|s| - 1];
    StripSetBetween(text, Brackets, 1, |text| - 1);
    assert text[1..|text| - 1] == s;
  }

  /** Some cell of `row` in the columns `[from, to)` holds text. */
  predicate RowHasText(g: Grid, row: int, from: int, to: int)
  {
    exists c | from <= c < to :: ReadCell(g, row, c) != ""
  }

  /** Some cell of `col` in the rows `[from, to)` holds text. */
  predicate ColHasText(g: Grid, col: int, from: int, to: int)
  {
    exists r | from <= r < to :: ReadCell(g, r, col) != ""
  }

  lemma RowHasTextStep(g: Grid, row: int, from: int, col: int)
    requires from <= col && !RowHasText(g, row, from, col) && ReadCell(g, row, col) == ""
    ensures !RowHasText(g, row, from, col + 1)
  {
  }

  lemma ColHasTextStep(g: Grid, col: int, from: int, r: int)
    requires from <= r && !ColHasText(g, col, from, r) && ReadCell(g, r, col) == ""
    ensures !ColHasText(g, col, from, r + 1)
  {
  }

  /** `chkArrtype`'s question: does any cell of the first two table rows
      (past the index column) or of the index column below them hold text?
      Only then is a one-row array with more than ten columns kept as Type1. */
  predicate HasContent(g: Grid, row: int, memCol: int, size: CellPos)
  {
    RowHasText(g, row, memCol + 1, memCol + size.col) ||
    RowHasText(g, row + 1, memCol + 1, memCol + size.col) ||
    ColHasText(g, memCol, row + 2, row + 2 + size.row)
  }

  /** One `for col in cols_to_check` scan of `chkArrtype`. */
  method ScanRow(g: Grid, row: int, from: int, to: int) returns (found: bool)
    ensures found == RowHasText(g, row, from, to)
  {
    var col := from;
    while col < to
      invariant from <= col
      invariant !RowHasText(g, row, from, col)
    {
      if ReadCell(g, row, col) != "" {
        assert RowHasText(g, row, from, to) by {
          assert from <= col < to && ReadCell(g, row, col) != "";
        }
        return true;
      }
      RowHasTextStep(g, row, from, col);
      col := col + 1;
    }
    return false;
  }

  /** The `for r in range(row + 2, row + 2 + rows)` scan of `chkArrtype`. */
  method ScanCol(g: Grid, col: int, from: int, to: int) returns (found: bool)
    ensures found == ColHasText(g, col, from, to)
  {
    var r := from;
    while r < to
      invariant from <= r
      invariant !ColHasText(g, col, from, r)
    {
      if ReadCell(g, r, col) != "" {
        assert ColHasText(g, col, from, to) by {
          assert from <= r < to && ReadCell(g, r, col) != "";
        }
        return true;
      }
      ColHasTextStep(g, col, from, r);
      r := r + 1;
    }
    return false;
  }

  /** `chkArrtype`: the three scans with their early returns. */
  method ChkArrtype(g: Grid, row: int, memCol: int, size: CellPos) returns (found: bool)
    ensures found == HasContent(g, row, memCol, size)
  {
    found := ScanRow(g, row, memCol + 1, memCol + size.col);
    if !found {
      found := ScanRow(g, row + 1, memCol + 1, memCol + size.col);
    }
    if !found {
      found := ScanCol(g, memCol, row + 2, row + 2 + size.row);
    }
  }

  /** The type `chkArrInfo` settles on once the size is known. */
  function RefineType(kind: ArrType, size: CellPos, hasContent: bool): ArrType
  {
    if size.row < 1 && size.col < 1 then SizeErr
    else if kind == Type1 && size.row == 1 && size.col > 10 then (if hasContent then Type1 else Type3)
    else if kind == Type1 && size.col == 1 then Type4
    else kind
  }

  /** Which candidate cell is bracketed: the member cell under the `$ARRAY`
      row (`below`) or its value cell (`right`). */
  function SizeCell(below: string, right: string): ArrType
  {
    if IsBracketed(below) && !IsBracketed(right) then Type1
    else if !IsBracketed(below) && IsBracketed(right) then Type2
    else SizeErr
  }

  /** `chkArrInfo(row)` for the `$ARRAY` row `row`, given the text of its
      two candidate size cells: the member cell of the next row (`below`)
      and its own value cell (`right`). The result is the array type and
      its size; `None` when the size cell does not parse. */
  function ChkArrInfo(below: string, right: string, g: Grid, row: int, memCol: int): (r: Option<(ArrType, CellPos)>)
    ensures
      && (r.None? <==> IsBracketed(below) != IsBracketed(right) &&
                       ChkArrSize(if IsBracketed(below) then below else right).None?)
      && (IsBracketed(below) == IsBracketed(right) ==> r == Some((SizeErr, CellPos(0, 0))))
      && (r.Some? && r.value.0 in {Type1, Type3, Type4} ==> IsBracketed(below) && !IsBracketed(right))
      && (r.Some? && r.value.0 == Type2 ==> !IsBracketed(below) && IsBracketed(right))
    ensures r.Some? ==> (r.value.0 == SizeErr <==> r.value.1.row < 1 && r.value.1.col < 1)
    ensures r.Some? && r.value.0 == Type3 ==>
      r.value.1.row == 1 && r.value.1.col > 10 && !HasContent(g, row, memCol, r.value.1)
    ensures r.Some? && r.value.0 == Type4 ==> r.value.1.col == 1
  {
    var kind := SizeCell(below, right);
    var parsed := if kind == SizeErr then Some(CellPos(0, 0)) else ChkArrSize(if kind == Type1 then below else right);
    match parsed
    case None => None
    case Some(size) => Some((RefineType(kind, size, HasContent(g, row, memCol, size)), size))
  }

  /** The columns a table row spans on the sheet beyond `ReadSize.Col`: the
      value row of a Type2 array reads its description cell too, and a
      Type3 array also reads its two edge cells. */
  function ColumnSlack(t: ArrType): int
  {
    match t
    case Type2 => 1
    case Type3 => 2
    case _ => 0
  }

  /** The shape every array keeps while its rows are read: the sheet span
      of a table row exceeds `ReadSize.Col` by the type's slack, and a
      multi-row table spans `ReadSize.Row` sheet rows. */
  predicate Geometry(a: ArrInfo)
  {
    a.arrType != SizeErr ==>
      && a.endPos.col - a.startPos.col + 1 == a.readSize.col + ColumnSlack(a.arrType)
      && (a.arrType in {Type1, Type4} ==> a.endPos.row - a.startPos.row + 1 == a.readSize.row)
  }

  /** `setArrInfo(row, arr_type, arr_size)`: where the table of the array
      declared on `row` starts, with empty tables and no annotation. */
  function SetArrInfo(row: int, t: ArrType, size: CellPos, memCol: int, valueCol: int, dataType: string): (r: ArrInfo)
    ensures Geometry(r)
    ensures r.originalSize == size && r.arrType == t && r.dataType == dataType
    ensures r.tempArr == [] && r.alignmentSize == [] && r.annotateRow == [] && r.annotateCol == []
    ensures r.rowCnt == 0 && !r.idxOn && !r.lineAdd
    ensures t in {Type1, Type4} ==> r.startPos == CellPos(row + 1, memCol) && r.readSize == CellPos(size.row + 1, size.col + 2)
    ensures t == Type2 ==> r.startPos == CellPos(row, valueCol) && r.endPos.row == row && r.readSize == size.(col := size.col + 1)
    ensures t == Type3 ==> r.startPos == CellPos(row + 2, memCol + 1) && r.endPos.row == row + 2 && r.readSize == size
    ensures t == SizeErr ==> r.startPos == r.endPos == r.readSize == CellPos(0, 0)
  {
    var (start, end, read) :=
      match t
      case Type1 | Type4 =>
        (CellPos(row + 1, memCol), CellPos(row + 1 + size.row, memCol + size.col + 1), CellPos(size.row + 1, size.col + 2))
      case Type2 =>
        (CellPos(row, valueCol), CellPos(row, valueCol + size.col + 1), CellPos(size.row, size.col + 1))
      case Type3 =>
        (CellPos(row + 2, memCol + 1), CellPos(row + 2, memCol + 1 + size.col + 1), size)
      case SizeErr =>
        (CellPos(0, 0), CellPos(0, 0), CellPos(0, 0));
    ArrInfo(size, read, start, end, [], [], [], [], t, 0, false, false, dataType)
  }
}
