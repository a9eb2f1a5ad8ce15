/** Reading the table rows of an array (`readArrMem`), preparing the table
    for output (`readyArrMemMake`) and writing one table row as C text
    (`writeArrMem`), from code_generator/cal_list.py. A table row is the
    sheet row's cells from `StartPos.Col` to `EndPos.Col`; a `$` cell on
    the first row turns its column into a comment column and widens the
    table by one column, and every column's width is tracked in UTF-8
    bytes (RFC 3629) for the alignment of the written rows. */
module ArrMem {
  import opened PyStr
  import opened PyList
  import opened Info
  import opened Arrays
  import opened FloatSuffix
  import Pad

  // ---------------------------------------------------------------- reading

  /** The state `readArrMem` carries along one sheet row: the array, the
      cells stored so far and the cells reported empty. */
  datatype RowScan = RowScan(info: ArrInfo, line: seq<string>, empties: seq<CellPos>)

  /** The number of cells of sheet row `row`; cells past it read as "". */
  function RowWidth(g: Grid, row: int): nat
  {
    if row >= |g| then 0
    else match PyIndex(|g|, row)
      case None => 0
      case Some(ri) => |g[ri]|
  }

  lemma TextOnlyWithinRow(g: Grid, row: int, col: int)
    requires ReadCell(g, row, col) != ""
    ensures col < RowWidth(g, row)
  {
  }

  /** The alignment slot of table column `k`: Type3 arrays are written ten
      values per line and share the widths of those ten slots. */
  function Slot(t: ArrType, k: int): int
  {
    if t == Type3 then k % 10 else k
  }

  /** The annotation bookkeeping of one cell, for arrays other than Type3:
      a `$` on the first table row makes its column a comment column (once)
      and widens the table; a `$` in the first table column makes its row a
      comment row (once) and lengthens the table; any other text in the
      index row or index column switches the index on. */
  function Annotate(a: ArrInfo, row: int, col: int, cell: string): (r: ArrInfo)
  {
    if cell == ReadingXlsRule then
      var k := col - a.startPos.col;
      var a1 :=
        if row == a.startPos.row && k !in a.annotateCol then
          a.(annotateCol := a.annotateCol + [k],
             endPos := a.endPos.(col := a.endPos.col + 1),
             readSize := a.readSize.(col := a.readSize.col + 1))
        else a;
      var ri := row - a.startPos.row;
      if col == a.startPos.col && ri !in a1.annotateRow then
        a1.(annotateRow := a1.annotateRow + [ri],
            endPos := a1.endPos.(row := a1.endPos.row + 1),
            readSize := a1.readSize.(row := a1.readSize.row + 1))
      else a1
    else if cell != "" && ((row == a.startPos.row && col > a.startPos.col) || (row > a.startPos.row && col == a.startPos.col)) then
      a.(idxOn := true)
    else a
  }

  /** `al` extended with zeros until it has a slot `pos`. */
  function Widen(al: seq<int>, pos: nat): (r: seq<int>)
    ensures |r| == Max(|al|, pos + 1) && r[..|al|] == al
    ensures forall i | |al| <= i < |r| :: r[i] == 0
    decreases pos + 1 - |al|
  {
    if pos >= |al| then Widen(al + [0], pos) else al
  }

  /** The text stored for a cell: an empty first cell of a non-Type3 table
      reads as `Idx`, and `$` is removed. */
  function StoredCell(a: ArrInfo, row: int, col: int, raw: string): string
  {
    Replace(SeenCell(a, row, col, raw), ReadingXlsRule, "")
  }

  /** The cell as `readArrMem` sees it before `$` is removed: an empty
      first cell of a non-Type3 table reads as `Idx`. */
  function SeenCell(a: ArrInfo, row: int, col: int, raw: string): string
  {
    if a.arrType != Type3 && row == a.startPos.row && col == a.startPos.col && raw == "" then "Idx" else raw
  }

  /** The array after the annotation bookkeeping of one cell and the
      one-slot growth of `AlignmentSize` on the first table row. */
  function Prepared(a: ArrInfo, row: int, col: int, raw: string): ArrInfo
  {
    var a1 := if a.arrType != Type3 then Annotate(a, row, col, SeenCell(a, row, col, raw)) else a;
    if row == a.startPos.row && col - a.startPos.col >= |a1.alignmentSize|
    then a1.(alignmentSize := a1.alignmentSize + [0]) else a1
  }

  /** An empty cell inside the table's body is reported. */
  predicate ReportedEmpty(a: ArrInfo, row: int, col: int, raw: string)
  {
    raw == "" && col != a.startPos.col && col != a.endPos.col && row != a.startPos.row
  }

  /** One turn of `readArrMem`'s `while col < EndPos.Col + 1` loop, on the
      cell text `raw` read at (`row`, `col`). */
  function StepWith(s: RowScan, row: int, col: int, raw: string): (r: RowScan)
    requires col >= s.info.startPos.col
  {
    var a2 := Prepared(s.info, row, col, raw);
    var stored := StoredCell(s.info, row, col, raw);
    var al := FitSlot(a2.alignmentSize, Slot(s.info.arrType, col - s.info.startPos.col), Utf8Len(stored));
    RowScan(a2.(alignmentSize := al), s.line + [stored],
            if ReportedEmpty(s.info, row, col, raw) then s.empties + [CellPos(row, col)] else s.empties)
  }

  function CellStep(g: Grid, row: int, s: RowScan, col: int): RowScan
    requires col >= s.info.startPos.col
  {
    StepWith(s, row, col, ReadCell(g, row, col))
  }

  /** `AlignmentSize[pos] = max(AlignmentSize[pos], n)` after extending the
      list to reach `pos`: no slot narrows, and slot `pos` holds `n`. */
  function FitSlot(al: seq<int>, pos: nat, n: int): (r: seq<int>)
    ensures |r| == Max(|al|, pos + 1) && r[pos] >= n
    ensures forall i | 0 <= i < |al| :: al[i] <= r[i]
    ensures forall i | 0 <= i < |r| && i != pos :: r[i] == (if i < |al| then al[i] else 0)
  {
    var w := Widen(al, pos);
    if n > w[pos] then w[pos := n] else w
  }

  /** What decreases along the loop: the columns left before `EndPos.Col`,
      plus the cells of the row that could still hold a `$`. */
  function Remaining(g: Grid, row: int, s: RowScan, col: int): nat
  {
    Max(0, s.info.endPos.col + 1 - col) + Max(0, RowWidth(g, row) - col)
  }

  /** The annotation bookkeeping keeps the corner, the type and the table,
      and widens the table by one column only for a `$` cell. */
  lemma AnnotateFrame(a: ArrInfo, row: int, col: int, cell: string)
    ensures var r := Annotate(a, row, col, cell);
      && r.startPos == a.startPos && r.arrType == a.arrType && r.tempArr == a.tempArr
      && r.originalSize == a.originalSize && r.alignmentSize == a.alignmentSize
      && a.endPos.col <= r.endPos.col <= a.endPos.col + 1
      && (r.endPos.col > a.endPos.col ==> cell == ReadingXlsRule)
  {
  }

  lemma PreparedFrame(a: ArrInfo, row: int, col: int, raw: string)
    ensures var r := Prepared(a, row, col, raw);
      && r.startPos == a.startPos && r.arrType == a.arrType && r.tempArr == a.tempArr
      && r.originalSize == a.originalSize && Grows(a.alignmentSize, r.alignmentSize)
      && a.endPos.col <= r.endPos.col <= a.endPos.col + 1
      && (r.endPos.col > a.endPos.col ==> raw != "")
  {
    AnnotateFrame(a, row, col, SeenCell(a, row, col, raw));
  }

  /** One step leaves the table's corner, type and earlier rows alone, and
      moves `EndPos.Col` by at most one column, only on a cell with text. */
  lemma CellStepFrame(g: Grid, row: int, s: RowScan, col: int)
    requires col >= s.info.startPos.col
    ensures var r := CellStep(g, row, s, col);
      && r.info.startPos == s.info.startPos && r.info.arrType == s.info.arrType
      && r.info.tempArr == s.info.tempArr && r.info.originalSize == s.info.originalSize
      && s.info.endPos.col <= r.info.endPos.col <= s.info.endPos.col + 1
      && (r.info.endPos.col > s.info.endPos.col ==> ReadCell(g, row, col) != "")
  {
    PreparedFrame(s.info, row, col, ReadCell(g, row, col));
  }

  lemma CellStepDecreases(g: Grid, row: int, s: RowScan, col: int)
    requires s.info.startPos.col <= col < s.info.endPos.col + 1
    ensures Remaining(g, row, CellStep(g, row, s, col), col + 1) < Remaining(g, row, s, col)
  {
    CellStepFrame(g, row, s, col);
    var r := CellStep(g, row, s, col);
    if r.info.endPos.col > s.info.endPos.col {
      TextOnlyWithinRow(g, row, col);
    }
  }

  /** The rest of the loop from column `col` on. The table keeps its shape
      and every stored cell fits its slot's width. */
  function ScanFrom(g: Grid, row: int, s: RowScan, col: int): (r: RowScan)
    requires col >= s.info.startPos.col
    ensures Distinct(s.info.annotateCol) ==> ScanShape(s.info, row, r.info)
    ensures ScanCells(s.info, s, col) ==> ScanCells(s.info, r, r.info.startPos.col + |r.line|)
    decreases Remaining(g, row, s, col)
  {
    if col < s.info.endPos.col + 1 then
      CellStepFrame(g, row, s, col);
      CellStepDecreases(g, row, s, col);
      var r := ScanFrom(g, row, CellStep(g, row, s, col), col + 1);
      ScanJoin(g, row, s, col, r);
      r
    else
      ShapeRefl(s.info, row);
      s
  }

  /** `readArrMem(row)` on the array `a`: the array with the row appended
      to its table, and the cells reported empty (each one becomes an
      `EmptyCell` entry of the error list). Arrays with a size error, and
      Type3 arrays on any row but their first, are left alone. */
  function ReadArrRow(g: Grid, row: int, a: ArrInfo): (ArrInfo, seq<CellPos>)
  {
    if a.arrType == SizeErr || (a.arrType == Type3 && row != a.startPos.row) then (a, [])
    else
      var s := ScanFrom(g, row, RowScan(a, [], []), a.startPos.col);
      (s.info.(tempArr := s.info.tempArr + [s.line]), s.empties)
  }

  // ------------------------------------------------- what a row read keeps

  /** `al'` is `al` possibly lengthened, with no slot narrower. */
  predicate Grows(al: seq<int>, al': seq<int>)
  {
    |al| <= |al'| && forall i | 0 <= i < |al| :: al[i] <= al'[i]
  }

  /** Every cell of `line` fits the width recorded for its slot. */
  predicate Covers(al: seq<int>, t: ArrType, line: seq<string>)
  {
    forall k | 0 <= k < |line| :: 0 <= Slot(t, k) < |al| && al[Slot(t, k)] >= Utf8Len(line[k])
  }

  /** Every stored table row fits the recorded column widths. */
  predicate AlignOk(a: ArrInfo)
  {
    forall r | r in a.tempArr :: Covers(a.alignmentSize, a.arrType, r)
  }

  lemma CoversGrow(al: seq<int>, al': seq<int>, t: ArrType, line: seq<string>)
    requires Covers(al, t, line) && Grows(al, al')
    ensures Covers(al', t, line)
  {
  }

  lemma DistinctAppend<T>(s: seq<T>, x: T)
    requires Distinct(s) && x !in s
    ensures Distinct(s + [x])
  {
  }

  /** The annotation bookkeeping keeps the difference between the table's
      end and its read size, adds one comment column per widening, never
      the same column twice, and only on the first table row for a `$`. */
  lemma AnnotateKeeps(a: ArrInfo, row: int, col: int, cell: string)
    requires Distinct(a.annotateCol)
    ensures var r := Annotate(a, row, col, cell);
      && r.endPos.col - r.readSize.col == a.endPos.col - a.readSize.col
      && r.endPos.row - r.readSize.row == a.endPos.row - a.readSize.row
      && |r.annotateCol| - |a.annotateCol| == r.endPos.col - a.endPos.col
      && a.annotateCol <= r.annotateCol && Distinct(r.annotateCol)
      && (r.annotateCol != a.annotateCol ==>
            row == a.startPos.row && cell == ReadingXlsRule && r.annotateCol == a.annotateCol + [col - a.startPos.col])
  {
    if cell == ReadingXlsRule && row == a.startPos.row && col - a.startPos.col !in a.annotateCol {
      DistinctAppend(a.annotateCol, col - a.startPos.col);
    }
  }

  /** What holds of the loop state after each column of the row: the
      shape of the table ... */
  predicate ScanShape(a0: ArrInfo, row: int, a: ArrInfo)
  {
    && a.startPos == a0.startPos && a.arrType == a0.arrType && a.tempArr == a0.tempArr
    && a.endPos.col - a.readSize.col == a0.endPos.col - a0.readSize.col
    && a.endPos.row - a.readSize.row == a0.endPos.row - a0.readSize.row
    && |a.annotateCol| - |a0.annotateCol| == a.endPos.col - a0.endPos.col
    && a0.annotateCol <= a.annotateCol && Distinct(a.annotateCol)
    && (row != a0.startPos.row ==> a.annotateCol == a0.annotateCol)
  }

  /** ... and the cells stored so far. */
  predicate ScanCells(a0: ArrInfo, s: RowScan, col: int)
  {
    && col == s.info.startPos.col + |s.line|
    && Grows(a0.alignmentSize, s.info.alignmentSize)
    && Covers(s.info.alignmentSize, s.info.arrType, s.line)
    && (forall k | 0 <= k < |s.line| :: RuleFree(s.line[k]))
  }

  predicate ScanOk(a0: ArrInfo, row: int, s: RowScan, col: int)
  {
    ScanShape(a0, row, s.info) && ScanCells(a0, s, col)
  }

  /** The cell holds no `$`, the one character of `ReadingXlsRule`. */
  predicate RuleFree(c: string) { forall i | 0 <= i < |c| :: c[i] != '$' }

  lemma RuleFreeNotContained(c: string)
    requires RuleFree(c)
    ensures !Contains(c, ReadingXlsRule)
  {
    AbsentCharNotContained(c, '$');
  }

  lemma StoredCellHasNoRule(a: ArrInfo, row: int, col: int, raw: string)
    ensures RuleFree(StoredCell(a, row, col, raw))
  {
    ReplaceNoPattern(SeenCell(a, row, col, raw), ReadingXlsRule, "");
    NotContainedCharFree(StoredCell(a, row, col, raw), '$');
  }

  lemma PreparedKeeps(a: ArrInfo, row: int, col: int, raw: string)
    requires Distinct(a.annotateCol)
    ensures var r := Prepared(a, row, col, raw);
      && r.endPos.col - r.readSize.col == a.endPos.col - a.readSize.col
      && r.endPos.row - r.readSize.row == a.endPos.row - a.readSize.row
      && |r.annotateCol| - |a.annotateCol| == r.endPos.col - a.endPos.col
      && a.annotateCol <= r.annotateCol && Distinct(r.annotateCol)
      && (row != a.startPos.row ==> r.annotateCol == a.annotateCol)
  {
    AnnotateKeeps(a, row, col, SeenCell(a, row, col, raw));
  }

  lemma CellStepKeepsShape(g: Grid, row: int, a0: ArrInfo, s: RowScan, col: int)
    requires col >= s.info.startPos.col && ScanShape(a0, row, s.info)
    ensures ScanShape(a0, row, CellStep(g, row, s, col).info)
  {
    var raw := ReadCell(g, row, col);
    PreparedKeeps(s.info, row, col, raw);
    PreparedFrame(s.info, row, col, raw);
  }

  lemma GrowsTrans(a: seq<int>, b: seq<int>, c: seq<int>)
    requires Grows(a, b) && Grows(b, c)
    ensures Grows(a, c)
  {
  }

  lemma StepWithKeepsCells(a0: ArrInfo, s: RowScan, row: int, col: int, raw: string)
    requires col >= s.info.startPos.col && ScanCells(a0, s, col)
    ensures ScanCells(a0, StepWith(s, row, col, raw), col + 1)
  {
    PreparedFrame(s.info, row, col, raw);
    StepWithGrows(a0, s, row, col, raw);
    StepWithCovers(s, row, col, raw);
    StepWithRuleFree(s, row, col, raw);
  }

  lemma StepWithGrows(a0: ArrInfo, s: RowScan, row: int, col: int, raw: string)
    requires col >= s.info.startPos.col && Grows(a0.alignmentSize, s.info.alignmentSize)
    ensures Grows(a0.alignmentSize, StepWith(s, row, col, raw).info.alignmentSize)
  {
    var a := s.info;
    PreparedFrame(a, row, col, raw);
    var a2 := Prepared(a, row, col, raw);
    var r := StepWith(s, row, col, raw);
    assert Grows(a2.alignmentSize, r.info.alignmentSize);
    GrowsTrans(a.alignmentSize, a2.alignmentSize, r.info.alignmentSize);
    GrowsTrans(a0.alignmentSize, a.alignmentSize, r.info.alignmentSize);
  }

  lemma StepWithCovers(s: RowScan, row: int, col: int, raw: string)
    requires col == s.info.startPos.col + |s.line|
    requires Covers(s.info.alignmentSize, s.info.arrType, s.line)
    ensures var r := StepWith(s, row, col, raw);
      Covers(r.info.alignmentSize, r.info.arrType, r.line)
  {
    var a := s.info;
    PreparedFrame(a, row, col, raw);
    var a2 := Prepared(a, row, col, raw);
    var r := StepWith(s, row, col, raw);
    var stored := StoredCell(a, row, col, raw);
    var slot := Slot(a.arrType, |s.line|);
    var al := FitSlot(a2.alignmentSize, slot, Utf8Len(stored));
    assert r.info.alignmentSize == al && r.info.arrType == a.arrType && r.line == s.line + [stored];
    CoversGrow(a.alignmentSize, al, a.arrType, s.line);
    CoversAppend(al, a.arrType, s.line, stored);
  }

  lemma StepWithRuleFree(s: RowScan, row: int, col: int, raw: string)
    requires col >= s.info.startPos.col
    requires forall k | 0 <= k < |s.line| :: RuleFree(s.line[k])
    ensures var r := StepWith(s, row, col, raw);
      forall k | 0 <= k < |r.line| :: RuleFree(r.line[k])
  {
    var stored := StoredCell(s.info, row, col, raw);
    StoredCellHasNoRule(s.info, row, col, raw);
    NoRuleAppend(s.line, stored);
  }

  lemma CoversAppend(al: seq<int>, t: ArrType, line: seq<string>, x: string)
    requires Covers(al, t, line)
    requires 0 <= Slot(t, |line|) < |al| && al[Slot(t, |line|)] >= Utf8Len(x)
    ensures Covers(al, t, line + [x])
  {
  }

  lemma NoRuleAppend(line: seq<string>, x: string)
    requires forall k | 0 <= k < |line| :: RuleFree(line[k])
    requires RuleFree(x)
    ensures forall k | 0 <= k < |line + [x]| :: RuleFree((line + [x])[k])
  {
  }

  lemma ScanFromKeeps(g: Grid, row: int, a0: ArrInfo, s0: RowScan, col0: int)
    requires ScanOk(a0, row, s0, col0)
    ensures ScanOk(a0, row, ScanFrom(g, row, s0, col0), a0.startPos.col + |ScanFrom(g, row, s0, col0).line|)
  {
    var r := ScanFrom(g, row, s0, col0);
    ShapeTrans(a0, s0.info, r.info, row);
    assert ScanCells(s0.info, s0, col0);
    GrowsTrans(a0.alignmentSize, s0.info.alignmentSize, r.info.alignmentSize);
  }

  lemma ShapeRefl(a: ArrInfo, row: int)
    ensures Distinct(a.annotateCol) ==> ScanShape(a, row, a)
  {
  }

  lemma ShapeTrans(a: ArrInfo, b: ArrInfo, c: ArrInfo, row: int)
    requires ScanShape(a, row, b) && ScanShape(b, row, c)
    ensures ScanShape(a, row, c)
  {
  }

  /** One column, then the rest of the row: the step's facts and the rest's
      compose. */
  lemma ScanJoin(g: Grid, row: int, s: RowScan, col: int, r: RowScan)
    requires s.info.startPos.col <= col < s.info.endPos.col + 1
    requires var s1 := CellStep(g, row, s, col);
      && (Distinct(s1.info.annotateCol) ==> ScanShape(s1.info, row, r.info))
      && (ScanCells(s1.info, s1, col + 1) ==> ScanCells(s1.info, r, r.info.startPos.col + |r.line|))
    ensures Distinct(s.info.annotateCol) ==> ScanShape(s.info, row, r.info)
    ensures ScanCells(s.info, s, col) ==> ScanCells(s.info, r, r.info.startPos.col + |r.line|)
  {
    var s1 := CellStep(g, row, s, col);
    if Distinct(s.info.annotateCol) {
      ShapeRefl(s.info, row);
      CellStepKeepsShape(g, row, s.info, s, col);
      ShapeTrans(s.info, s1.info, r.info, row);
    }
    if ScanCells(s.info, s, col) {
      StepWithKeepsCells(s.info, s, row, col, ReadCell(g, row, col));
      assert ScanCells(s1.info, s1, col + 1);
      GrowsTrans(s.info.alignmentSize, s1.info.alignmentSize, r.info.alignmentSize);
    }
  }

  /** Reading a row keeps the table's geometry, keeps every stored row
      within the recorded column widths, never lists a comment column
      twice, adds comment columns only on the first table row, and stores
      no cell that still holds a `$`. */
  lemma ReadArrRowKeeps(g: Grid, row: int, a: ArrInfo)
    requires Geometry(a) && AlignOk(a) && Distinct(a.annotateCol)
    ensures var r := ReadArrRow(g, row, a).0;
      && Geometry(r) && AlignOk(r) && Distinct(r.annotateCol)
      && r.startPos == a.startPos && r.arrType == a.arrType
      && a.annotateCol <= r.annotateCol
      && (row != a.startPos.row ==> r.annotateCol == a.annotateCol && r.readSize.col == a.readSize.col)
      && (forall line | line in r.tempArr :: forall k | 0 <= k < |line| :: line !in a.tempArr ==> !Contains(line[k], ReadingXlsRule))
  {
    if !(a.arrType == SizeErr || (a.arrType == Type3 && row != a.startPos.row)) {
      var s0 := RowScan(a, [], []);
      ScanFromKeeps(g, row, a, s0, a.startPos.col);
      var s := ScanFrom(g, row, s0, a.startPos.col);
      var r := s.info.(tempArr := s.info.tempArr + [s.line]);
      forall line | line in r.tempArr
        ensures Covers(r.alignmentSize, r.arrType, line)
      {
        if line in a.tempArr {
          CoversGrow(a.alignmentSize, r.alignmentSize, r.arrType, line);
        }
      }
      forall k | 0 <= k < |s.line| ensures !Contains(s.line[k], ReadingXlsRule) {
        RuleFreeNotContained(s.line[k]);
      }
    }
  }

  /** The inner `while pos >= len(AlignmentSize)` loop of `readArrMem` and
      the width update after it. */
  method FitSlotLoop(al0: seq<int>, pos: nat, n: int) returns (al: seq<int>)
    ensures al == FitSlot(al0, pos, n)
  {
    al := al0;
    while pos >= |al|
      invariant Widen(al, pos) == Widen(al0, pos)
      decreases pos + 1 - |al|
    {
      al := al + [0];
    }
    if n > al[pos] {
      al := al[pos := n];
    }
  }

  /** The body of `readArrMem`'s loop for one column. */
  method ReadArrCell(g: Grid, row: int, s: RowScan, col: int) returns (next: RowScan)
    requires col >= s.info.startPos.col
    ensures next == CellStep(g, row, s, col)
  {
    var raw := ReadCell(g, row, col);
    var a2 := Prepared(s.info, row, col, raw);
    var stored := StoredCell(s.info, row, col, raw);
    var al := FitSlotLoop(a2.alignmentSize, Slot(s.info.arrType, col - s.info.startPos.col), Utf8Len(stored));
    var empties := if ReportedEmpty(s.info, row, col, raw) then s.empties + [CellPos(row, col)] else s.empties;
    next := RowScan(a2.(alignmentSize := al), s.line + [stored], empties);
  }

  /** The `while` loop of `readArrMem`, including its inner `while` that
      extends `AlignmentSize`. */
  method ReadArrMem(g: Grid, row: int, a: ArrInfo) returns (r: ArrInfo, empties: seq<CellPos>)
    ensures (r, empties) == ReadArrRow(g, row, a)
  {
    if a.arrType == SizeErr || (a.arrType == Type3 && row != a.startPos.row) {
      return a, [];
    }
    var s := RowScan(a, [], []);
    var col := a.startPos.col;
    while col < s.info.endPos.col + 1
      invariant col >= s.info.startPos.col && s.info.startPos == a.startPos
      invariant ScanFrom(g, row, s, col) == ScanFrom(g, row, RowScan(a, [], []), a.startPos.col)
      decreases Remaining(g, row, s, col)
    {
      CellStepFrame(g, row, s, col);
      CellStepDecreases(g, row, s, col);
      var next := ReadArrCell(g, row, s, col);
      s := next;
      col := col + 1;
    }
    r := s.info.(tempArr := s.info.tempArr + [s.line]);
    empties := s.empties;
  }

  // -------------------------------------------------------------- preparing

  /** A label column is an annotated column that opens a run of annotated
      columns; `readyArrMemMake` widens each non-empty one by `len("Idx")`. */
  predicate OpensLabel(al: seq<int>, ac: seq<int>, n: int, c: int)
  {
    0 <= c < |al| && c < n && c in ac && al[c] != 0 && (c == 0 || c - 1 !in ac)
  }

  /** The widths after the label widening of the first `n` columns. */
  function LabelWidths(al: seq<int>, ac: seq<int>, n: int): (r: seq<int>)
    ensures |r| == |al| && Grows(al, r)
    ensures forall c | 0 <= c < |al| :: r[c] == (if OpensLabel(al, ac, n, c) then al[c] + 3 else al[c])
  {
    seq(|al|, c requires 0 <= c < |al| => if OpensLabel(al, ac, n, c) then al[c] + 3 else al[c])
  }

  /** The `for col in range(len(TempArr[0]))` loop of `readyArrMemMake`,
      which widens the label columns in place. */
  method WidenLabels(al: seq<int>, ac: seq<int>, n: nat) returns (r: seq<int>)
    ensures r == LabelWidths(al, ac, n)
  {
    r := al;
    for col := 0 to n
      invariant |r| == |al|
      invariant forall c | 0 <= c < |al| :: r[c] == (if c < col && OpensLabel(al, ac, n, c) then al[c] + 3 else al[c])
    {
      if col < |r| && col in ac && r[col] != 0 {
        if col == 0 || col - 1 !in ac {
          r := r[col := r[col] + 3];
        }
      }
    }
  }

  /** `readyArrMemMake()`: a table with an index gets row 0 as a comment
      row; a table whose first column has a width gets `Idx` as its first
      cell and column 0 as a comment column; then the label columns are
      widened. Type3 tables and size errors are left alone. */
  function ReadyArrMake(a: ArrInfo): ArrInfo
  {
    if a.arrType == Type3 || a.arrType == SizeErr then a
    else
      var a1 := if a.idxOn then a.(annotateRow := a.annotateRow + [0]) else a;
      var a2 :=
        if |a1.alignmentSize| > 0 && a1.alignmentSize[0] > 0 && |a1.tempArr| > 0 && |a1.tempArr[0]| > 0 then
          a1.(tempArr := a1.tempArr[0 := a1.tempArr[0][0 := "Idx"]],
              alignmentSize := a1.alignmentSize[0 := Max(a1.alignmentSize[0], 3)],
              annotateCol := a1.annotateCol + [0])
        else a1;
      if |a2.tempArr| > 0 && |a2.tempArr[0]| > 0 then
        a2.(alignmentSize := LabelWidths(a2.alignmentSize, a2.annotateCol, |a2.tempArr[0]|))
      else a2
  }

  method ReadyArrMemMake(a: ArrInfo) returns (r: ArrInfo)
    ensures r == ReadyArrMake(a)
  {
    if a.arrType == Type3 || a.arrType == SizeErr {
      return a;
    }
    r := a;
    if r.idxOn {
      r := r.(annotateRow := r.annotateRow + [0]);
    }
    if |r.alignmentSize| > 0 && r.alignmentSize[0] > 0 && |r.tempArr| > 0 && |r.tempArr[0]| > 0 {
      r := r.(tempArr := r.tempArr[0 := r.tempArr[0][0 := "Idx"]]);
      if r.alignmentSize[0] < 3 {
        r := r.(alignmentSize := r.alignmentSize[0 := 3]);
      }
      r := r.(annotateCol := r.annotateCol + [0]);
    }
    if |r.tempArr| > 0 && |r.tempArr[0]| > 0 {
      var al := WidenLabels(r.alignmentSize, r.annotateCol, |r.tempArr[0]|);
      r := r.(alignmentSize := al);
    }
  }

  lemma IdxWidth()
    ensures Utf8Len("Idx") == 3
  {
    assert "Idx"[..2] == "Id" && "Id"[..1] == "I" && "I"[..0] == "";
  }

  /** Preparing the table keeps its geometry and keeps every stored row
      within the recorded widths (the `Idx` label fits a width of 3). */
  lemma ReadyArrMakeKeeps(a: ArrInfo)
    requires Geometry(a) && AlignOk(a)
    ensures var r := ReadyArrMake(a);
      Geometry(r) && AlignOk(r) && Grows(a.alignmentSize, r.alignmentSize)
      && r.startPos == a.startPos && r.endPos == a.endPos && r.readSize == a.readSize
      && |r.tempArr| == |a.tempArr| && r.arrType == a.arrType
  {
    if a.arrType != Type3 && a.arrType != SizeErr {
      var a1 := if a.idxOn then a.(annotateRow := a.annotateRow + [0]) else a;
      if |a1.alignmentSize| > 0 && a1.alignmentSize[0] > 0 && |a1.tempArr| > 0 && |a1.tempArr[0]| > 0 {
        var a2 := a1.(tempArr := a1.tempArr[0 := a1.tempArr[0][0 := "Idx"]],
                      alignmentSize := a1.alignmentSize[0 := Max(a1.alignmentSize[0], 3)],
                      annotateCol := a1.annotateCol + [0]);
        IdxWidth();
        assert Grows(a.alignmentSize, a2.alignmentSize);
        forall line | line in a2.tempArr
          ensures Covers(a2.alignmentSize, a2.arrType, line)
        {
          if line == a2.tempArr[0] {
            assert Covers(a.alignmentSize, a.arrType, a.tempArr[0]);
          } else {
            assert line in a.tempArr;
            CoversGrow(a.alignmentSize, a2.alignmentSize, a.arrType, line);
          }
        }
        forall line | line in ReadyArrMake(a).tempArr
          ensures Covers(ReadyArrMake(a).alignmentSize, a.arrType, line)
        {
          CoversGrow(a2.alignmentSize, ReadyArrMake(a).alignmentSize, a.arrType, line);
        }
      } else {
        forall line | line in ReadyArrMake(a).tempArr
          ensures Covers(ReadyArrMake(a).alignmentSize, a.arrType, line)
        {
          CoversGrow(a.alignmentSize, ReadyArrMake(a).alignmentSize, a.arrType, line);
        }
      }
    }
  }

  // ---------------------------------------------------------------- writing

  /** What `writeArrMem` gives back: no text (None), a line, or the
      `IndexError` of a trailing-comment lookup with a negative index past
      the start of the row. */
  datatype ArrLine = NoLine | Line(text: string) | IndexFault

  /** The text being built and the running width of the current comment
      run (`antt_cnt`). */
  datatype LineState = LineState(text: string, antt: int)

  /** Cells of comment rows and columns, and cells holding a comment
      marker, are written as they are; every other cell gets the float
      suffix, whatever the array's element type. */
  predicate CommentContext(a: ArrInfo, row: int, col: int, raw: string)
  {
    row in a.annotateRow || col in a.annotateCol || Contains(raw, "/*") || Contains(raw, "//")
  }

  function CellText(a: ArrInfo, row: int, col: int, raw: string): string
  {
    if CommentContext(a, row, col, raw) then raw else ApplyFloatSuffix(raw)
  }

  /** `" "` after a blank cell, `","` after any other. */
  function Separator(cell: string): string
  {
    if Strip(cell) == "" then " " else ","
  }

  /** A comment run with nothing but markers, braces and tabs in the line so
      far has its markers blanked out. */
  function EraseBlankComment(text: string): string
  {
    var bare := Replace(Replace(Replace(Replace(text, "/*", ""), "*/", ""), "{", ""), "\t", "");
    if Strip(bare) == "" then Replace(Replace(text, "/*", "  "), "*/", "  ") else text
  }

  /** A value followed by its separator and the tabs that bring the next
      value to the column's tab stop. */
  function ValuePiece(cell: string, eoc: string, w: int): string
  {
    cell + LJust(eoc, Pad.CalculatePad(w, Utf8Len(cell), true, 1), '\t')
  }

  /** Whatever the value, as long as it is no wider than the column, the
      separator is followed by at least one tab and the tabs end on the
      same tab stop: the values of a column line up from row to row. */
  lemma ValuePieceAligned(cell: string, c: char, w: int)
    requires Utf8Len(cell) <= w
    ensures var n := Pad.CalculatePad(w, Utf8Len(cell), true, 1) - 1;
      && n >= 1 && ValuePiece(cell, [c], w) == cell + [c] + Repeat('\t', n)
      && Pad.TabColumn(Utf8Len(cell) + 1, n) == Pad.BlockStop(w + 1, 1)
  {
    var n := Pad.CalculatePad(w, Utf8Len(cell), true, 1) - 1;
    Pad.PadAlignsSeparator(w, Utf8Len(cell), 1);
    assert LJust([c], n + 1, '\t') == [c] + Repeat('\t', n);
  }

  /** The padding after the last written column: on multi-row Type1
      tables and comment rows, tabs to the column's tab stop. */
  function LastPad(a: ArrInfo, row: int, col: int, cell: string): string
  {
    if ((a.arrType == Type1 && a.originalSize.row > 1) || row in a.annotateRow) && 0 <= col < |a.alignmentSize|
    then LJust("\t", Pad.CalculatePad(a.alignmentSize[col] - 1, Utf8Len(cell) - 1, true, 1) - 1, '\t')
    else ""
  }

  /** A value column other than the last; Type3 tables write ten values per
      line. */
  function ValueText(a: ArrInfo, col: nat, cell: string): string
  {
    var tc := Slot(a.arrType, col);
    var piece :=
      if a.arrType == Type3 && tc == 9 then cell + ","
      else if tc < |a.alignmentSize| then ValuePiece(cell, Separator(cell), a.alignmentSize[tc])
      else cell + Separator(cell) + "\t";
    piece + (if a.arrType == Type3 && col % 10 == 9 then "\r\n\t" else "")
  }

  /** A comment column opens a run when the column before it is not a
      comment column; the run's first cell is preceded by a C block-comment
      opener, or by three spaces on a comment row. */
  predicate Opens(a: ArrInfo, col: int)
  {
    col == 0 || col - 1 !in a.annotateCol
  }

  function Shown(a: ArrInfo, row: int, col: int, cell: string): string
  {
    if !Opens(a, col) then cell else if row in a.annotateRow then "   " + cell else "/* " + cell
  }

  /** `antt_cnt` after a comment column whose width is known. */
  function CommentAntt(a: ArrInfo, antt: int, col: int): int
    requires 0 <= col < |a.alignmentSize|
  {
    (if Opens(a, col) then 0 else antt) + a.alignmentSize[col] + (if col + 1 in a.annotateCol then 2 else 3)
  }

  /** One or two tabs after a closed comment run. */
  function RunTabs(antt: int): string
  {
    "\t" + (if antt % TabSize > 2 then "\t" else "")
  }

  /** The comment column that closes a run on a row that is not itself a
      comment row: the line written so far may be rewritten. */
  predicate Erases(a: ArrInfo, row: int, col: int)
  {
    col in a.annotateCol && 0 <= col < |a.alignmentSize| && col + 1 !in a.annotateCol && row !in a.annotateRow
  }

  /** What a column appends to the line, for every column but one that
      closes a comment run on an ordinary row. */
  function Piece(a: ArrInfo, row: int, maxCol: int, antt: int, col: nat, cell: string): string
  {
    if col in a.annotateCol then
      if col < |a.alignmentSize| then
        var shown := Shown(a, row, col, cell);
        var w := a.alignmentSize[col];
        if col + 1 in a.annotateCol then shown + LJust(Separator(cell), w - Utf8Len(shown) + 2, ' ')
        else shown + LJust(Separator(cell), w - Utf8Len(shown) + 3, ' ') + RunTabs(CommentAntt(a, antt, col))
      else cell + ", "
    else if col == maxCol - 1 then cell + LastPad(a, row, col, cell)
    else if a.arrType == Type3 || (a.arrType != Type4 && col != 0) then ValueText(a, col, cell)
    else ""
  }

  function NextAntt(a: ArrInfo, antt: int, col: int): int
  {
    if col in a.annotateCol && 0 <= col < |a.alignmentSize| then CommentAntt(a, antt, col) else antt
  }

  /** One turn of the `for col in range(max_col)` loop of `writeArrMem`. */
  function ColumnStep(a: ArrInfo, row: int, maxCol: int, st: LineState, col: nat, cell: string): LineState
  {
    if Erases(a, row, col) then
      var shown := Shown(a, row, col, cell);
      var antt := CommentAntt(a, st.antt, col);
      var closed := st.text + shown + LJust(" ", a.alignmentSize[col] - Utf8Len(shown) + 1, ' ') + "*/";
      LineState(EraseBlankComment(closed) + RunTabs(antt), antt)
    else LineState(st.text + Piece(a, row, maxCol, st.antt, col, cell), NextAntt(a, st.antt, col))
  }

  /** The opening of a row: a comment opener on a comment row, and the row's `{` on a
      multi-row table that is not Type4. */
  function RowOpen(a: ArrInfo, row: int): string
  {
    (if row in a.annotateRow then "/*\t" else "\t")
    + (if a.originalSize.row > 1 && a.arrType != Type4 then (if row in a.annotateRow then "\t" else "{\t") else "")
  }

  /** The line after the first `n` columns of `cells`. */
  function Columns(a: ArrInfo, row: int, maxCol: int, cells: seq<string>, n: nat): LineState
    requires n <= |cells|
  {
    if n == 0 then LineState(RowOpen(a, row), 0)
    else ColumnStep(a, row, maxCol, Columns(a, row, maxCol, cells, n - 1), n - 1, CellText(a, row, n - 1, cells[n - 1]))
  }

  /** The closing of a row: the comment closer on a comment row; `}` (not for Type4) and
      a `,` before every row but the last on a multi-row table. */
  function RowClose(a: ArrInfo, row: int): string
  {
    if row in a.annotateRow then "*/"
    else if a.originalSize.row > 1 then
      (if a.arrType != Type4 then "}" else "") + (if row < a.readSize.row - 1 then "," else "")
    else ""
  }

  /** The comment column after the values, written as a `//` comment; None
      is the `IndexError` of a negative index past the start of the row. */
  function TrailingComment(a: ArrInfo, row: int): Option<string>
  {
    var t := a.tempArr;
    if 0 <= row < |t| && |t[row]| > a.readSize.col - 1 then
      match PyIndex(|t[row]|, a.readSize.col - 1)
      case None => None
      case Some(i) =>
        var comment := Strip(t[row][i]);
        if comment == "" then Some("")
        else
          var tabs: Option<string> :=
            if a.arrType == Type4 && a.readSize.col - 2 < |a.alignmentSize| then
              match (PyIndex(|a.alignmentSize|, a.readSize.col - 2), PyIndex(|t[row]|, a.readSize.col - 2))
              case (Some(p), Some(q)) =>
                Some(LJust("\t", (a.alignmentSize[p] + 1) / TabSize + 1 - (|t[row][q]| + 1) / TabSize, '\t'))
              case _ => None
            else Some("");
          match tabs
          case None => None
          case Some(tb) => Some(tb + (if a.arrType != Type3 then "\t// " + comment else ""))
    else Some("")
  }

  /** The array's closing brace after its last row. */
  function ArrayClose(a: ArrInfo): string
  {
    if a.rowCnt == a.readSize.row - 1 then "\r\n};\r\n\r\n" else ""
  }

  /** Rows for which `writeArrMem` returns None before writing anything. */
  predicate NotWritten(a: ArrInfo)
  {
    || a.arrType == SizeErr
    || (a.arrType != Type3 && a.rowCnt == 0 && !a.idxOn)
    || (a.arrType == Type3 && a.rowCnt > 0)
  }

  function MaxCol(a: ArrInfo): int
  {
    if a.arrType != Type3 then a.readSize.col - 1 else a.readSize.col
  }

  /** The row's cells are missing from the table. */
  predicate CellsMissing(a: ArrInfo)
  {
    MaxCol(a) > 0 && (a.rowCnt >= |a.tempArr| || |a.tempArr[a.rowCnt]| < MaxCol(a))
  }

  function RowCells(a: ArrInfo): seq<string>
  {
    if a.rowCnt < |a.tempArr| then a.tempArr[a.rowCnt] else []
  }

  /** The written columns of the current row. */
  function ColumnText(a: ArrInfo): string
    requires !CellsMissing(a)
  {
    Columns(a, a.rowCnt, MaxCol(a), RowCells(a), Max(0, MaxCol(a))).text
  }

  /** `writeArrMem()` for the array's current row `RowCnt`. */
  function WriteArrMem(a: ArrInfo): (r: ArrLine)
    ensures r == NoLine <==> NotWritten(a) || CellsMissing(a)
    ensures r == IndexFault ==> a.readSize.col < 2
    ensures r.Line? ==> TrailingComment(a, a.rowCnt).Some?
  {
    if NotWritten(a) || CellsMissing(a) then NoLine
    else
      match TrailingComment(a, a.rowCnt)
      case None => IndexFault
      case Some(c) => Line(ColumnText(a) + RowClose(a, a.rowCnt) + c + ArrayClose(a))
  }

  /** The `for col in range(max_col)` loop of `writeArrMem`: false when
      one of its two early returns is taken, else the written columns. */
  method WriteColumns(a: ArrInfo) returns (found: bool, text: string)
    ensures found == !CellsMissing(a)
    ensures found ==> text == ColumnText(a)
  {
    var row := a.rowCnt;
    var maxCol := MaxCol(a);
    var n := if maxCol > 0 then maxCol else 0;
    ghost var cells := RowCells(a);
    var st := LineState(RowOpen(a, row), 0);
    for col := 0 to n
      invariant col <= |cells|
      invariant col > 0 ==> row < |a.tempArr| && cells == a.tempArr[row]
      invariant st == Columns(a, row, maxCol, cells, col)
    {
      if row >= |a.tempArr| {
        return false, "";
      }
      if col >= |a.tempArr[row]| {
        return false, "";
      }
      assert cells == a.tempArr[row];
      var cell := CellText(a, row, col, a.tempArr[row][col]);
      st := ColumnStep(a, row, maxCol, st, col, cell);
    }
    assert n == Max(0, maxCol);
    return true, st.text;
  }

  /** `writeArrMem()`: the checks before the loop, the loop, then the
      row's closing, comment and final brace. */
  method WriteArrMemRow(a: ArrInfo) returns (r: ArrLine)
    ensures r == WriteArrMem(a)
  {
    if NotWritten(a) {
      return NoLine;
    }
    var found, text := WriteColumns(a);
    if !found {
      return NoLine;
    }
    var comment := TrailingComment(a, a.rowCnt);
    if comment.None? {
      return IndexFault;
    }
    r := Line(text + RowClose(a, a.rowCnt) + comment.value + ArrayClose(a));
  }

  lemma StartsWithTrans(s: string, t: string, p: string)
    requires StartsWith(s, t) && StartsWith(t, p)
    ensures StartsWith(s, p)
  {
    assert s[..|p|] == s[..|t|][..|p|];
  }

  lemma StartsWithAppend(s: string, x: string)
    ensures StartsWith(s + x, s)
  {
    assert (s + x)[..|s|] == s;
  }

  lemma EndsWithAppend(s: string, x: string)
    ensures EndsWith(s + x, x)
  {
    assert (s + x)[|s + x| - |x|..] == x;
  }

  /** A written row is bracketed: it begins with its columns followed by
      the row's closing (the comment closer, or `}` and the separating
      comma), it ends with the array's closing brace when it is the last
      row, and with its trailing comment otherwise. */
  lemma WrittenRowBracketed(a: ArrInfo)
    ensures var r := WriteArrMem(a);
      r.Line? ==>
        StartsWith(r.text, ColumnText(a) + RowClose(a, a.rowCnt))
        && (a.rowCnt == a.readSize.row - 1 ==> EndsWith(r.text, "\r\n};\r\n\r\n"))
        && (a.rowCnt != a.readSize.row - 1 ==> EndsWith(r.text, TrailingComment(a, a.rowCnt).value))
  {
    var r := WriteArrMem(a);
    if r.Line? {
      var head := ColumnText(a) + RowClose(a, a.rowCnt);
      var c := TrailingComment(a, a.rowCnt).value;
      assert r.text == head + (c + ArrayClose(a));
      StartsWithAppend(head, c + ArrayClose(a));
      if a.rowCnt == a.readSize.row - 1 {
        assert r.text == (head + c) + "\r\n};\r\n\r\n";
        EndsWithAppend(head + c, "\r\n};\r\n\r\n");
      } else {
        assert r.text == head + c;
        EndsWithAppend(head, c);
      }
    }
  }

  /** On a comment row, every column only appends to the line. */
  lemma ColumnStepExtends(a: ArrInfo, row: int, maxCol: int, st: LineState, col: nat, cell: string)
    requires row in a.annotateRow
    ensures StartsWith(ColumnStep(a, row, maxCol, st, col, cell).text, st.text)
  {
    StartsWithAppend(st.text, Piece(a, row, maxCol, st.antt, col, cell));
  }

  lemma {:induction false} ColumnsExtend(a: ArrInfo, row: int, maxCol: int, cells: seq<string>, n: nat)
    requires n <= |cells| && row in a.annotateRow
    ensures StartsWith(Columns(a, row, maxCol, cells, n).text, "/*\t")
  {
    if n == 0 {
      StartsWithAppend("/*\t", Columns(a, row, maxCol, cells, 0).text[3..]);
    } else {
      ColumnsExtend(a, row, maxCol, cells, n - 1);
      var prev := Columns(a, row, maxCol, cells, n - 1);
      ColumnStepExtends(a, row, maxCol, prev, n - 1, CellText(a, row, n - 1, cells[n - 1]));
      StartsWithTrans(Columns(a, row, maxCol, cells, n).text, prev.text, "/*\t");
    }
  }

  /** A comment row is written as one C comment: it begins with the
      comment opener and a tab, and its columns are followed by the
      comment closer. */
  lemma CommentRowShape(a: ArrInfo)
    requires a.rowCnt in a.annotateRow
    ensures var r := WriteArrMem(a);
      r.Line? ==> StartsWith(r.text, "/*\t") && StartsWith(r.text, ColumnText(a) + "*/")
  {
    var r := WriteArrMem(a);
    if r.Line? {
      var c := TrailingComment(a, a.rowCnt).value;
      ColumnsExtend(a, a.rowCnt, MaxCol(a), RowCells(a), Max(0, MaxCol(a)));
      assert r.text == (ColumnText(a) + "*/") + (c + ArrayClose(a));
      StartsWithAppend(ColumnText(a) + "*/", c + ArrayClose(a));
      StartsWithAppend(ColumnText(a), "*/");
      StartsWithTrans(r.text, ColumnText(a) + "*/", ColumnText(a));
      StartsWithTrans(r.text, ColumnText(a), "/*\t");
    }
  }
}
