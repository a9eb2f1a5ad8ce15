/** The navigator's grid parser (navigator/navigator_core.py): it finds
    the opcode, name, value and type columns of a sheet, by header words
    or by the shape of the data, and lists the rows worth showing. */
module Navigator {
  import opened PyStr
  import opened Info

  type Sheet = seq<seq<string>>

  // ------------------------------------------------------------ constants

  /** `NavigatorConstants` */
  const OpcodeColCandidates: seq<nat> := [0, 1]
  const NameColOffsets: seq<nat> := [3, 4, 5]
  const MaxHeaderSearchRows: nat := 10
  const MaxOpcodeSearchRows: nat := 50
  const NamePatternThreshold: real := 0.3

  function Min(a: nat, b: nat): (r: nat)
    ensures r <= a && r <= b && (r == a || r == b)
  {
    if a < b then a else b
  }

  /** `OPCODE_MAPPING`: the opcode table of `Info` without `$STR_DEF`. */
  const NavOps: map<string, MkMode> := map[
    "$TITLE" := TITLE, "$TITLE_S" := TITLE_S, "$TITLE_H" := TITLE_H, "$SUBTITLE" := SUBTITLE,
    "$DESCRIPT" := DESCRIPT, "$DEFINE" := DEFINE, "$TYPEDEF" := TYPEDEF, "$STR_MEM" := STR_MEM,
    "$ENUM" := ENUM, "$ENUM_MEM" := ENUM_MEM, "$ENUM_END" := ENUM_END, "$ARRAY" := ARRAY,
    "$ARR_MEM" := ARR_MEM, "$VARIABLE" := VARIABLE, "$PRGM_SET" := PRGM_SET, "$PRGM_END" := PRGM_END,
    "$CODE" := CODE, "$PRJT_DEF" := PRJT_DEF]

  /** `OPCODE_MAPPING.get(s)` */
  function NavOpCode(s: string): (r: Option<MkMode>)
    ensures r.Some? ==> r.value != NONE && r.value != STR_DEF
  {
    if s in NavOps then Some(NavOps[s]) else None
  }

  /** The navigator reads opcodes as the generator does, except that it
      does not know `$STR_DEF`. */
  lemma NavOpCodeIsTable(s: string)
    ensures NavOpCode(s) == if s == "$STR_DEF" then None else LookupOpCode(s)
  {
  }

  /** `DISPLAY_OPCODES`: every mode but the descriptions, subtitles and
      members. */
  predicate Displayed(m: MkMode)
  {
    m in {TITLE, TITLE_H, TITLE_S, DEFINE, VARIABLE, ARRAY, ENUM, TYPEDEF, CODE, PRGM_SET, PRJT_DEF}
  }

  /** `ICON_MAPPING.get(m, "📄")` */
  function Icon(m: MkMode): (r: string)
    ensures Displayed(m) ==> r == ""
  {
    if m in {TITLE, TITLE_H, TITLE_S, SUBTITLE, DESCRIPT, DEFINE, VARIABLE, ARRAY, ENUM, TYPEDEF, CODE, PRGM_SET, PRGM_END, PRJT_DEF}
    then "" else "📄"
  }

  // ------------------------------------------------------------ the positions

  /** A snapshot of `ColumnPositions`; -1 is a column not found. */
  datatype Cols = Cols(opcode: int, name: int, value: int, typ: int)

  /** `ColumnPositions`, filled in place by the detection steps. */
  class ColumnPositions {
    var opcodeCol: int
    var nameCol: int
    var valueCol: int
    var typeCol: int

    constructor ()
      ensures Get() == Cols(-1, -1, -1, -1)
    {
      opcodeCol := -1;
      nameCol := -1;
      valueCol := -1;
      typeCol := -1;
    }

    function Get(): Cols
      reads this
    {
      Cols(opcodeCol, nameCol, valueCol, typeCol)
    }
  }

  // ------------------------------------------------------------ header detection

  datatype Header = OpcodeHdr | NameHdr | ValueHdr | TypeHdr

  /** The header a non-empty cell names: its lower-cased, stripped text
      is exactly one of the header words. */
  function HeaderOf(cell: string): (r: Option<Header>)
    ensures r.Some? ==> cell != ""
  {
    if cell == "" then None
    else
      var l := Strip(Lower(cell));
      if l == "opcode" then Some(OpcodeHdr)
      else if l == "name" then Some(NameHdr)
      else if l == "value" then Some(ValueHdr)
      else if l == "type" then Some(TypeHdr)
      else None
  }

  /** The rows the header search looks at. */
  function HeaderRows(sheet: Sheet): (n: nat)
    ensures n <= |sheet| && n <= MaxHeaderSearchRows
  {
    Min(MaxHeaderSearchRows, |sheet|)
  }

  /** The header each cell names, cell by cell. */
  type Heads = seq<seq<Option<Header>>>

  function HeadsOf(sheet: Sheet): (g: Heads)
    ensures |g| == |sheet|
    ensures forall r | 0 <= r < |g| :: |g[r]| == |sheet[r]|
    ensures forall r, c | 0 <= r < |g| && 0 <= c < |g[r]| :: g[r][c] == HeaderOf(sheet[r][c])
  {
    seq(|sheet|, r requires 0 <= r < |sheet| =>
      seq(|sheet[r]|, c requires 0 <= c < |sheet[r]| => HeaderOf(sheet[r][c])))
  }

  /** A column that is set only while it is still -1. */
  function SetFirst(cur: int, col: nat, hit: bool): int
  {
    if hit && cur == -1 then col else cur
  }

  /** The scan of the cells `c..` of one row for header `h`. */
  function RowScan(row: seq<Option<Header>>, h: Header, c: nat, cur: int): int
    decreases |row| - c
  {
    if c >= |row| then cur
    else RowScan(row, h, c + 1, SetFirst(cur, c, row[c] == Some(h)))
  }

  /** The scan of the rows `r` up to `limit` for header `h`. */
  function SheetScan(g: Heads, h: Header, r: nat, limit: nat, cur: int): int
    requires limit <= |g|
    decreases limit - r
  {
    if r >= limit then cur
    else SheetScan(g, h, r + 1, limit, RowScan(g[r], h, 0, cur))
  }

  /** No cell of row `r` before column `c` names `h`. */
  predicate NoneBefore(g: Heads, h: Header, r: nat, c: nat)
    requires r < |g| && c <= |g[r]|
  {
    forall j | 0 <= j < c :: g[r][j] != Some(h)
  }

  /** Rows `from` up to `to` hold no cell naming `h`. */
  predicate NoneInRows(g: Heads, h: Header, from: nat, to: nat)
    requires to <= |g|
  {
    forall i | from <= i < to :: NoneBefore(g, h, i, |g[i]|)
  }

  /** Column `c` of row `r` is the first cell naming `h` from row `from`
      on, in row-major order. */
  predicate FirstAt(g: Heads, h: Header, from: nat, r: nat, c: nat)
    requires r < |g|
  {
    from <= r && c < |g[r]| && g[r][c] == Some(h) && NoneInRows(g, h, from, r) && NoneBefore(g, h, r, c)
  }

  lemma {:induction false} RowScanKeeps(row: seq<Option<Header>>, h: Header, c: nat, cur: int)
    requires cur != -1
    ensures RowScan(row, h, c, cur) == cur
    decreases |row| - c
  {
    if c < |row| {
      RowScanKeeps(row, h, c + 1, cur);
    }
  }

  /** A row scanned from -1 finds the first cell naming `h`, or -1 when
      there is none. */
  lemma {:induction false} RowScanFirst(g: Heads, h: Header, r: nat, c: nat)
    requires r < |g| && c <= |g[r]|
    requires NoneBefore(g, h, r, c)
    ensures var k := RowScan(g[r], h, c, -1);
      (k == -1 && NoneBefore(g, h, r, |g[r]|)) ||
      (0 <= k < |g[r]| && g[r][k] == Some(h) && NoneBefore(g, h, r, k))
    decreases |g[r]| - c
  {
    if c < |g[r]| {
      if g[r][c] == Some(h) {
        RowScanKeeps(g[r], h, c + 1, c);
      } else {
        RowScanFirst(g, h, r, c + 1);
      }
    }
  }

  lemma {:induction false} SheetScanKeeps(g: Heads, h: Header, r: nat, limit: nat, cur: int)
    requires limit <= |g| && cur != -1
    ensures SheetScan(g, h, r, limit, cur) == cur
    decreases limit - r
  {
    if r < limit {
      RowScanKeeps(g[r], h, 0, cur);
      SheetScanKeeps(g, h, r + 1, limit, cur);
    }
  }

  /** The rows scanned from -1 find the column of the first cell naming
      `h` in row-major order, or -1 when no row has one. */
  lemma {:induction false} SheetScanFirst(g: Heads, h: Header, from: nat, r: nat, limit: nat)
    requires from <= r <= limit <= |g|
    requires NoneInRows(g, h, from, r)
    ensures var k := SheetScan(g, h, r, limit, -1);
      (k == -1 && NoneInRows(g, h, from, limit)) ||
      (k >= 0 && exists i | from <= i < limit :: FirstAt(g, h, from, i, k))
    decreases limit - r
  {
    if r < limit {
      RowScanFirst(g, h, r, 0);
      var k := RowScan(g[r], h, 0, -1);
      if k == -1 {
        SheetScanFirst(g, h, from, r + 1, limit);
      } else {
        SheetScanKeeps(g, h, r + 1, limit, k);
        assert FirstAt(g, h, from, r, k);
      }
    }
  }

  /** `_detect_by_headers`: for each header word, the column of its first
      exact (case-insensitive) match in the first ten rows, row by row,
      where the column was still unset. */
  method DetectByHeaders(sheet: Sheet, p: ColumnPositions)
    modifies p
    ensures var g := HeadsOf(sheet); var n := HeaderRows(sheet);
      p.opcodeCol == SheetScan(g, OpcodeHdr, 0, n, old(p.opcodeCol)) &&
      p.nameCol == SheetScan(g, NameHdr, 0, n, old(p.nameCol)) &&
      p.valueCol == SheetScan(g, ValueHdr, 0, n, old(p.valueCol)) &&
      p.typeCol == SheetScan(g, TypeHdr, 0, n, old(p.typeCol))
  {
    ghost var g := HeadsOf(sheet);
    var limit := HeaderRows(sheet);
    var r := 0;
    while r < limit
      invariant 0 <= r <= limit
      invariant SheetScan(g, OpcodeHdr, 0, limit, old(p.opcodeCol)) == SheetScan(g, OpcodeHdr, r, limit, p.opcodeCol)
      invariant SheetScan(g, NameHdr, 0, limit, old(p.nameCol)) == SheetScan(g, NameHdr, r, limit, p.nameCol)
      invariant SheetScan(g, ValueHdr, 0, limit, old(p.valueCol)) == SheetScan(g, ValueHdr, r, limit, p.valueCol)
      invariant SheetScan(g, TypeHdr, 0, limit, old(p.typeCol)) == SheetScan(g, TypeHdr, r, limit, p.typeCol)
    {
      ScanRow(sheet[r], g[r], p);
      r := r + 1;
    }
  }

  /** The cells of one row of the header search, left to right. */
  method ScanRow(row: seq<string>, ghost heads: seq<Option<Header>>, p: ColumnPositions)
    requires |heads| == |row| && forall c | 0 <= c < |row| :: heads[c] == HeaderOf(row[c])
    modifies p
    ensures p.opcodeCol == RowScan(heads, OpcodeHdr, 0, old(p.opcodeCol))
    ensures p.nameCol == RowScan(heads, NameHdr, 0, old(p.nameCol))
    ensures p.valueCol == RowScan(heads, ValueHdr, 0, old(p.valueCol))
    ensures p.typeCol == RowScan(heads, TypeHdr, 0, old(p.typeCol))
  {
    var c := 0;
    while c < |row|
      invariant 0 <= c <= |row|
      invariant RowScan(heads, OpcodeHdr, 0, old(p.opcodeCol)) == RowScan(heads, OpcodeHdr, c, p.opcodeCol)
      invariant RowScan(heads, NameHdr, 0, old(p.nameCol)) == RowScan(heads, NameHdr, c, p.nameCol)
      invariant RowScan(heads, ValueHdr, 0, old(p.valueCol)) == RowScan(heads, ValueHdr, c, p.valueCol)
      invariant RowScan(heads, TypeHdr, 0, old(p.typeCol)) == RowScan(heads, TypeHdr, c, p.typeCol)
    {
      ScanCell(row[c], c, p);
      c := c + 1;
    }
  }

  /** One cell of the header search: a non-empty cell naming a header
      sets that header's column when it is still unset. */
  method ScanCell(cell: string, c: nat, p: ColumnPositions)
    modifies p
    ensures p.opcodeCol == SetFirst(old(p.opcodeCol), c, HeaderOf(cell) == Some(OpcodeHdr))
    ensures p.nameCol == SetFirst(old(p.nameCol), c, HeaderOf(cell) == Some(NameHdr))
    ensures p.valueCol == SetFirst(old(p.valueCol), c, HeaderOf(cell) == Some(ValueHdr))
    ensures p.typeCol == SetFirst(old(p.typeCol), c, HeaderOf(cell) == Some(TypeHdr))
  {
    if cell != "" {
      var h := HeaderOf(cell);
      if h == Some(OpcodeHdr) && p.opcodeCol == -1 {
        p.opcodeCol := c;
      } else if h == Some(NameHdr) && p.nameCol == -1 {
        p.nameCol := c;
      } else if h == Some(ValueHdr) && p.valueCol == -1 {
        p.valueCol := c;
      } else if h == Some(TypeHdr) && p.typeCol == -1 {
        p.typeCol := c;
      }
    }
  }

  // ------------------------------------------------------------ the opcode pattern

  /** A cell of column `col` in row `r` that starts with `$`. */
  predicate DollarAt(sheet: Sheet, r: nat, col: nat)
    requires r < |sheet|
  {
    col < |sheet[r]| && sheet[r][col] != "" && StartsWith(sheet[r][col], "$")
  }

  /** The rows the opcode pattern and the name score look at. */
  function SearchRows(sheet: Sheet): (n: nat)
    ensures n <= |sheet| && n <= MaxOpcodeSearchRows
  {
    Min(MaxOpcodeSearchRows, |sheet|)
  }

  predicate DollarIn(sheet: Sheet, col: nat)
  {
    exists r | 0 <= r < SearchRows(sheet) :: DollarAt(sheet, r, col)
  }

  /** The opcode column the pattern gives: the first candidate column
      with a `$` cell in the first fifty rows, or -1. */
  function PatternCol(sheet: Sheet): (c: int)
    ensures c == -1 <==> forall k | 0 <= k < |OpcodeColCandidates| :: !DollarIn(sheet, OpcodeColCandidates[k])
    ensures c != -1 ==> exists k | 0 <= k < |OpcodeColCandidates| ::
      (c == OpcodeColCandidates[k] && DollarIn(sheet, c) && forall j | 0 <= j < k :: !DollarIn(sheet, OpcodeColCandidates[j]))
  {
    if DollarIn(sheet, 0) then
      assert OpcodeColCandidates[0] == 0;
      0
    else if DollarIn(sheet, 1) then
      assert OpcodeColCandidates[1] == 1;
      1
    else -1
  }

  /** `_detect_opcode_by_pattern` */
  method DetectOpcodeByPattern(sheet: Sheet, p: ColumnPositions)
    modifies p`opcodeCol
    ensures p.opcodeCol == if PatternCol(sheet) != -1 then PatternCol(sheet) else old(p.opcodeCol)
  {
    var k := 0;
    while k < |OpcodeColCandidates|
      invariant 0 <= k <= |OpcodeColCandidates|
      invariant forall j | 0 <= j < k :: !DollarIn(sheet, OpcodeColCandidates[j])
    {
      var col := OpcodeColCandidates[k];
      var r := 0;
      while r < SearchRows(sheet)
        invariant 0 <= r <= SearchRows(sheet)
        invariant forall i | 0 <= i < r :: !DollarAt(sheet, i, col)
      {
        if col < |sheet[r]| && sheet[r][col] != "" && StartsWith(sheet[r][col], "$") {
          assert DollarAt(sheet, r, col);
          p.opcodeCol := col;
          return;
        }
        r := r + 1;
      }
      k := k + 1;
    }
  }

  // ------------------------------------------------------------ the name column

  /** Hangul syllables count as a description, hence a name. */
  predicate IsHangul(c: char) { '\U{AC00}' <= c <= '\U{D7AF}' }

  /** `s` with every character of `cs` removed, as the chain of
      `replace(c, "")` does. */
  function Without(s: string, cs: set<char>): (r: string)
    ensures |r| <= |s| && forall i | 0 <= i < |r| :: r[i] !in cs
  {
    if s == [] then []
    else (if s[0] in cs then [] else [s[0]]) + Without(s[1..], cs)
  }

  predicate IsAlnum(s: string) { |s| > 0 && forall i | 0 <= i < |s| :: IsAsciiLetter(s[i]) || IsAsciiDigit(s[i]) }

  predicate IsDigits(s: string) { |s| > 0 && AllDigits(s) }

  /** `_is_valid_variable_name`: at least two characters, not an opcode
      nor a header word, and either Hangul text or, once `_[],` are
      removed, letters and digits that are not all digits. */
  predicate IsValidVariableName(value: string)
  {
    if |value| < 2 then false
    else if StartsWith(value, "$") || Lower(value) in {"name", "value", "type", "keyword"} then false
    else if exists i | 0 <= i < |value| :: IsHangul(value[i]) then true
    else
      var clean := Without(value, {'_', '[', ']', ','});
      IsAlnum(clean) && !IsDigits(clean)
  }

  /** No opcode is ever taken for a name, and a name mixes a letter in. */
  lemma ValidNameShape(value: string)
    requires IsValidVariableName(value)
    ensures |value| >= 2 && !StartsWith(value, "$")
    ensures (forall i | 0 <= i < |value| :: !IsHangul(value[i])) ==>
      exists i | 0 <= i < |value| :: IsAsciiLetter(value[i])
  {
    if forall i | 0 <= i < |value| :: !IsHangul(value[i]) {
      var clean := Without(value, {'_', '[', ']', ','});
      var j :| 0 <= j < |clean| && !IsAsciiDigit(clean[j]);
      WithoutFrom(value, {'_', '[', ']', ','}, j);
    }
  }

  /** Every character kept by `Without` comes from `s`. */
  lemma {:induction false} WithoutFrom(s: string, cs: set<char>, j: nat)
    requires j < |Without(s, cs)|
    ensures exists i | 0 <= i < |s| :: s[i] == Without(s, cs)[j]
  {
    if s[0] in cs {
      WithoutFrom(s[1..], cs, j);
      var i :| 0 <= i < |s[1..]| && s[1..][i] == Without(s[1..], cs)[j];
      assert s[i + 1] == Without(s, cs)[j];
    } else if j == 0 {
      assert s[0] == Without(s, cs)[0];
    } else {
      WithoutFrom(s[1..], cs, j - 1);
      var i :| 0 <= i < |s[1..]| && s[1..][i] == Without(s[1..], cs)[j - 1];
      assert s[i + 1] == Without(s, cs)[j];
    }
  }

  /** A cell of column `col` in row `r` that is not blank. */
  predicate FilledAt(sheet: Sheet, r: nat, col: nat)
    requires r < |sheet|
  {
    col < |sheet[r]| && sheet[r][col] != "" && Strip(sheet[r][col]) != ""
  }

  /** The valid names and the filled cells of column `col` in the rows
      before `r`. */
  function NameCounts(sheet: Sheet, col: nat, r: nat): (c: (nat, nat))
    requires r <= |sheet|
    ensures c.0 <= c.1 <= r
  {
    if r == 0 then (0, 0) else CountRow(sheet, r - 1, col, NameCounts(sheet, col, r - 1))
  }

  /** The counts `c` after row `r`: a filled cell counts, and counts as a
      name when it is a valid variable name. */
  function CountRow(sheet: Sheet, r: nat, col: nat, c: (nat, nat)): (nat, nat)
    requires r < |sheet|
  {
    if FilledAt(sheet, r, col) then
      (c.0 + (if IsValidVariableName(sheet[r][col]) then 1 else 0), c.1 + 1)
    else c
  }

  /** The share of valid names among the filled cells, halved when fewer
      than five cells are filled. */
  function Score(names: nat, total: nat): (s: real)
    requires names <= total
    ensures 0.0 <= s <= 1.0
    ensures total < 5 ==> s <= 0.5
    ensures total > 0 && names == total && total >= 5 ==> s == 1.0
    ensures names == 0 ==> s == 0.0
  {
    if total == 0 then 0.0
    else
      var ratio := names as real / total as real;
      RatioBounds(names, total);
      if total < 5 then ratio * 0.5 else ratio
  }

  /** A share lies between nothing and everything. */
  lemma RatioBounds(names: nat, total: nat)
    requires 0 < total && names <= total
    ensures 0.0 <= names as real / total as real <= 1.0
    ensures names == total ==> names as real / total as real == 1.0
  {
    var t := total as real;
    assert t > 0.0;
    var r := names as real / t;
    assert r * t == names as real;
    if names == total {
      assert names as real == t;
      assert r == t / t == 1.0;
    }
  }

  function NameScore(sheet: Sheet, col: nat): (s: real)
    ensures 0.0 <= s <= 1.0
  {
    var c := NameCounts(sheet, col, SearchRows(sheet));
    Score(c.0, c.1)
  }

  /** `_calculate_name_column_score` */
  method CalculateNameColumnScore(sheet: Sheet, col: nat) returns (score: real)
    ensures score == NameScore(sheet, col)
  {
    var nameCount, totalCount := CountNames(sheet, col);
    if totalCount == 0 {
      return 0.0;
    }
    score := nameCount as real / totalCount as real;
    if totalCount < 5 {
      score := score * 0.5;
    }
  }

  /** The counting loop of `_calculate_name_column_score` over the first
      fifty rows. */
  method CountNames(sheet: Sheet, col: nat) returns (nameCount: nat, totalCount: nat)
    ensures (nameCount, totalCount) == NameCounts(sheet, col, SearchRows(sheet))
  {
    nameCount, totalCount := 0, 0;
    var r := 0;
    while r < SearchRows(sheet)
      invariant 0 <= r <= SearchRows(sheet)
      invariant (nameCount, totalCount) == NameCounts(sheet, col, r)
    {
      nameCount, totalCount := CountCell(sheet, r, col, nameCount, totalCount);
      r := r + 1;
    }
  }

  /** One row of `_calculate_name_column_score`: a filled cell counts,
      and counts as a name when it is a valid variable name. */
  method CountCell(sheet: Sheet, r: nat, col: nat, names: nat, total: nat) returns (names': nat, total': nat)
    requires r < |sheet|
    ensures (names', total') == CountRow(sheet, r, col, (names, total))
  {
    names', total' := names, total;
    if col < |sheet[r]| && sheet[r][col] != "" && Strip(sheet[r][col]) != "" {
      total' := total + 1;
      names' := CountName(sheet[r][col], names);
    }
  }

  /** A valid variable name adds one to the names. */
  method CountName(value: string, names: nat) returns (names': nat)
    ensures names' == names + (if IsValidVariableName(value) then 1 else 0)
  {
    names' := names;
    if IsValidVariableName(value) {
      names' := names + 1;
    }
  }

  /** The choice among candidate scores: a score wins when it beats both
      the best so far and the threshold. */
  function PickFrom(scores: seq<real>, i: nat, best: int, bestScore: real): (b: int)
    requires i <= |scores|
    ensures b == best || i <= b < |scores|
    decreases |scores| - i
  {
    if i == |scores| then best
    else if scores[i] > bestScore && scores[i] > NamePatternThreshold then PickFrom(scores, i + 1, i, scores[i])
    else PickFrom(scores, i + 1, best, bestScore)
  }

  /** The candidate `b` is the earliest of the highest scores above the
      threshold among the first `n`; -1 when none is above it. */
  predicate EarliestBest(scores: seq<real>, n: nat, b: int)
    requires n <= |scores|
  {
    (b == -1 && forall j | 0 <= j < n :: scores[j] <= NamePatternThreshold) ||
    (0 <= b < n && scores[b] > NamePatternThreshold &&
     (forall j | 0 <= j < n :: scores[j] <= scores[b]) &&
     (forall j | 0 <= j < b :: scores[j] < scores[b]))
  }

  lemma {:induction false} PickFromBest(scores: seq<real>, i: nat, best: int, bestScore: real)
    requires i <= |scores| && EarliestBest(scores, i, best)
    requires bestScore == if best == -1 then 0.0 else scores[best]
    ensures EarliestBest(scores, |scores|, PickFrom(scores, i, best, bestScore))
    decreases |scores| - i
  {
    if i < |scores| {
      if scores[i] > bestScore && scores[i] > NamePatternThreshold {
        PickFromBest(scores, i + 1, i, scores[i]);
      } else {
        PickFromBest(scores, i + 1, best, bestScore);
      }
    }
  }

  /** The scores of the columns three, four and five to the right of the
      opcode column. */
  function Candidates(sheet: Sheet, opcodeCol: nat): (s: seq<real>)
    ensures |s| == |NameColOffsets|
    ensures forall k | 0 <= k < |s| :: s[k] == NameScore(sheet, opcodeCol + NameColOffsets[k])
  {
    seq(|NameColOffsets|, k requires 0 <= k < |NameColOffsets| => NameScore(sheet, opcodeCol + NameColOffsets[k]))
  }

  /** The estimated name column: the earliest best-scoring candidate above
      the threshold, or -1. */
  function EstimatedNameCol(sheet: Sheet, opcodeCol: nat): (c: int)
    ensures c == -1 || exists k | 0 <= k < |NameColOffsets| ::
      (c == opcodeCol + NameColOffsets[k] && EarliestBest(Candidates(sheet, opcodeCol), |NameColOffsets|, k))
    ensures c == -1 ==> EarliestBest(Candidates(sheet, opcodeCol), |NameColOffsets|, -1)
  {
    var s := Candidates(sheet, opcodeCol);
    PickFromBest(s, 0, -1, 0.0);
    var b := PickFrom(s, 0, -1, 0.0);
    if b == -1 then -1 else opcodeCol + NameColOffsets[b]
  }

  /** The estimate is the column of the candidate the scan picks. */
  lemma EstimatedIsPicked(sheet: Sheet, opcodeCol: nat)
    ensures var b := PickFrom(Candidates(sheet, opcodeCol), 0, -1, 0.0);
      EstimatedNameCol(sheet, opcodeCol) == if b == -1 then -1 else opcodeCol + NameColOffsets[b]
  {
  }

  /** `_estimate_name_column`: the name column is set to the estimate
      when there is one and kept otherwise. */
  method EstimateNameColumn(sheet: Sheet, p: ColumnPositions)
    requires p.opcodeCol >= 0
    modifies p`nameCol
    ensures var c := EstimatedNameCol(sheet, p.opcodeCol); p.nameCol == if c != -1 then c else old(p.nameCol)
  {
    var bestCol := BestNameCol(sheet, p.opcodeCol);
    if bestCol != -1 {
      p.nameCol := bestCol;
    }
  }

  /** The scan of `_estimate_name_column` over the three candidate columns:
      the first strictly higher score above the threshold wins. */
  method BestNameCol(sheet: Sheet, base: nat) returns (bestCol: int)
    ensures bestCol == EstimatedNameCol(sheet, base)
  {
    ghost var s := Candidates(sheet, base);
    ghost var bestIdx := -1;
    bestCol := -1;
    var bestScore := 0.0;
    var k := 0;
    while k < |NameColOffsets|
      invariant 0 <= k <= |NameColOffsets|
      invariant -1 <= bestIdx < k
      invariant bestScore == if bestIdx == -1 then 0.0 else s[bestIdx]
      invariant bestCol == if bestIdx == -1 then -1 else base + NameColOffsets[bestIdx]
      invariant PickFrom(s, 0, -1, 0.0) == PickFrom(s, k, bestIdx, bestScore)
    {
      var testCol := base + NameColOffsets[k];
      var score := CalculateNameColumnScore(sheet, testCol);
      assert score == s[k];
      if score > bestScore && score > NamePatternThreshold {
        bestScore := score;
        bestCol := testCol;
        bestIdx := k;
      }
      k := k + 1;
    }
    EstimatedIsPicked(sheet, base);
  }

  /** What `_detect_column_positions` finds: the header columns, the
      opcode column by pattern when no header names it, and the name column
      by estimate when no header names it. */
  function Detected(sheet: Sheet): (c: Cols)
    ensures c.opcode >= -1 && c.name >= -1 && c.value >= -1 && c.typ >= -1
    ensures var k := SheetScan(HeadsOf(sheet), OpcodeHdr, 0, HeaderRows(sheet), -1);
      c.opcode == if k == -1 then PatternCol(sheet) else k
  {
    var g := HeadsOf(sheet);
    var n := HeaderRows(sheet);
    var h := Cols(SheetScan(g, OpcodeHdr, 0, n, -1), SheetScan(g, NameHdr, 0, n, -1),
                  SheetScan(g, ValueHdr, 0, n, -1), SheetScan(g, TypeHdr, 0, n, -1));
    ScannedCols(g, n);
    Completed(sheet, h)
  }

  /** Scans from -1 give -1 or a column. */
  lemma ScannedCols(g: Heads, n: nat)
    requires n <= |g|
    ensures SheetScan(g, OpcodeHdr, 0, n, -1) >= -1 && SheetScan(g, NameHdr, 0, n, -1) >= -1
    ensures SheetScan(g, ValueHdr, 0, n, -1) >= -1 && SheetScan(g, TypeHdr, 0, n, -1) >= -1
  {
    SheetScanFirst(g, OpcodeHdr, 0, 0, n);
    SheetScanFirst(g, NameHdr, 0, 0, n);
    SheetScanFirst(g, ValueHdr, 0, 0, n);
    SheetScanFirst(g, TypeHdr, 0, 0, n);
  }

  /** The header columns `h` completed by the pattern and the estimate. */
  function Completed(sheet: Sheet, h: Cols): (c: Cols)
    requires h.opcode >= -1 && h.name >= -1 && h.value >= -1 && h.typ >= -1
    ensures c.opcode >= -1 && c.name >= -1 && c.value == h.value && c.typ == h.typ
    ensures h.opcode != -1 ==> c.opcode == h.opcode
    ensures h.opcode == -1 ==> c.opcode == PatternCol(sheet)
    ensures h.name != -1 ==> c.name == h.name
  {
    var op := if h.opcode == -1 then PatternCol(sheet) else h.opcode;
    var name := if h.name == -1 && op != -1 then EstimatedNameCol(sheet, op) else h.name;
    Cols(op, name, h.value, h.typ)
  }

  /** A header always wins over the pattern: the opcode column is the
      first `opcode` header cell of the first ten rows when there is one,
      and otherwise the pattern's column. */
  lemma DetectedOpcode(sheet: Sheet)
    ensures var c := Detected(sheet).opcode; var g := HeadsOf(sheet);
      (c >= 0 && exists i | 0 <= i < HeaderRows(sheet) :: FirstAt(g, OpcodeHdr, 0, i, c)) ||
      (NoneInRows(g, OpcodeHdr, 0, HeaderRows(sheet)) && c == PatternCol(sheet))
  {
    var g := HeadsOf(sheet);
    var n := HeaderRows(sheet);
    var k := SheetScan(g, OpcodeHdr, 0, n, -1);
    SheetScanFirst(g, OpcodeHdr, 0, 0, n);
    assert Detected(sheet).opcode == if k == -1 then PatternCol(sheet) else k;
  }

  /** `_detect_column_positions` */
  method DetectColumnPositions(sheet: Sheet) returns (p: ColumnPositions)
    ensures fresh(p) && p.Get() == Detected(sheet)
  {
    p := new ColumnPositions();
    DetectByHeaders(sheet, p);
    ScannedCols(HeadsOf(sheet), HeaderRows(sheet));
    CompletePositions(sheet, p);
  }

  /** The fallbacks of `_detect_column_positions`: the pattern when no
      header names the opcode column, then the estimate when no header
      names the name column. */
  method CompletePositions(sheet: Sheet, p: ColumnPositions)
    requires p.opcodeCol >= -1 && p.nameCol >= -1 && p.valueCol >= -1 && p.typeCol >= -1
    modifies p
    ensures p.Get() == Completed(sheet, old(p.Get()))
  {
    if p.opcodeCol == -1 {
      DetectOpcodeByPattern(sheet, p);
    }
    if p.nameCol == -1 && p.opcodeCol != -1 {
      EstimateNameColumn(sheet, p);
    }
  }

  // ------------------------------------------------------------ the items

  /** `NavigatorItem`; the icon is always "" for a displayed mode. */
  datatype NavItem = NavItem(name: string, icon: string, opcode: MkMode, row: nat, col: nat, sizeInfo: string)

  /** `_get_name_column_for_opcode` */
  function NameColFor(m: MkMode, p: Cols): (c: nat)
    requires p.opcode >= 0 && p.name >= -1
  {
    if m == PRJT_DEF then (if p.name != -1 then p.name + 2 else p.opcode + 6)
    else if m == STR_MEM || m == ENUM_MEM then (if p.name != -1 then p.name + 1 else p.opcode + 5)
    else if p.name != -1 then p.name else p.opcode + 4
  }

  /** `_extract_name` */
  function ExtractName(row: seq<string>, col: nat): string
  {
    if col < |row| && Strip(row[col]) != "" then Strip(row[col]) else ""
  }

  /** `_extract_size_info`: " [..]" for an `$ARRAY` row whose value cell,
      stripped, is bracketed. */
  function SizeInfo(m: MkMode, row: seq<string>, p: Cols): (r: string)
    requires p.value >= -1
    ensures r != "" <==> (m == ARRAY && 0 <= p.value < |row| &&
      StartsWith(Strip(row[p.value]), "[") && EndsWith(Strip(row[p.value]), "]"))
    ensures r != "" ==> r == " " + Strip(row[p.value])
  {
    if m == ARRAY && p.value != -1 && p.value < |row| then
      var v := Strip(row[p.value]);
      if StartsWith(v, "[") && EndsWith(v, "]") then " " + v else ""
    else ""
  }

  /** `_parse_row`: a row whose stripped opcode cell is a displayed `$`
      opcode and whose name cell is not blank. */
  function ParseRow(r: nat, row: seq<string>, p: Cols): (it: Option<NavItem>)
    requires p.opcode >= 0 && p.name >= -1 && p.value >= -1
    ensures it.Some? <==> (p.opcode < |row| && StartsWith(Strip(row[p.opcode]), "$") &&
      NavOpCode(Strip(row[p.opcode])).Some? && Displayed(NavOpCode(Strip(row[p.opcode])).value) &&
      ExtractName(row, NameColFor(NavOpCode(Strip(row[p.opcode])).value, p)) != "")
    ensures it.Some? ==> (it.value.row == r && it.value.icon == "" &&
      it.value.opcode == NavOpCode(Strip(row[p.opcode])).value &&
      it.value.col == NameColFor(it.value.opcode, p) &&
      it.value.name == ExtractName(row, it.value.col) + it.value.sizeInfo)
  {
    if |row| <= p.opcode then None
    else
      var op := Strip(row[p.opcode]);
      if op == "" || !StartsWith(op, "$") then None
      else
        var m := match NavOpCode(op) case Some(m) => m case None => NONE;
        if !Displayed(m) then None
        else
          var col := NameColFor(m, p);
          var name := ExtractName(row, col);
          if name == "" then None
          else
            var size := SizeInfo(m, row, p);
            Some(NavItem(if size != "" then name + size else name, Icon(m), m, r, col, size))
  }

  /** The rows of the sheet, each parsed. */
  function ParsedRows(sheet: Sheet, p: Cols): (rows: seq<Option<NavItem>>)
    requires p.opcode >= 0 && p.name >= -1 && p.value >= -1
    ensures |rows| == |sheet|
    ensures forall k | 0 <= k < |rows| :: rows[k] == ParseRow(k, sheet[k], p)
    ensures forall k | 0 <= k < |rows| && rows[k].Some? :: rows[k].value.row == k
  {
    seq(|sheet|, k requires 0 <= k < |sheet| => ParseRow(k, sheet[k], p))
  }

  /** The items of the rows `r..`, in row order. */
  function Collect(rows: seq<Option<NavItem>>, r: nat): (items: seq<NavItem>)
    requires r <= |rows|
    ensures |items| <= |rows| - r
    decreases |rows| - r
  {
    if r == |rows| then []
    else (if rows[r].Some? then [rows[r].value] else []) + Collect(rows, r + 1)
  }

  /** Every item is the item of its own row, a row at or after `r`. */
  predicate FromRows(rows: seq<Option<NavItem>>, r: nat, items: seq<NavItem>)
  {
    forall i | 0 <= i < |items| :: r <= items[i].row < |rows| && rows[items[i].row] == Some(items[i])
  }

  /** The items come in strictly increasing row order. */
  predicate RowOrdered(items: seq<NavItem>)
  {
    forall i, j | 0 <= i < j < |items| :: items[i].row < items[j].row
  }

  /** Every collected item is the item of its own row, at or after `r`. */
  lemma {:induction false} CollectFromRows(rows: seq<Option<NavItem>>, r: nat)
    requires r <= |rows|
    requires forall k | 0 <= k < |rows| && rows[k].Some? :: rows[k].value.row == k
    ensures FromRows(rows, r, Collect(rows, r))
    decreases |rows| - r
  {
    if r < |rows| {
      CollectFromRows(rows, r + 1);
      var rest := Collect(rows, r + 1);
      var items := Collect(rows, r);
      if rows[r].Some? {
        assert items == [rows[r].value] + rest;
        forall i | 0 <= i < |items|
          ensures r <= items[i].row < |rows| && rows[items[i].row] == Some(items[i])
        {
          if i > 0 {
            assert items[i] == rest[i - 1];
          }
        }
      } else {
        assert items == rest;
      }
    }
  }

  /** The collected items come in strictly increasing row order. */
  lemma {:induction false} CollectOrdered(rows: seq<Option<NavItem>>, r: nat)
    requires r <= |rows|
    requires forall k | 0 <= k < |rows| && rows[k].Some? :: rows[k].value.row == k
    ensures RowOrdered(Collect(rows, r))
    decreases |rows| - r
  {
    if r < |rows| {
      CollectFromRows(rows, r + 1);
      CollectOrdered(rows, r + 1);
      var rest := Collect(rows, r + 1);
      var items := Collect(rows, r);
      if rows[r].Some? {
        assert items == [rows[r].value] + rest;
        forall i, j | 0 <= i < j < |items|
          ensures items[i].row < items[j].row
        {
          assert items[j] == rest[j - 1];
          if i > 0 {
            assert items[i] == rest[i - 1];
          }
        }
      } else {
        assert items == rest;
      }
    }
  }

  /** Every row at or after `r` that parses gives a collected item. */
  lemma {:induction false} CollectComplete(rows: seq<Option<NavItem>>, r: nat, k: nat)
    requires forall k | 0 <= k < |rows| && rows[k].Some? :: rows[k].value.row == k
    requires r <= k < |rows| && rows[k].Some?
    ensures rows[k].value in Collect(rows, r)
    decreases |rows| - r
  {
    if r < k {
      CollectComplete(rows, r + 1, k);
    }
  }

  /** One row of the collection: its item, if any, comes before the rest. */
  lemma CollectStep(rows: seq<Option<NavItem>>, r: nat)
    requires r < |rows|
    ensures rows[r].Some? ==> Collect(rows, r) == [rows[r].value] + Collect(rows, r + 1)
    ensures rows[r].None? ==> Collect(rows, r) == Collect(rows, r + 1)
  {
  }

  /** `parse_items` */
  method ParseItems(sheet: Sheet) returns (items: seq<NavItem>)
    ensures var c := Detected(sheet); items == if c.opcode == -1 then [] else Collect(ParsedRows(sheet, c), 0)
  {
    var p := DetectColumnPositions(sheet);
    items := [];
    if p.opcodeCol != -1 {
      var c := p.Get();
      items := CollectItems(sheet, c, ParsedRows(sheet, c));
    }
  }

  /** The loop of `parse_items` over the rows, with the columns found;
      `rows` are the rows parsed. */
  method CollectItems(sheet: Sheet, c: Cols, ghost rows: seq<Option<NavItem>>) returns (items: seq<NavItem>)
    requires c.opcode >= 0 && c.name >= -1 && c.value >= -1
    requires |rows| == |sheet|
    requires forall k {:trigger ParseRow(k, sheet[k], c)} | 0 <= k < |rows| :: rows[k] == ParseRow(k, sheet[k], c)
    ensures items == Collect(rows, 0)
  {
    items := [];
    var r := 0;
    while r < |sheet|
      invariant 0 <= r <= |sheet|
      invariant items + Collect(rows, r) == Collect(rows, 0)
    {
      var it := ParseRowAt(sheet, r, c, rows);
      CollectStep(rows, r);
      if it.Some? {
        items := items + [it.value];
      }
      r := r + 1;
    }
  }

  /** `_parse_row` on row `r`, which is the row's entry in `rows`. */
  method ParseRowAt(sheet: Sheet, r: nat, c: Cols, ghost rows: seq<Option<NavItem>>) returns (it: Option<NavItem>)
    requires c.opcode >= 0 && c.name >= -1 && c.value >= -1
    requires r < |rows| == |sheet|
    requires forall k {:trigger ParseRow(k, sheet[k], c)} | 0 <= k < |rows| :: rows[k] == ParseRow(k, sheet[k], c)
    ensures it == rows[r]
  {
    it := ParseRow(r, sheet[r], c);
  }
}
