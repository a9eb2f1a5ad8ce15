/** The shared vocabulary of the generator (core/info.py): the mode,
    array-type and error enumerations, the opcode table, fixed strings,
    reading a cell of a sheet grid, the global error list with its
    spreadsheet cell names, and the blank-line test used before every
    emitted block. */
module Info {
  import opened PyStr

  datatype MkFile = Src | Hdr | All

  datatype ArrType = SizeErr | Type1 | Type2 | Type3 | Type4

  datatype ErrType =
    | EmptyCell | OpCode | ArrRowOver | ArrRowUnder | TitleName | ArrSizeErr
    | FileName | PrgmEmpty | PrgmKey | PrjtDefOrder | ItemName | PrgmWrite
    | PrjtEmpty | PrjtSame | PrjtNotSame | PrjtErr | FileExist | FileExtension

  datatype MkMode =
    | TITLE | TITLE_S | TITLE_H | SUBTITLE | DESCRIPT | DEFINE | TYPEDEF
    | STR_MEM | STR_DEF | ENUM | ENUM_MEM | ARRAY | ARR_MEM | VARIABLE | CODE
    | PRGM_SET | PRGM_END | NONE | ENUM_END | PRJT_DEF

  /** `EMkMode.<m>.name` */
  function ModeName(m: MkMode): string
  {
    match m
    case TITLE => "TITLE"       case TITLE_S => "TITLE_S"   case TITLE_H => "TITLE_H"
    case SUBTITLE => "SUBTITLE" case DESCRIPT => "DESCRIPT" case DEFINE => "DEFINE"
    case TYPEDEF => "TYPEDEF"   case STR_MEM => "STR_MEM"   case STR_DEF => "STR_DEF"
    case ENUM => "ENUM"         case ENUM_MEM => "ENUM_MEM" case ARRAY => "ARRAY"
    case ARR_MEM => "ARR_MEM"   case VARIABLE => "VARIABLE" case CODE => "CODE"
    case PRGM_SET => "PRGM_SET" case PRGM_END => "PRGM_END" case NONE => "NONE"
    case ENUM_END => "ENUM_END" case PRJT_DEF => "PRJT_DEF"
  }

  const PrjtDefCol: int := 2
  const PrjtNameCol: int := 5
  const TabSize: int := 4
  const ReadingXlsRule: string := "$"
  const CommPrjtName: string := "COMMON"
  const ElsePrjtName: string := "DEFAULT"
  const EndPrjtName: string := "END"
  const EmptyKey: string := "Empty"

  /** A banner rule: `c * n`. */
  function Rule(c: char, n: nat): (r: string)
    ensures |r| == n && forall i :: 0 <= i < n ==> r[i] == c
  {
    seq(n, _ => c)
  }

  const StartAnnotation: seq<string> := [
    "/" + Rule('*', 92),
    "/*" + Rule('=', 91),
    "/*" + Rule('-', 91)
  ]
  const EndAnnotation: seq<string> := [
    Rule('*', 92) + "/",
    Rule('=', 91) + "*/",
    Rule('-', 91) + "*/"
  ]
  const InterAnnotation: seq<string> := [
    "/" + Rule('*', 91) + "/",
    "/*" + Rule('=', 89) + "*/",
    "/*" + Rule('-', 89) + "*/"
  ]

  const FilePathTitle: string := "$파일 생성 경로"
  const SrcInfoTitle: string := "$소스(.c) 파일 정보"
  const HdrInfoTitle: string := "$헤더(.h) 파일 정보"
  const PrgmInfoTitle: string := "$Pragma Section 정보"
  const XlsInfoTitle: string := "$엑셀 작성용 리스트"

  // ------------------------------------------------------------ opcodes

  /** The opcode text of every mode that has one (`dOpCode`'s keys). */
  function OpCodeText(m: MkMode): Option<string>
  {
    match m
    case TITLE => Some("$TITLE")       case TITLE_S => Some("$TITLE_S")
    case TITLE_H => Some("$TITLE_H")   case SUBTITLE => Some("$SUBTITLE")
    case DESCRIPT => Some("$DESCRIPT") case DEFINE => Some("$DEFINE")
    case TYPEDEF => Some("$TYPEDEF")   case STR_MEM => Some("$STR_MEM")
    case STR_DEF => Some("$STR_DEF")   case ENUM => Some("$ENUM")
    case ENUM_MEM => Some("$ENUM_MEM") case ENUM_END => Some("$ENUM_END")
    case ARRAY => Some("$ARRAY")       case ARR_MEM => Some("$ARR_MEM")
    case VARIABLE => Some("$VARIABLE") case PRGM_SET => Some("$PRGM_SET")
    case PRGM_END => Some("$PRGM_END") case CODE => Some("$CODE")
    case PRJT_DEF => Some("$PRJT_DEF") case NONE => None
  }

  /** `dOpCode.get(text)` */
  function LookupOpCode(text: string): (r: Option<MkMode>)
    ensures r.Some? ==> r.value != NONE
  {
    match text
    case "$TITLE" => Some(TITLE)       case "$TITLE_S" => Some(TITLE_S)
    case "$TITLE_H" => Some(TITLE_H)   case "$SUBTITLE" => Some(SUBTITLE)
    case "$DESCRIPT" => Some(DESCRIPT) case "$DEFINE" => Some(DEFINE)
    case "$TYPEDEF" => Some(TYPEDEF)   case "$STR_MEM" => Some(STR_MEM)
    case "$STR_DEF" => Some(STR_DEF)   case "$ENUM" => Some(ENUM)
    case "$ENUM_MEM" => Some(ENUM_MEM) case "$ENUM_END" => Some(ENUM_END)
    case "$ARRAY" => Some(ARRAY)       case "$ARR_MEM" => Some(ARR_MEM)
    case "$VARIABLE" => Some(VARIABLE) case "$PRGM_SET" => Some(PRGM_SET)
    case "$PRGM_END" => Some(PRGM_END) case "$CODE" => Some(CODE)
    case "$PRJT_DEF" => Some(PRJT_DEF)
    case _ => None
  }

  /** The opcode table is a bijection between its 19 keys and the 19 modes
      other than NONE: each mode's key looks that mode up, and a key that
      looks a mode up is that mode's key, so distinct keys name distinct
      modes. */
  lemma OpCodeTableBijective(text: string, m: MkMode)
    ensures m != NONE ==> LookupOpCode(OpCodeText(m).value) == Some(m)
    ensures LookupOpCode(text) == Some(m) ==> OpCodeText(m) == Some(text)
  {
    match m
    case TITLE => {}    case TITLE_S => {}  case TITLE_H => {}  case SUBTITLE => {}
    case DESCRIPT => {} case DEFINE => {}   case TYPEDEF => {}  case STR_MEM => {}
    case STR_DEF => {}  case ENUM => {}     case ENUM_MEM => {} case ARRAY => {}
    case ARR_MEM => {}  case VARIABLE => {} case CODE => {}     case PRGM_SET => {}
    case PRGM_END => {} case NONE => {}     case ENUM_END => {} case PRJT_DEF => {}
  }

  // ------------------------------------------------------------ cells

  /** A cell of a sheet grid: `None`, or a value whose `str()` is `text`. */
  datatype CellValue = Blank | Text(text: string)

  type Grid = seq<seq<CellValue>>

  /** Python list indexing: `i` in `[-n, n)` selects an element, counted
      from the end when negative; anything else raises IndexError. */
  function PyIndex(n: nat, i: int): (r: Option<nat>)
    ensures r.Some? <==> -(n as int) <= i < n
    ensures r.Some? ==> r.value < n && (i >= 0 ==> r.value == i) && (i < 0 ==> r.value == n + i)
  {
    if 0 <= i < n then Some(i) else if -(n as int) <= i < 0 then Some(n + i) else None
  }

  /** `Info.ReadCell(data, row, col)` */
  function ReadCell(data: Grid, row: int, col: int): (r: string)
    ensures 0 <= row < |data| && 0 <= col < |data[row]| ==>
      r == (match data[row][col] case Blank => "" case Text(t) => Strip(t))
    ensures row >= |data| || row < -|data| ==> r == ""
    ensures 0 <= row < |data| && (col >= |data[row]| || col < -|data[row]|) ==> r == ""
  {
    if row >= |data| then ""
    else match PyIndex(|data|, row)
      case None => ""
      case Some(ri) =>
        if col >= |data[ri]| then ""
        else match PyIndex(|data[ri]|, col)
          case None => ""
          case Some(ci) =>
            match data[ri][ci]
            case Blank => ""
            case Text(t) => Strip(t)
  }

  /** What `ReadCell` returns is stripped: no whitespace at either end. */
  lemma ReadCellStripped(data: Grid, row: int, col: int)
    ensures var r := ReadCell(data, row, col); r == [] || (!IsSpace(r[0]) && !IsSpace(r[|r| - 1]))
  {
  }

  // ------------------------------------------------------------ cell names

  /** The letters `WriteErrCell` gives column `col`. Code points past the
      surrogate range are not characters of the model, hence the bound. */
  function ColumnLetters(col: int): (r: string)
    requires col < 1436032
    ensures 1 <= |r| <= 2
  {
    var last := if col % 26 == 0 then 'Z' else (col % 26 + 64) as char;
    if col > 26 then
      var temp := if col % 26 == 0 then col / 26 - 1 else col / 26;
      [(temp + 64) as char] + [last]
    else [last]
  }

  /** The column number of a name in bijective base 26 (A = 1, …, Z = 26). */
  function ColumnValue(name: string): int
  {
    if |name| == 0 then 0
    else 26 * ColumnValue(name[..|name| - 1]) + (name[|name| - 1] as int - 64)
  }

  predicate IsColumnName(name: string)
  {
    1 <= |name| <= 2 && forall i :: 0 <= i < |name| ==> 'A' <= name[i] <= 'Z'
  }

  /** Columns 1 to 702 are named A … Z, AA … ZZ, as spreadsheets name them:
      the name is well formed and denotes the column back. */
  lemma ColumnLettersStandard(col: int)
    requires 1 <= col <= 702
    ensures IsColumnName(ColumnLetters(col))
    ensures ColumnValue(ColumnLetters(col)) == col
  {
    var r := ColumnLetters(col);
    if col > 26 {
      assert r[..1] == [r[0]];
      assert ColumnValue([r[0]]) == r[0] as int - 64 by {
        assert [r[0]][..0] == [];
      }
    } else {
      assert r[..0] == [];
    }
  }

  /** Every one- or two-letter name is the name of exactly its own column. */
  lemma ColumnLettersOnto(name: string)
    requires IsColumnName(name)
    ensures 1 <= ColumnValue(name) <= 702
    ensures ColumnLetters(ColumnValue(name)) == name
  {
    if |name| == 2 {
      assert name[..1] == [name[0]];
      assert ColumnValue([name[0]]) == name[0] as int - 64 by {
        assert [name[0]][..0] == [];
      }
    } else {
      assert name[..0] == [];
    }
  }

  /** The cell reference `$<sheet>[<letters><row>]:` that prefixes a message. */
  function CellRef(sheet: string, row: nat, col: int): string
    requires col < 1436032
  {
    ReadingXlsRule + sheet + "[" + ColumnLetters(col) + NatToString(row) + "]:"
  }

  function ErrText(e: ErrType): string
  {
    match e
    case EmptyCell => "셀 내용 미기입"
    case OpCode => "OpCode 기입 오류"
    case ItemName => "아이템 항목 기입 오류"
    case TitleName => "한 시트에서 Title명 중복 사용"
    case ArrSizeErr => "배열 사이즈 기입 오류"
    case ArrRowOver => "배열 사이즈 기입 오류(행 초과)"
    case ArrRowUnder => "배열 사이즈 기입 오류(행 부족)"
    case PrgmEmpty => "Pragma section 정보 미기입"
    case PrgmWrite => "Pragma section 정보 기입 오류(SET, END 사용 오류)"
    case PrgmKey => "Pragma section 정보 기입 오류(Keyword명 중복)"
    case PrjtEmpty => "프로젝트/단계 정보 미기입"
    case PrjtSame => "프로젝트/단계 정보 기입 오류(동일한 명칭)"
    case PrjtNotSame => "프로젝트/단계 정보 기입 오류(상이한 define명)"
    case PrjtErr => "프로젝트/단계 정보 기입 오류(DEFAULT, END 사용 오류)"
    case PrjtDefOrder => "프로젝트/단계 정보의 순서 오류" + "(COMMON->...->DEFAULT 순으로 기입)"
    case FileName => "생성 파일명 기입 오류(소스/헤더 파일명 불일치)"
    case FileExist => "생성 파일명 기입 오류(이미 정의된 파일명)"
    case FileExtension => "생성 파일명 기입 오류(*.c/*.h 확장자)"
  }

  /** The process-wide error bookkeeping of `Info`: the error list, the
      widest cell reference seen so far (used to align the messages in the
      generated file banner) and the list of generated file names. */
  class ErrorLog {
    var errList: seq<string>
    var errNameSize: nat
    var fileList: seq<string>

    constructor ()
      ensures errList == [] && errNameSize == 0 && fileList == []
    {
      errList := [];
      errNameSize := 0;
      fileList := [];
    }

    /** `Info.WriteErrMsg(msg)` */
    method WriteErrMsg(msg: string)
      modifies this`errList
      ensures errList == old(errList) + ["  " + msg]
    {
      errList := errList + ["  " + msg];
    }

    /** `Info.WriteErrCell(err, sheet, row, col)` with 1-based `row`/`col`. */
    method WriteErrCell(err: ErrType, sheet: string, row: nat, col: int)
      requires col < 1436032
      modifies this`errList, this`errNameSize
      ensures errList == old(errList) + ["  " + CellRef(sheet, row, col) + ErrText(err)]
      ensures errNameSize == Max(old(errNameSize), Utf8Len(CellRef(sheet, row, col)))
      ensures errNameSize >= old(errNameSize)
    {
      var prefix := CellRef(sheet, row, col);
      if Utf8Len(prefix) > errNameSize {
        errNameSize := Utf8Len(prefix);
      }
      errList := errList + ["  " + prefix + ErrText(err)];
    }
  }

  /** An error attached to a cell: what `WriteErrCell(err, sheet, row, col)` is given. */
  datatype CellErr = CellErr(err: ErrType, row: nat, col: nat)

  /** Every column of `errs` has a column name. */
  predicate Addressable(errs: seq<CellErr>)
  {
    forall i | 0 <= i < |errs| :: errs[i].col < 1436032
  }

  /** The line `WriteErrCell` appends to the error list for `e`. */
  function ErrLine(sheet: string, e: CellErr): string
    requires e.col < 1436032
  {
    "  " + CellRef(sheet, e.row, e.col) + ErrText(e.err)
  }

  /** The lines that writing `errs` one after the other appends. */
  function ErrLines(sheet: string, errs: seq<CellErr>): (r: seq<string>)
    requires Addressable(errs)
    ensures |r| == |errs|
    ensures forall i | 0 <= i < |errs| :: r[i] == ErrLine(sheet, errs[i])
  {
    seq(|errs|, i requires 0 <= i < |errs| => ErrLine(sheet, errs[i]))
  }

  /** `errNameSize` after writing `errs` one after the other, from `n`. */
  function Widest(sheet: string, n: nat, errs: seq<CellErr>): (w: nat)
    requires Addressable(errs)
    ensures w >= n
  {
    if errs == [] then n
    else
      var last := errs[|errs| - 1];
      var w0 := Widest(sheet, n, errs[..|errs| - 1]);
      var len := Utf8Len(CellRef(sheet, last.row, last.col));
      if len > w0 then len else w0
  }

  /** Writing one more error: its line is appended and the width grows to
      cover its cell reference. */
  lemma LogStep(sheet: string, n: nat, errs: seq<CellErr>, e: CellErr)
    requires Addressable(errs) && e.col < 1436032
    ensures Addressable(errs + [e])
    ensures ErrLines(sheet, errs + [e]) == ErrLines(sheet, errs) + [ErrLine(sheet, e)]
    ensures Widest(sheet, n, errs + [e]) == Max(Widest(sheet, n, errs), Utf8Len(CellRef(sheet, e.row, e.col)))
  {
    assert (errs + [e])[..|errs|] == errs;
  }

  lemma ErrLinesAppend(sheet: string, a: seq<CellErr>, b: seq<CellErr>)
    requires Addressable(a) && Addressable(b)
    ensures Addressable(a + b)
    ensures ErrLines(sheet, a + b) == ErrLines(sheet, a) + ErrLines(sheet, b)
  {
  }

  /** Writing `a` and then `b` leaves the width writing `a + b` leaves. */
  lemma {:induction false} WidestAppend(sheet: string, n: nat, a: seq<CellErr>, b: seq<CellErr>)
    requires Addressable(a) && Addressable(b)
    ensures Addressable(a + b)
    ensures Widest(sheet, n, a + b) == Widest(sheet, Widest(sheet, n, a), b)
    decreases |b|
  {
    if b == [] {
      assert a + b == a;
    } else {
      var b' := b[..|b| - 1];
      assert (a + b)[..|a + b| - 1] == a + b';
      assert (a + b)[|a + b| - 1] == b[|b| - 1];
      WidestAppend(sheet, n, a, b');
    }
  }

  // ------------------------------------------------------------ blank lines

  /** `Info.ExistEmptyStr(lst, cnt)`: whether the `cnt`-th line from the end
      is empty or ends a line already. */
  function ExistEmptyStr(lst: seq<string>, cnt: int): (r: bool)
    ensures |lst| == 0 ==> r
    ensures |lst| > 0 && 1 <= cnt <= |lst| ==>
      (r <==> lst[|lst| - cnt] == "" || EndsWith(lst[|lst| - cnt], "\r\n"))
    ensures |lst| > 0 && cnt > |lst| ==> (r <==> lst[0] == "" || EndsWith(lst[0], "\r\n"))
    ensures cnt <= 0 ==> r
  {
    if |lst| == 0 then true
    else
      var idx := if cnt <= 0 || cnt > |lst| then |lst| - (if cnt < |lst| then cnt else |lst|) else |lst| - cnt;
      var last := if 0 <= idx < |lst| then lst[idx] else "";
      last == "" || EndsWith(last, "\r\n")
  }

  // ------------------------------------------------------------ records

  /** `SCellPos` */
  datatype CellPos = CellPos(row: int, col: int)

  /** `CellInfos`: a cell's position and its text. */
  datatype CellInfo = CellInfo(row: nat, col: nat, str: string)

  /** `SPrjtInfo`: a project-definition macro and the values seen for it. */
  datatype PrjtInfo = PrjtInfo(def: string, vals: seq<string>)

  /** `SPragInfo`: one memory class of a pragma-section keyword, with the
      strings of its opening (`Set…`) and closing (`End…`) directives and the
      code lines written before and after them. */
  datatype PragInfo = PragInfo(
    preCode: string, className: string,
    setIString: string, setUString: string, setAddrMode: string,
    endIString: string, endUString: string, endCode: string)

  /** The two classes registered for a pragma keyword (`dPragma[keyword]`). */
  datatype PragmaPair = PragmaPair(class1: PragInfo, class2: PragInfo)
}
