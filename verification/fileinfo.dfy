/** The file-information sheet (code_generator/file_info.py): locating the
    title cells, reading the output path, the source and header
    descriptions and the pragma-section table, and writing the banner that
    opens every generated file. */
module FileInfos {
  import opened PyStr
  import opened Info

  /** The widest sheet Excel allows. */
  const MaxCols: nat := 16384

  /** A sheet no wider than Excel allows, so that every cell the reader
      reports on has a column name. */
  predicate Sized(data: Grid)
  {
    forall r | 0 <= r < |data| :: |data[r]| <= MaxCols
  }

  /** `SCellPos` as `chk_position` records it; `(0, 0)` means "not found". */
  datatype Pos = Pos(row: nat, col: nat)

  const Unset := Pos(0, 0)

  /** The test `Row != 0 and Col != 0` made before a position is used. */
  predicate Found(p: Pos) { p.row != 0 && p.col != 0 }

  // ------------------------------------------------------------ chk_position

  datatype Marks = Marks(filePath: Pos, srcInfo: Pos, hdrInfo: Pos, prgmInfo: Pos)

  /** The four titles `chk_position` looks for. */
  datatype Title = FilePathT | SrcInfoT | HdrInfoT | PrgmInfoT

  function TitleText(t: Title): string
  {
    match t
    case FilePathT => FilePathTitle
    case SrcInfoT => SrcInfoTitle
    case HdrInfoT => HdrInfoTitle
    case PrgmInfoT => PrgmInfoTitle
  }

  const Titles: map<string, Title> :=
    map[FilePathTitle := FilePathT, SrcInfoTitle := SrcInfoT, HdrInfoTitle := HdrInfoT, PrgmInfoTitle := PrgmInfoT]

  /** The title a cell holds, if any. */
  function TitleOf(cell: string): Option<Title>
  {
    if cell in Titles then Some(Titles[cell]) else None
  }

  /** The four titles are distinct, so a cell holds a title exactly when it
      is that title's text. */
  lemma TitleOfText(cell: string, t: Title)
    ensures TitleOf(cell) == Some(t) <==> cell == TitleText(t)
  {
    assert FilePathTitle[1] != SrcInfoTitle[1] && FilePathTitle[1] != HdrInfoTitle[1];
    assert FilePathTitle[1] != PrgmInfoTitle[1] && SrcInfoTitle[1] != HdrInfoTitle[1];
    assert SrcInfoTitle[1] != PrgmInfoTitle[1] && HdrInfoTitle[1] != PrgmInfoTitle[1];
  }

  /** Where the data announced by a title found at (row, col) starts. */
  function Target(t: Title, row: nat, col: nat): Pos
  {
    match t
    case FilePathT => Pos(row, col + 1)
    case SrcInfoT => Pos(row + 1, col + 1)
    case HdrInfoT => Pos(row + 1, col + 1)
    case PrgmInfoT => Pos(row + 3, col)
  }

  function Mark(m: Marks, t: Title): Pos
  {
    match t
    case FilePathT => m.filePath
    case SrcInfoT => m.srcInfo
    case HdrInfoT => m.hdrInfo
    case PrgmInfoT => m.prgmInfo
  }

  /** The title tests of `chk_position` on the cell (row, col): the mark of
      the title the cell holds moves to what it announces. */
  function MarkCell(m: Marks, cell: string, row: nat, col: nat): (r: Marks)
    ensures forall t :: Mark(r, t) == if TitleOf(cell) == Some(t) then Target(t, row, col) else Mark(m, t)
  {
    match TitleOf(cell)
    case None => m
    case Some(FilePathT) => m.(filePath := Target(FilePathT, row, col))
    case Some(SrcInfoT) => m.(srcInfo := Target(SrcInfoT, row, col))
    case Some(HdrInfoT) => m.(hdrInfo := Target(HdrInfoT, row, col))
    case Some(PrgmInfoT) => m.(prgmInfo := Target(PrgmInfoT, row, col))
  }

  /** The text `ReadCell` gives a cell. */
  function CellText(v: CellValue): string
  {
    match v
    case Blank => ""
    case Text(t) => Strip(t)
  }

  /** The texts of `cells`, in order. */
  function Texts(cells: seq<CellValue>): (r: seq<string>)
    ensures |r| == |cells|
  {
    if cells == [] then [] else [CellText(cells[0])] + Texts(cells[1..])
  }

  lemma {:induction false} TextsAt(cells: seq<CellValue>, c: nat)
    requires c < |cells|
    ensures Texts(cells)[c] == CellText(cells[c])
  {
    if c > 0 {
      TextsAt(cells[1..], c - 1);
    }
  }

  /** The trimmed texts of a row, as `ReadCell` reads them. */
  function RowText(data: Grid, row: nat): seq<string>
    requires row < |data|
  {
    Texts(data[row])
  }

  /** A row's texts are its cells as `ReadCell` reads them, one per cell. */
  lemma RowTextCell(data: Grid, row: nat, c: nat)
    requires row < |data|
    ensures |RowText(data, row)| == |data[row]|
    ensures c < |data[row]| ==> RowText(data, row)[c] == ReadCell(data, row, c)
  {
    if c < |data[row]| {
      TextsAt(data[row], c);
    }
  }

  /** The cells of row `row` from column `c` on; the Excel-list title ends
      the row. */
  function MarkRow(cells: seq<string>, row: nat, c: nat, m: Marks): Marks
    decreases |cells| - c
  {
    if c >= |cells| then m
    else
      var m' := MarkCell(m, cells[c], row, c);
      if cells[c] == XlsInfoTitle then m' else MarkRow(cells, row, c + 1, m')
  }

  /** The rows from `r` on, each from its second column. */
  function MarkRows(data: Grid, r: nat, m: Marks): Marks
    decreases |data| - r
  {
    if r >= |data| then m else MarkRows(data, r + 1, MarkRow(RowText(data, r), r, 1, m))
  }

  /** The title `t` is written in the cell (row, col), at or after column 1. */
  predicate TitleAt(data: Grid, t: Title, row: nat, col: nat)
  {
    row < |data| && 1 <= col < |data[row]| && TitleOf(ReadCell(data, row, col)) == Some(t)
  }

  /** The mark of `t` after a row is either the one before or the place
      announced by a cell of that row holding `t`, whose column the lemma
      returns. */
  lemma {:induction false} MarkRowFrom(cells: seq<string>, row: nat, c: nat, m: Marks, t: Title) returns (col: nat)
    ensures var p := Mark(MarkRow(cells, row, c, m), t);
      p == Mark(m, t) || (c <= col < |cells| && TitleOf(cells[col]) == Some(t) && p == Target(t, row, col))
    decreases |cells| - c
  {
    col := c;
    if c < |cells| {
      var m' := MarkCell(m, cells[c], row, c);
      if cells[c] != XlsInfoTitle {
        var col' := MarkRowFrom(cells, row, c + 1, m', t);
        if Mark(MarkRow(cells, row, c + 1, m'), t) != Mark(m', t) {
          col := col';
        }
      }
    }
  }

  /** What `chk_position` records for a title is either what was there
      before or the place announced by a cell holding that title, which the
      lemma returns: a sheet without the title leaves its position unset. */
  lemma {:induction false} MarkRowsFrom(data: Grid, r: nat, m: Marks, t: Title) returns (row: nat, col: nat)
    ensures var p := Mark(MarkRows(data, r, m), t);
      p == Mark(m, t) || (r <= row && TitleAt(data, t, row, col) && p == Target(t, row, col))
    decreases |data| - r
  {
    row, col := r, 0;
    if r < |data| {
      var m' := MarkRow(RowText(data, r), r, 1, m);
      assert MarkRows(data, r, m) == MarkRows(data, r + 1, m');
      col := MarkRowFrom(RowText(data, r), r, 1, m, t);
      RowTextCell(data, r, col);
      var row', col' := MarkRowsFrom(data, r + 1, m', t);
      if Mark(MarkRows(data, r + 1, m'), t) != Mark(m', t) {
        row, col := row', col';
      }
    }
  }

  /** On a sheet within Excel's width every recorded position has a column name. */
  lemma {:induction false} MarkRowsSized(data: Grid, r: nat, m: Marks, t: Title)
    requires Sized(data) && r >= 1
    requires Mark(m, t).col <= MaxCols + 1
    ensures Mark(MarkRows(data, r, m), t).col <= MaxCols + 1
  {
    var row, col := MarkRowsFrom(data, r, m, t);
  }

  // ---------------------------------------------------------- read_file_path

  /** `read_file_path`: the path cell, or `"/" + mkFilePath` when the cell
      does not start with a slash, without one trailing slash; empty when
      the title or the cell is missing. */
  function FilePath(data: Grid, pos: Pos, mkFilePath: string): (r: string)
    ensures !Found(pos) ==> r == ""
    ensures r == "" || StartsWith(r, "/")
  {
    if Found(pos) then
      var p := ReadCell(data, pos.row, pos.col);
      if p == "" then ""
      else
        var q := if !StartsWith(p, "/") then "/" + mkFilePath else p;
        if EndsWith(q, "/") then q[..|q| - 1] else q
    else ""
  }

  /** With the empty default that `Read` passes, the path is the cell itself
      less at most one trailing slash, and nothing when the cell is not an
      absolute path. */
  lemma FilePathAtRead(data: Grid, pos: Pos)
    ensures var cell := ReadCell(data, pos.row, pos.col);
      var r := FilePath(data, pos, "");
      (r == "" || (StartsWith(cell, "/") && (cell == r || cell == r + "/")))
      && (Found(pos) && StartsWith(cell, "/") && !EndsWith(cell, "/") ==> r == cell)
  {
  }

  // ------------------------------------------------------ read_src_hdr_info

  datatype Field = File | Brif | Auth | Date | Rema | Vers | Hist | Incl

  /** The keys of `dFileInfo`: `S_<field>` for the source file when `src`,
      `H_<field>` for the header. */
  datatype Key = Key(src: bool, field: Field)

  function RowOff(f: Field): nat
  {
    match f
    case File => 0 case Brif => 0 case Auth => 1 case Date => 1
    case Rema => 2 case Vers => 2 case Hist => 3 case Incl => 5
  }

  function ColOff(f: Field): nat
  {
    match f
    case Brif => 3 case Date => 3 case Vers => 3
    case File => 0 case Auth => 0 case Rema => 0 case Hist => 0 case Incl => 0
  }

  /** The eight cells of one file's description, at their offsets from the
      first cell under its title, with no text read yet. */
  function Block(src: bool, p: Pos): (b: map<Key, CellInfo>)
    ensures forall k: Key :: k in b <==> k.src == src
    ensures forall k | k in b :: b[k] == CellInfo(p.row + RowOff(k.field), p.col + ColOff(k.field), "")
  {
    FieldsListed();
    map k | k in (set f | f in Fields :: Key(src, f)) :: CellInfo(p.row + RowOff(k.field), p.col + ColOff(k.field), "")
  }

  const Fields: seq<Field> := [File, Brif, Auth, Date, Rema, Vers, Hist, Incl]

  lemma FieldsListed()
    ensures forall f: Field :: f in Fields
  {
    forall f: Field ensures f in Fields {
      match f
      case File => assert Fields[0] == f;
      case Brif => assert Fields[1] == f;
      case Auth => assert Fields[2] == f;
      case Date => assert Fields[3] == f;
      case Rema => assert Fields[4] == f;
      case Vers => assert Fields[5] == f;
      case Hist => assert Fields[6] == f;
      case Incl => assert Fields[7] == f;
    }
  }

  /** `dFileInfo` after the cells of the titles that were found are entered. */
  function Blocks(d: map<Key, CellInfo>, src: Pos, hdr: Pos): map<Key, CellInfo>
  {
    var d1 := if Found(src) then d + Block(true, src) else d;
    if Found(hdr) then d1 + Block(false, hdr) else d1
  }

  /** The message for a title that is not on the sheet. */
  function Missing(title: string): string
  {
    "\"" + title + "\"를 찾을 수 없음"
  }

  /** The lines logged for the description titles that are missing. */
  function MissingLines(src: Pos, hdr: Pos): (r: seq<string>)
    ensures r == [] <==> Found(src) && Found(hdr)
  {
    (if Found(src) then [] else ["  " + Missing(SrcInfoTitle)])
    + (if Found(hdr) then [] else ["  " + Missing(HdrInfoTitle)])
  }

  /** One column of a history: its date and its description, each further
      line of the description indented like the first. */
  function HistEntry(date: string, desc: string): string
  {
    HistHead(date) + ("\t\t\t" + Replace(desc, "\n", "\n\t\t\t") + "\n")
  }

  /** The line break and the dated line an entry opens with. */
  function HistHead(date: string): string
  {
    "\n" + ("\t\t-#" + date + "\n")
  }

  /** The text of cell `c` among a row's texts; empty past the row's end,
      as `ReadCell` reads it. */
  function At(cells: seq<string>, c: nat): string
  {
    if c < |cells| then cells[c] else ""
  }

  /** The texts of row `row`; none below the last row. */
  function RowOr(data: Grid, row: nat): (r: seq<string>)
    ensures row < |data| ==> r == RowText(data, row)
    ensures row >= |data| ==> r == []
  {
    if row < |data| then RowText(data, row) else []
  }

  lemma AtReadCell(data: Grid, row: nat, c: nat)
    ensures At(RowOr(data, row), c) == ReadCell(data, row, c)
  {
    if row < |data| {
      RowTextCell(data, row, c);
    }
  }

  /** The history whose dates are `dates` and descriptions `descs`, from
      column `col` up to the first column with neither. */
  function HistoryText(dates: seq<string>, descs: seq<string>, col: nat): (r: string)
    decreases |dates| + |descs| - col
  {
    var date := At(dates, col);
    var desc := At(descs, col);
    if date == "" && desc == "" then ""
    else HistEntry(date, desc) + HistoryText(dates, descs, col + 1)
  }

  /** One column of the history: at its end the text read so far is the
      whole history, otherwise the column's entry extends it. */
  lemma HistoryNext(s: string, dates: seq<string>, descs: seq<string>, c: nat, col: nat)
    requires s + HistoryText(dates, descs, c) == HistoryText(dates, descs, col)
    ensures At(dates, c) == "" && At(descs, c) == "" ==> s == HistoryText(dates, descs, col)
    ensures !(At(dates, c) == "" && At(descs, c) == "") ==>
      c < |dates| + |descs| &&
      (s + HistEntry(At(dates, c), At(descs, c))) + HistoryText(dates, descs, c + 1) == HistoryText(dates, descs, col)
  {
    if At(dates, c) == "" && At(descs, c) == "" {
      RightUnit(s);
    } else {
      Assoc(s, HistEntry(At(dates, c), At(descs, c)), HistoryText(dates, descs, c + 1));
    }
  }

  /** A history is empty exactly when its first column holds neither a
      date nor a description, and otherwise opens with the first date. */
  lemma HistoryStart(dates: seq<string>, descs: seq<string>, col: nat)
    ensures var h := HistoryText(dates, descs, col);
      (h == "" <==> At(dates, col) == "" && At(descs, col) == "")
      && (h != "" ==> StartsWith(h, HistHead(At(dates, col))))
  {
    var date := At(dates, col);
    var desc := At(descs, col);
    if date != "" || desc != "" {
      var body := "\t\t\t" + Replace(desc, "\n", "\n\t\t\t") + "\n";
      var rest := HistoryText(dates, descs, col + 1);
      Assoc(HistHead(date), body, rest);
      PrefixOfConcat(HistHead(date), body + rest);
    }
  }

  /** The three appends of one history column extend the text by that
      column's entry. */
  lemma HistStep(s: string, date: string, desc: string)
    ensures s + "\n" + ("\t\t-#" + date + "\n") + ("\t\t\t" + desc + "\n")
      == s + (HistHead(date) + ("\t\t\t" + desc + "\n"))
  {
    var x, y := "\t\t-#" + date + "\n", "\t\t\t" + desc + "\n";
    Assoc(s, "\n", x);
    Assoc(s, "\n" + x, y);
  }

  lemma PrefixOfConcat(a: string, b: string)
    ensures StartsWith(a + b, a)
  {
    assert (a + b)[..|a|] == a;
  }

  function StripAll(parts: seq<string>): (r: seq<string>)
    ensures |r| == |parts| && forall i | 0 <= i < |parts| :: r[i] == Strip(parts[i])
  {
    seq(|parts|, i requires 0 <= i < |parts| => Strip(parts[i]))
  }

  /** An include field: a comma-separated list becomes one name per line,
      and double quotes are dropped. */
  function IncludeText(s: string): (r: string)
    ensures '"' !in r
  {
    var t := if ',' in s then Join(StripAll(Split(s, ",")), "\r\n") else s;
    if '"' in t then
      ReplaceNoPattern(t, "\"", "");
      NotContainedCharFree(Replace(t, "\"", ""), '"');
      Replace(t, "\"", "")
    else t
  }

  function DropNewline(s: string): (r: string)
    ensures EndsWith(s, "\n") ==> s == r + "\n"
    ensures !EndsWith(s, "\n") ==> r == s
  {
    if EndsWith(s, "\n") then s[..|s| - 1] else s
  }

  /** The text `read_src_hdr_info` stores for the field `k` whose cell is `c`:
      one trailing newline dropped and line breaks written as CR LF. */
  function FieldValue(data: Grid, k: Key, c: CellInfo): string
  {
    Finished(k, DropNewline(RawField(data, k, c)))
  }

  /** The cell text of a field: a whole history for the history field. */
  function RawField(data: Grid, k: Key, c: CellInfo): string
  {
    if k.field == Hist then HistoryText(RowOr(data, c.row), RowOr(data, c.row + 1), c.col) else ReadCell(data, c.row, c.col)
  }

  /** Line breaks written as CR LF, and the include list rewritten. */
  function Finished(k: Key, s: string): string
  {
    var t := Replace(s, "\n", "\r\n");
    if k.field == Incl then IncludeText(t) else t
  }

  /** A one-line field other than the history and the includes is the
      trimmed cell text as written. */
  lemma PlainFieldIsCell(data: Grid, k: Key, c: CellInfo)
    requires k.field != Hist && k.field != Incl
    requires '\n' !in ReadCell(data, c.row, c.col)
    ensures FieldValue(data, k, c) == ReadCell(data, c.row, c.col)
  {
    var raw := ReadCell(data, c.row, c.col);
    assert |raw| > 0 ==> raw[|raw| - 1] in raw;
    AbsentCharNotContained(raw, '\n');
  }

  /** `dFileInfo` with the text of every entry read. */
  function Filled(data: Grid, d: map<Key, CellInfo>): (r: map<Key, CellInfo>)
    ensures r.Keys == d.Keys
  {
    map k | k in d :: d[k].(str := FieldValue(data, k, d[k]))
  }

  /** `s[:-2]`: the name without a two-character extension. */
  function Stem(s: string): string
  {
    if |s| >= 2 then s[..|s| - 2] else ""
  }

  /** A name of two characters or more is its stem and its last two
      characters; a shorter one has an empty stem. */
  lemma StemSplit(s: string)
    ensures |s| >= 2 ==> s == Stem(s) + s[|s| - 2..]
    ensures |s| < 2 ==> Stem(s) == ""
  {
    if |s| >= 2 {
      assert s == s[..|s| - 2] + s[|s| - 2..];
    }
  }

  /** The report `e` when `bad` holds. */
  function Flag(bad: bool, e: CellErr): (r: seq<CellErr>)
    ensures r == [] <==> !bad
    ensures forall i | 0 <= i < |r| :: r[i] == e
  {
    if bad then [e] else []
  }

  predicate BadSource(name: string)
  {
    !EndsWith(name, ".c") && !EndsWith(name, ".C")
  }

  predicate BadHeader(name: string)
  {
    !EndsWith(name, ".h") && !EndsWith(name, ".H")
  }

  /** The errors of the file-name checks, in the order they are logged. */
  function NameErrs(s: CellInfo, h: CellInfo, fileList: seq<string>): seq<CellErr>
  {
    Flag(BadSource(s.str), CellErr(FileExtension, s.row, s.col))
    + Flag(BadHeader(h.str), CellErr(FileExtension, h.row, h.col))
    + Flag(Stem(s.str) != Stem(h.str), CellErr(FileName, s.row, s.col))
    + Flag(Stem(s.str) in fileList, CellErr(FileExist, s.row, s.col))
  }

  /** `Info.FileList` after the checks: the stem is recorded once. */
  function Recorded(s: CellInfo, fileList: seq<string>): seq<string>
  {
    if Stem(s.str) in fileList then fileList else fileList + [Stem(s.str)]
  }

  /** Recording keeps every known stem, adds the new one, and adds nothing
      when it is already known. */
  lemma RecordedKeeps(s: CellInfo, fileList: seq<string>)
    ensures Stem(s.str) in Recorded(s, fileList)
    ensures forall x | x in fileList :: x in Recorded(s, fileList)
    ensures Stem(s.str) in fileList ==> Recorded(s, fileList) == fileList
    ensures |Recorded(s, fileList)| <= |fileList| + 1
  {
  }

  /** What reading the two descriptions leaves: with both titles found,
      every entry of both blocks holds its text and `err` says whether a
      file-name check failed; with either missing, the blocks of the found
      titles are entered unread and `err` is set. */
  ghost predicate SrcHdrRead(d0: map<Key, CellInfo>, src: Pos, hdr: Pos, data: Grid, fileList: seq<string>,
    d: map<Key, CellInfo>, err: bool)
  {
    var b := Blocks(d0, src, hdr);
    if Found(src) && Found(hdr) then
      var filled := Filled(data, b);
      && d == filled
      && (err <==> NameErrs(filled[Key(true, File)], filled[Key(false, File)], fileList) != [])
    else d == b && err
  }

  /** The error log `(e1, w1)` after the keyword table's reports `errs` have
      been logged onto `(e0, w0)`; nothing is logged without the table. */
  predicate PrgmLogged(sheet: string, errs: seq<CellErr>, found: bool,
    e0: seq<string>, w0: nat, e1: seq<string>, w1: nat)
  {
    if found then Addressable(errs) && e1 == e0 + ErrLines(sheet, errs) && w1 == Widest(sheet, w0, errs)
    else e1 == e0 && w1 == w0
  }

  /** A source `<stem>.c` with its header `<stem>.h` under a new stem passes
      all the checks. */
  lemma MatchingPairPasses(stem: string, s: CellInfo, h: CellInfo, fileList: seq<string>)
    requires s.str == stem + ".c" && h.str == stem + ".h" && stem !in fileList
    ensures NameErrs(s, h, fileList) == []
  {
    assert s.str[|s.str| - 2..] == ".c";
    assert h.str[|h.str| - 2..] == ".h";
  }

  /** Once a stem has been recorded, a second description with the same
      source name is reported as a file that already exists. */
  lemma SecondUseReported(s: CellInfo, h: CellInfo, s2: CellInfo, h2: CellInfo, fileList: seq<string>)
    requires s2.str == s.str
    ensures CellErr(FileExist, s2.row, s2.col) in NameErrs(s2, h2, Recorded(s, fileList))
  {
  }

  // ---------------------------------------------------------- read_prgm_info

  /** One table entry: the keyword and its two classes, read from `row`
      and the row below. */
  datatype PragEntry = PragEntry(keyword: string, c1: PragInfo, c2: PragInfo)

  function EntryAt(data: Grid, row: nat, col: nat): (e: PragEntry)
    ensures e.c2.preCode == e.c1.preCode && e.c2.endCode == e.c1.endCode
  {
    EntryOf(RowOr(data, row), RowOr(data, row + 1), col)
  }

  /** The entry whose first row has the texts `top` and second row `bottom`:
      the keyword, then the eight texts of the first class and six of the
      second, which shares the first one's opening and closing code. */
  function EntryOf(top: seq<string>, bottom: seq<string>, col: nat): PragEntry
  {
    var c1 := PragInfo(At(top, col + 1), At(top, col + 2), At(top, col + 3), At(top, col + 4),
      At(top, col + 5), At(top, col + 6), At(top, col + 7), At(top, col + 8));
    var c2 := PragInfo(c1.preCode, At(bottom, col + 2), At(bottom, col + 3), At(bottom, col + 4),
      At(bottom, col + 5), At(bottom, col + 6), At(bottom, col + 7), c1.endCode);
    PragEntry(At(top, col), c1, c2)
  }

  /** The blank entry that ends the table. */
  predicate EndOfTable(e: PragEntry)
  {
    e.keyword == "" && e.c1.className == "" && e.c2.className == ""
  }

  /** The report for a required text that is empty. */
  function Req(text: string, row: nat, col: nat): (r: seq<CellErr>)
    ensures r == [] <==> text != ""
    ensures forall i | 0 <= i < |r| :: r[i] == CellErr(PrgmEmpty, row, col)
  {
    if text == "" then [CellErr(PrgmEmpty, row, col)] else []
  }

  /** No report is to the right of column `lim`. */
  predicate WithinCols(errs: seq<CellErr>, lim: nat)
  {
    forall i | 0 <= i < |errs| :: errs[i].col <= lim
  }

  /** The empty required texts of one class, reported on its row. The
      texts are read from columns `col + 2`, `+ 3`, `+ 4`, `+ 6` and `+ 7`,
      but an empty one is reported one column to the left of where it is
      read: at `col + 1`, `+ 2`, `+ 3`, `+ 5` and `+ 6`. */
  function ClassErrs(c: PragInfo, row: nat, col: nat): (r: seq<CellErr>)
    ensures WithinCols(r, col + 6)
  {
    Req(c.className, row, col + 1) + Req(c.setIString, row, col + 2) + Req(c.setUString, row, col + 3)
    + Req(c.endIString, row, col + 5) + Req(c.endUString, row, col + 6)
  }

  function KeywordErrs(keyword: string, d: map<string, PragmaPair>, row: nat, col: nat): (r: seq<CellErr>)
    ensures WithinCols(r, col)
  {
    if keyword == "" then [CellErr(PrgmEmpty, row, col)]
    else if keyword in d then [CellErr(PrgmKey, row, col)]
    else []
  }

  /** The errors of one entry, in the order they are logged. */
  function EntryErrs(e: PragEntry, d: map<string, PragmaPair>, row: nat, col: nat): seq<CellErr>
  {
    KeywordErrs(e.keyword, d, row, col) + ClassErrs(e.c1, row, col) + ClassErrs(e.c2, row + 1, col)
  }

  /** A class with every text the directives need. */
  predicate Complete(c: PragInfo)
  {
    c.className != "" && c.setIString != "" && c.setUString != "" && c.endIString != "" && c.endUString != ""
  }

  lemma ClassErrsEmpty(c: PragInfo, row: nat, col: nat)
    ensures ClassErrs(c, row, col) == [] <==> Complete(c)
  {
  }

  /** The log of a class's reports is the logs of its five required texts,
      one after the other. */
  lemma ClassLog(sheet: string, pre: seq<string>, n: nat, c: PragInfo, row: nat, col: nat)
    requires col <= MaxCols + 1
    ensures Addressable(ClassErrs(c, row, col))
    ensures var r1, r2, r3, r4, r5 := Req(c.className, row, col + 1), Req(c.setIString, row, col + 2),
        Req(c.setUString, row, col + 3), Req(c.endIString, row, col + 5), Req(c.endUString, row, col + 6);
      && pre + ErrLines(sheet, ClassErrs(c, row, col))
        == pre + ErrLines(sheet, r1) + ErrLines(sheet, r2) + ErrLines(sheet, r3) + ErrLines(sheet, r4) + ErrLines(sheet, r5)
      && Widest(sheet, n, ClassErrs(c, row, col))
        == Widest(sheet, Widest(sheet, Widest(sheet, Widest(sheet, Widest(sheet, n, r1), r2), r3), r4), r5)
  {
    var r1, r2, r3, r4, r5 := Req(c.className, row, col + 1), Req(c.setIString, row, col + 2),
      Req(c.setUString, row, col + 3), Req(c.endIString, row, col + 5), Req(c.endUString, row, col + 6);
    ErrLinesAppend(sheet, r1, r2);
    ErrLinesAppend(sheet, r1 + r2, r3);
    ErrLinesAppend(sheet, r1 + r2 + r3, r4);
    ErrLinesAppend(sheet, r1 + r2 + r3 + r4, r5);
    WidestAppend(sheet, n, r1, r2);
    WidestAppend(sheet, n, r1 + r2, r3);
    WidestAppend(sheet, n, r1 + r2 + r3, r4);
    WidestAppend(sheet, n, r1 + r2 + r3 + r4, r5);
    var l1, l2, l3, l4, l5 := ErrLines(sheet, r1), ErrLines(sheet, r2), ErrLines(sheet, r3), ErrLines(sheet, r4), ErrLines(sheet, r5);
    Assoc(pre, l1 + l2 + l3 + l4, l5);
    Assoc(pre, l1 + l2 + l3, l4);
    Assoc(pre, l1 + l2, l3);
    Assoc(pre, l1, l2);
  }

  /** Logging four groups of errors one after the other is logging them
      together, and together they are empty exactly when each is. */
  lemma LogFour(sheet: string, pre: seq<string>, n: nat, f1: seq<CellErr>, f2: seq<CellErr>, f3: seq<CellErr>, f4: seq<CellErr>)
    requires Addressable(f1) && Addressable(f2) && Addressable(f3) && Addressable(f4)
    ensures Addressable(f1 + f2 + f3 + f4)
    ensures f1 + f2 + f3 + f4 == [] <==> f1 == [] && f2 == [] && f3 == [] && f4 == []
    ensures pre + ErrLines(sheet, f1 + f2 + f3 + f4)
      == pre + ErrLines(sheet, f1) + ErrLines(sheet, f2) + ErrLines(sheet, f3) + ErrLines(sheet, f4)
    ensures Widest(sheet, n, f1 + f2 + f3 + f4)
      == Widest(sheet, Widest(sheet, Widest(sheet, Widest(sheet, n, f1), f2), f3), f4)
  {
    ErrLinesAppend(sheet, f1, f2);
    ErrLinesAppend(sheet, f1 + f2, f3);
    ErrLinesAppend(sheet, f1 + f2 + f3, f4);
    WidestAppend(sheet, n, f1, f2);
    WidestAppend(sheet, n, f1 + f2, f3);
    WidestAppend(sheet, n, f1 + f2 + f3, f4);
    var l1, l2, l3, l4 := ErrLines(sheet, f1), ErrLines(sheet, f2), ErrLines(sheet, f3), ErrLines(sheet, f4);
    Assoc(pre, l1 + l2 + l3, l4);
    Assoc(pre, l1 + l2, l3);
    Assoc(pre, l1, l2);
  }

  /** The log of an entry's reports is the log of its keyword, then of its
      first class, then of its second. */
  lemma EntryLog(sheet: string, pre: seq<string>, n: nat, e: PragEntry, d: map<string, PragmaPair>, row: nat, col: nat)
    requires col <= MaxCols + 1
    ensures Addressable(EntryErrs(e, d, row, col))
    ensures var k, a, b := KeywordErrs(e.keyword, d, row, col), ClassErrs(e.c1, row, col), ClassErrs(e.c2, row + 1, col);
      && Addressable(k) && Addressable(a) && Addressable(b)
      && (EntryErrs(e, d, row, col) == [] <==> k == [] && a == [] && b == [])
      && pre + ErrLines(sheet, EntryErrs(e, d, row, col)) == pre + ErrLines(sheet, k) + ErrLines(sheet, a) + ErrLines(sheet, b)
      && Widest(sheet, n, EntryErrs(e, d, row, col)) == Widest(sheet, Widest(sheet, Widest(sheet, n, k), a), b)
  {
    var k, a, b := KeywordErrs(e.keyword, d, row, col), ClassErrs(e.c1, row, col), ClassErrs(e.c2, row + 1, col);
    ErrLinesAppend(sheet, k, a);
    ErrLinesAppend(sheet, k + a, b);
    WidestAppend(sheet, n, k, a);
    WidestAppend(sheet, n, k + a, b);
    Assoc(pre, ErrLines(sheet, k) + ErrLines(sheet, a), ErrLines(sheet, b));
    Assoc(pre, ErrLines(sheet, k), ErrLines(sheet, a));
  }

  lemma RightUnit<T>(a: seq<T>)
    ensures a + [] == a
  {
  }

  lemma LeftUnit<T>(a: seq<T>)
    ensures [] + a == a
  {
  }

  lemma Assoc<T>(a: seq<T>, b: seq<T>, c: seq<T>)
    ensures a + (b + c) == a + b + c
  {
  }

  /** The entries of the table from `row` on, two rows each, up to the
      blank entry or the end of the sheet. */
  function Entries(data: Grid, row: nat, col: nat): seq<PragEntry>
    decreases |data| - row
  {
    if row >= |data| then []
    else
      var e := EntryAt(data, row, col);
      if EndOfTable(e) then [] else [e] + Entries(data, row + 2, col)
  }

  /** The keyword table and the errors of the entries `es`, the first of
      them on `row`. */
  function PrgmScan(es: seq<PragEntry>, row: nat, col: nat, d: map<string, PragmaPair>): (map<string, PragmaPair>, seq<CellErr>)
    decreases |es|
  {
    if es == [] then (d, [])
    else
      var errs := EntryErrs(es[0], d, row, col);
      var d' := if errs == [] then d[es[0].keyword := PragmaPair(es[0].c1, es[0].c2)] else d;
      var rest := PrgmScan(es[1..], row + 2, col, d');
      (rest.0, errs + rest.1)
  }

  /** One entry of the table read from the sheet: its errors come first,
      then those of the entries after it. */
  lemma ScanStep(data: Grid, row: nat, col: nat, d: map<string, PragmaPair>)
    requires row < |data| && !EndOfTable(EntryAt(data, row, col))
    ensures var e := EntryAt(data, row, col);
      var errs := EntryErrs(e, d, row, col);
      var d' := if errs == [] then d[e.keyword := PragmaPair(e.c1, e.c2)] else d;
      var rest := PrgmScan(Entries(data, row + 2, col), row + 2, col, d');
      PrgmScan(Entries(data, row, col), row, col, d) == (rest.0, errs + rest.1)
  {
    var e := EntryAt(data, row, col);
    assert Entries(data, row, col) == [e] + Entries(data, row + 2, col);
    assert ([e] + Entries(data, row + 2, col))[1..] == Entries(data, row + 2, col);
  }

  /** Logging `errs` and then `es` is logging `errs + es`. */
  lemma LogAppend(sheet: string, pre: seq<string>, n: nat, errs: seq<CellErr>, es: seq<CellErr>, tail: seq<CellErr>)
    requires Addressable(errs) && Addressable(es)
    ensures Addressable(errs + es)
    ensures errs + (es + tail) == errs + es + tail
    ensures pre + ErrLines(sheet, errs) + ErrLines(sheet, es) == pre + ErrLines(sheet, errs + es)
    ensures Widest(sheet, Widest(sheet, n, errs), es) == Widest(sheet, n, errs + es)
  {
    Assoc(errs, es, tail);
    ErrLinesAppend(sheet, errs, es);
    Assoc(pre, ErrLines(sheet, errs), ErrLines(sheet, es));
    WidestAppend(sheet, n, errs, es);
  }

  /** Below the sheet or at the blank entry the scan reports nothing. */
  lemma ScanEnd(data: Grid, row: nat, col: nat, d: map<string, PragmaPair>)
    requires row >= |data| || EndOfTable(EntryAt(data, row, col))
    ensures PrgmScan(Entries(data, row, col), row, col, d) == (d, [])
  {
  }

  /** `d'` keeps every keyword of `d` with its classes, and every keyword
      it adds is non-empty with two complete classes. */
  ghost predicate Grows(d: map<string, PragmaPair>, d': map<string, PragmaPair>)
  {
    && (forall k | k in d :: k in d' && d'[k] == d[k])
    && (forall k | k in d' && k !in d :: k != "" && Complete(d'[k].class1) && Complete(d'[k].class2))
  }

  lemma GrowsTrans(d1: map<string, PragmaPair>, d2: map<string, PragmaPair>, d3: map<string, PragmaPair>)
    requires Grows(d1, d2) && Grows(d2, d3)
    ensures Grows(d1, d3)
  {
  }

  /** Registered keywords are never replaced, and every keyword the scan
      adds is non-empty with two complete classes. */
  lemma {:induction false} PrgmScanKeeps(es: seq<PragEntry>, row: nat, col: nat, d: map<string, PragmaPair>)
    ensures Grows(d, PrgmScan(es, row, col, d).0)
    decreases |es|
  {
    if es != [] {
      var e := es[0];
      var d' := if EntryErrs(e, d, row, col) == [] then d[e.keyword := PragmaPair(e.c1, e.c2)] else d;
      EntryGrows(e, d, row, col);
      PrgmScanKeeps(es[1..], row + 2, col, d');
      GrowsTrans(d, d', PrgmScan(es, row, col, d).0);
    }
  }

  /** One entry: the table grows by its keyword exactly when it has no error. */
  lemma EntryGrows(e: PragEntry, d: map<string, PragmaPair>, row: nat, col: nat)
    ensures Grows(d, if EntryErrs(e, d, row, col) == [] then d[e.keyword := PragmaPair(e.c1, e.c2)] else d)
  {
    if EntryErrs(e, d, row, col) == [] {
      EntryAccepted(e, d, row, col);
    }
  }

  /** An entry without errors has a new, non-empty keyword and two
      complete classes. */
  lemma EntryAccepted(e: PragEntry, d: map<string, PragmaPair>, row: nat, col: nat)
    requires EntryErrs(e, d, row, col) == []
    ensures e.keyword != "" && e.keyword !in d && Complete(e.c1) && Complete(e.c2)
  {
    ClassErrsEmpty(e.c1, row, col);
    ClassErrsEmpty(e.c2, row + 1, col);
  }

  /** An entry whose keyword is already registered is reported and does not
      replace the registered classes. */
  lemma DuplicateKeywordReported(es: seq<PragEntry>, row: nat, col: nat, d: map<string, PragmaPair>)
    requires es != [] && es[0].keyword in d && es[0].keyword != ""
    ensures var r := PrgmScan(es, row, col, d);
      CellErr(PrgmKey, row, col) in r.1 && es[0].keyword in r.0 && r.0[es[0].keyword] == d[es[0].keyword]
  {
    var errs := EntryErrs(es[0], d, row, col);
    assert errs[0] == CellErr(PrgmKey, row, col);
    PrgmScanKeeps(es[1..], row + 2, col, d);
  }

  // --------------------------------------------------------- write_file_info

  /** The banner `write_file_info` writes for `info` = file, brief, author,
      date, remarks, version and history. */
  function Banner(info: seq<string>): seq<string>
    requires |info| == 7
  {
    BannerHead(info)
    + (if info[4] != "" then ["\t@remarks\t:\t" + info[4]] else [])
    + (if info[5] != "" then ["\t@version\t:\t" + info[5]] else [])
    + (if info[6] != "" then ["\t@par History"] else [])
    + [info[6]] + ["*/"] + [InterAnnotation[1]] + [""]
  }

  /** The eight lines every banner opens with. */
  function BannerHead(info: seq<string>): seq<string>
    requires |info| == 7
  {
    [StartAnnotation[1]] + ["\t\tOriganization"] + [EndAnnotation[1]] + ["/**"]
    + ["\t@file\t\t:\t" + info[0]] + ["\t@brief\t\t:\t" + info[1]] + ["\t@author\t\t:\t" + info[2]] + ["\t@date\t\t:\t" + info[3]]
  }

  /** The banner has the eight fixed lines, one line per non-empty remark,
      version and history, and the history text with the closing lines;
      the remarks line is there exactly when the remarks are not empty. */
  lemma BannerShape(info: seq<string>)
    requires |info| == 7
    ensures var r := Banner(info);
      && |r| == 12 + (if info[4] != "" then 1 else 0) + (if info[5] != "" then 1 else 0) + (if info[6] != "" then 1 else 0)
      && r[..8] == BannerHead(info)
      && r[|r| - 4..] == [info[6], "*/", InterAnnotation[1], ""]
      && (r[8] == "\t@remarks\t:\t" + info[4] <==> info[4] != "")
  {
    var r := Banner(info);
    var mid := BannerHead(info)
      + (if info[4] != "" then ["\t@remarks\t:\t" + info[4]] else [])
      + (if info[5] != "" then ["\t@version\t:\t" + info[5]] else [])
      + (if info[6] != "" then ["\t@par History"] else []);
    var tail := [info[6], "*/", InterAnnotation[1], ""];
    assert r == mid + tail;
    assert |BannerHead(info)| == 8;
    assert mid[..8] == BannerHead(info);
    assert r[8] == if info[4] != "" then "\t@remarks\t:\t" + info[4]
      else if info[5] != "" then "\t@version\t:\t" + info[5]
      else if info[6] != "" then "\t@par History"
      else info[6];
  }

  /** The seven texts of one file's description, in banner order. */
  function InfoOf(d: map<Key, CellInfo>, src: bool): (r: seq<string>)
    requires forall f: Field :: Key(src, f) in d
    ensures |r| == 7
  {
    [d[Key(src, File)].str, d[Key(src, Brif)].str, d[Key(src, Auth)].str, d[Key(src, Date)].str,
      d[Key(src, Rema)].str, d[Key(src, Vers)].str, d[Key(src, Hist)].str]
  }

  /** The pieces of an include list, stripped and joined one per line. */
  method JoinStripped(parts: seq<string>) returns (r: string)
    ensures r == Join(StripAll(parts), "\r\n")
  {
    r := "";
    var i := 0;
    while i < |parts|
      invariant Joined(parts, i, r)
    {
      var part := Strip(parts[i]);
      JoinStep(parts, i, r);
      r := r + part;
      if i < |parts| - 1 {
        r := r + "\r\n";
      }
      i := i + 1;
    }
    assert parts[..i] == parts;
  }

  /** `r` is what the loop of `JoinStripped` has built from the first `i`
      pieces: their stripped texts joined, and a separator when more follow. */
  ghost predicate Joined(parts: seq<string>, i: nat, r: string)
  {
    && i <= |parts|
    && (i == 0 ==> r == "")
    && (0 < i ==> r == Join(StripAll(parts[..i]), "\r\n") + (if i < |parts| then "\r\n" else ""))
  }

  lemma JoinStep(parts: seq<string>, i: nat, r: string)
    requires i < |parts| && Joined(parts, i, r)
    ensures Joined(parts, i + 1, r + Strip(parts[i]) + (if i < |parts| - 1 then "\r\n" else ""))
  {
    JoinSnoc(StripAll(parts[..i]), Strip(parts[i]), "\r\n");
    assert StripAll(parts[..i + 1]) == StripAll(parts[..i]) + [Strip(parts[i])];
    if 0 < i {
      Assoc(Join(StripAll(parts[..i]), "\r\n"), "\r\n", Strip(parts[i]));
    } else {
      LeftUnit(Strip(parts[i]));
    }
    if i == |parts| - 1 {
      RightUnit(r + Strip(parts[i]));
    }
  }

  lemma {:induction false} JoinSnoc(xs: seq<string>, x: string, sep: string)
    ensures |xs| == 0 ==> Join(xs + [x], sep) == x
    ensures |xs| > 0 ==> Join(xs + [x], sep) == Join(xs, sep) + sep + x
    decreases |xs|
  {
    if |xs| == 1 {
      assert (xs + [x])[1..] == [x];
    } else if |xs| > 1 {
      assert (xs + [x])[1..] == xs[1..] + [x];
      JoinSnoc(xs[1..], x, sep);
    }
  }

  // ------------------------------------------------------------- FileInfo

  class FileInfo {
    var srcList: seq<string>
    var hdrList: seq<string>
    /** The pragma-section keywords and their two classes. */
    var dPragma: map<string, PragmaPair>
    var dFileInfo: map<Key, CellInfo>
    var filePathRead: Pos
    var srcInfoRead: Pos
    var hdrInfoRead: Pos
    var prgmInfoRead: Pos
    var mkFilePath: string
    const shtName: string
    const shtData: Grid
    const log: ErrorLog

    /** `FileInfo.__init__` with the empty `d_file_info` the generator passes. */
    constructor (shtName: string, shtData: Grid, log: ErrorLog)
      ensures this.shtName == shtName && this.shtData == shtData && this.log == log
      ensures srcList == [] && hdrList == [] && dPragma == map[] && dFileInfo == map[]
      ensures Positions() == Marks(Unset, Unset, Unset, Unset) && mkFilePath == ""
    {
      this.shtName := shtName;
      this.shtData := shtData;
      this.log := log;
      srcList := [];
      hdrList := [];
      dPragma := map[];
      dFileInfo := map[];
      filePathRead := Unset;
      srcInfoRead := Unset;
      hdrInfoRead := Unset;
      prgmInfoRead := Unset;
      mkFilePath := "";
    }

    function Positions(): Marks
      reads this
    {
      Marks(filePathRead, srcInfoRead, hdrInfoRead, prgmInfoRead)
    }

    /** The positions are within Excel's width, so every report has a cell name. */
    predicate Placed()
      reads this
    {
      Sized(shtData) && filePathRead.col <= MaxCols + 1 && srcInfoRead.col <= MaxCols + 1
      && hdrInfoRead.col <= MaxCols + 1 && prgmInfoRead.col <= MaxCols + 1
    }

    /** `Read`: the whole sheet, reporting whether anything was wrong. */
    method Read() returns (err: bool)
      requires Placed()
      modifies this`filePathRead, this`srcInfoRead, this`hdrInfoRead, this`prgmInfoRead, this`mkFilePath
      modifies this`dFileInfo, this`dPragma, log`errList, log`errNameSize, log`fileList
      ensures Positions() == MarkRows(shtData, 1, old(Positions()))
      ensures mkFilePath == FilePath(shtData, filePathRead, old(mkFilePath))
      ensures SrcHdrRead(old(dFileInfo), srcInfoRead, hdrInfoRead, shtData, old(log.fileList), dFileInfo, err)
      ensures var scan := PrgmScan(Entries(shtData, prgmInfoRead.row, prgmInfoRead.col), prgmInfoRead.row, prgmInfoRead.col, old(dPragma));
        dPragma == (if Found(prgmInfoRead) then scan.0 else old(dPragma))
      ensures var b := Blocks(old(dFileInfo), srcInfoRead, hdrInfoRead);
        var scan := PrgmScan(Entries(shtData, prgmInfoRead.row, prgmInfoRead.col), prgmInfoRead.row, prgmInfoRead.col, old(dPragma));
        if Found(srcInfoRead) && Found(hdrInfoRead) then
          var d := Filled(shtData, b);
          var s := d[Key(true, File)];
          var errs := NameErrs(s, d[Key(false, File)], old(log.fileList));
          && Addressable(errs)
          && log.fileList == Recorded(s, old(log.fileList))
          && PrgmLogged(shtName, scan.1, Found(prgmInfoRead), old(log.errList) + ErrLines(shtName, errs),
               Widest(shtName, old(log.errNameSize), errs), log.errList, log.errNameSize)
        else
          && log.fileList == old(log.fileList)
          && PrgmLogged(shtName, scan.1, Found(prgmInfoRead), old(log.errList) + MissingLines(srcInfoRead, hdrInfoRead),
               old(log.errNameSize), log.errList, log.errNameSize)
    {
      ChkPosition();
      mkFilePath := FilePath(shtData, filePathRead, mkFilePath);
      err := ReadTables();
    }

    /** The two tables `read` reads after the titles have been placed. */
    method ReadTables() returns (err: bool)
      requires Placed()
      modifies this`dFileInfo, this`dPragma, log`errList, log`errNameSize, log`fileList
      ensures SrcHdrRead(old(dFileInfo), srcInfoRead, hdrInfoRead, shtData, old(log.fileList), dFileInfo, err)
      ensures var scan := PrgmScan(Entries(shtData, prgmInfoRead.row, prgmInfoRead.col), prgmInfoRead.row, prgmInfoRead.col, old(dPragma));
        dPragma == (if Found(prgmInfoRead) then scan.0 else old(dPragma))
      ensures var b := Blocks(old(dFileInfo), srcInfoRead, hdrInfoRead);
        var scan := PrgmScan(Entries(shtData, prgmInfoRead.row, prgmInfoRead.col), prgmInfoRead.row, prgmInfoRead.col, old(dPragma));
        if Found(srcInfoRead) && Found(hdrInfoRead) then
          var d := Filled(shtData, b);
          var s := d[Key(true, File)];
          var errs := NameErrs(s, d[Key(false, File)], old(log.fileList));
          && Addressable(errs)
          && log.fileList == Recorded(s, old(log.fileList))
          && PrgmLogged(shtName, scan.1, Found(prgmInfoRead), old(log.errList) + ErrLines(shtName, errs),
               Widest(shtName, old(log.errNameSize), errs), log.errList, log.errNameSize)
        else
          && log.fileList == old(log.fileList)
          && PrgmLogged(shtName, scan.1, Found(prgmInfoRead), old(log.errList) + MissingLines(srcInfoRead, hdrInfoRead),
               old(log.errNameSize), log.errList, log.errNameSize)
    {
      var srcHdrErr := ReadSrcHdrInfo();
      var prgmErr := ReadPrgmInfo();
      err := srcHdrErr || prgmErr;
    }

    /** `chk_position`: every title cell moves its mark, row by row. */
    method ChkPosition()
      requires Placed()
      modifies this`filePathRead, this`srcInfoRead, this`hdrInfoRead, this`prgmInfoRead
      ensures Positions() == MarkRows(shtData, 1, old(Positions()))
      ensures Placed()
    {
      var row := 1;
      while row < |shtData|
        invariant 1 <= row
        invariant MarkRows(shtData, 1, old(Positions())) == MarkRows(shtData, row, Positions())
        decreases |shtData| - row
      {
        ChkRow(row);
        row := row + 1;
      }
      MarkRowsSized(shtData, 1, old(Positions()), FilePathT);
      MarkRowsSized(shtData, 1, old(Positions()), SrcInfoT);
      MarkRowsSized(shtData, 1, old(Positions()), HdrInfoT);
      MarkRowsSized(shtData, 1, old(Positions()), PrgmInfoT);
    }

    method ChkRow(row: nat)
      requires row < |shtData|
      modifies this`filePathRead, this`srcInfoRead, this`hdrInfoRead, this`prgmInfoRead
      ensures Positions() == MarkRow(RowText(shtData, row), row, 1, old(Positions()))
    {
      var col := 1;
      RowTextCell(shtData, row, col);
      while col < |shtData[row]|
        invariant 1 <= col
        invariant MarkRow(RowText(shtData, row), row, 1, old(Positions())) == MarkRow(RowText(shtData, row), row, col, Positions())
        decreases |shtData[row]| - col
      {
        var cell := ReadCell(shtData, row, col);
        RowTextCell(shtData, row, col);
        MarkAt(cell, row, col);
        if cell == XlsInfoTitle {
          return;
        }
        col := col + 1;
      }
    }

    method MarkAt(cell: string, row: nat, col: nat)
      modifies this`filePathRead, this`srcInfoRead, this`hdrInfoRead, this`prgmInfoRead
      ensures Positions() == MarkCell(old(Positions()), cell, row, col)
    {
      if cell == FilePathTitle {
        filePathRead := Pos(row, col + 1);
      }
      if cell == SrcInfoTitle {
        srcInfoRead := Pos(row + 1, col + 1);
      }
      if cell == HdrInfoTitle {
        hdrInfoRead := Pos(row + 1, col + 1);
      }
      if cell == PrgmInfoTitle {
        prgmInfoRead := Pos(row + 3, col);
      }
    }

    /** `read_src_hdr_info`: enter the description cells of both files,
        read their texts and check the two file names; a missing title is
        reported and stops the reading. */
    method ReadSrcHdrInfo() returns (err: bool)
      requires Placed()
      modifies this`dFileInfo, log`errList, log`errNameSize, log`fileList
      ensures SrcHdrRead(old(dFileInfo), srcInfoRead, hdrInfoRead, shtData, old(log.fileList), dFileInfo, err)
      ensures var b := Blocks(old(dFileInfo), srcInfoRead, hdrInfoRead);
        if Found(srcInfoRead) && Found(hdrInfoRead) then
          var d := Filled(shtData, b);
          var s := d[Key(true, File)];
          var errs := NameErrs(s, d[Key(false, File)], old(log.fileList));
          && Addressable(errs)
          && log.errList == old(log.errList) + ErrLines(shtName, errs)
          && log.errNameSize == Widest(shtName, old(log.errNameSize), errs)
          && log.fileList == Recorded(s, old(log.fileList))
        else
          && log.errList == old(log.errList) + MissingLines(srcInfoRead, hdrInfoRead)
          && log.errNameSize == old(log.errNameSize) && log.fileList == old(log.fileList)
    {
      var errCnt := 0;
      if Found(srcInfoRead) {
        dFileInfo := dFileInfo + Block(true, srcInfoRead);
      } else {
        errCnt := errCnt + 1;
        log.WriteErrMsg(Missing(SrcInfoTitle));
      }
      if Found(hdrInfoRead) {
        dFileInfo := dFileInfo + Block(false, hdrInfoRead);
      } else {
        errCnt := errCnt + 1;
        log.WriteErrMsg(Missing(HdrInfoTitle));
      }
      if errCnt > 0 {
        return true;
      }
      ReadValues();
      err := CheckFileNames(dFileInfo[Key(true, File)], dFileInfo[Key(false, File)]);
    }

    /** The loop over `dFileInfo`: each entry gets the text of its cells. */
    method ReadValues()
      modifies this`dFileInfo
      ensures dFileInfo == Filled(shtData, old(dFileInfo))
    {
      var todo := dFileInfo.Keys;
      while todo != {}
        invariant todo <= dFileInfo.Keys && dFileInfo.Keys == old(dFileInfo).Keys
        invariant forall k | k in dFileInfo ::
          dFileInfo[k] == if k in todo then old(dFileInfo)[k] else old(dFileInfo)[k].(str := FieldValue(shtData, k, old(dFileInfo)[k]))
        decreases todo
      {
        var k :| k in todo;
        var s := ReadField(k, dFileInfo[k]);
        dFileInfo := dFileInfo[k := dFileInfo[k].(str := s)];
        todo := todo - {k};
      }
    }

    /** The text of one entry. */
    method ReadField(k: Key, c: CellInfo) returns (s: string)
      ensures s == FieldValue(shtData, k, c)
    {
      s := ReadRaw(k, c);
      ghost var raw := s;
      if EndsWith(s, "\n") {
        s := s[..|s| - 1];
      }
      assert s == DropNewline(raw);
      s := Replace(s, "\n", "\r\n");
      if k.field == Incl {
        s := ReadInclude(s);
      }
    }

    method ReadRaw(k: Key, c: CellInfo) returns (s: string)
      ensures s == RawField(shtData, k, c)
    {
      if k.field == Hist {
        s := ReadHistory(c.row, c.col);
        assert s == RawField(shtData, k, c);
      } else {
        s := ReadCell(shtData, c.row, c.col);
        assert s == RawField(shtData, k, c);
      }
    }

    /** The include entry once its line breaks are CR LF. */
    method ReadInclude(s0: string) returns (s: string)
      ensures s == IncludeText(s0)
    {
      s := s0;
      if ',' in s {
        s := JoinStripped(Split(s, ","));
      }
      if '"' in s {
        s := Replace(s, "\"", "");
      }
    }

    /** The history loop: one entry per column until a column holds neither
        a date nor a description. */
    method ReadHistory(row: nat, col: nat) returns (s: string)
      ensures s == HistoryText(RowOr(shtData, row), RowOr(shtData, row + 1), col)
    {
      ghost var dates, descs := RowOr(shtData, row), RowOr(shtData, row + 1);
      s := "";
      var c := col;
      LeftUnit(HistoryText(dates, descs, col));
      while true
        invariant s + HistoryText(dates, descs, c) == HistoryText(dates, descs, col)
        decreases |dates| + |descs| - c
      {
        HistoryNext(s, dates, descs, c, col);
        var done;
        s, done := HistoryColumn(row, c, s, dates, descs);
        if done {
          break;
        }
        c := c + 1;
      }
    }

    /** One column of the history loop: `done` when it holds neither a date
        nor a description, its entry appended to `s` otherwise. */
    method HistoryColumn(row: nat, c: nat, s0: string, ghost dates: seq<string>, ghost descs: seq<string>) returns (s: string, done: bool)
      requires dates == RowOr(shtData, row) && descs == RowOr(shtData, row + 1)
      ensures done <==> At(dates, c) == "" && At(descs, c) == ""
      ensures s == if done then s0 else s0 + HistEntry(At(dates, c), At(descs, c))
    {
      var date := Cell(row, c);
      var desc := Cell(row + 1, c);
      if date == "" && desc == "" {
        return s0, true;
      }
      s := s0 + "\n";
      s := s + ("\t\t-#" + date + "\n");
      desc := Replace(desc, "\n", "\n\t\t\t");
      s := s + ("\t\t\t" + desc + "\n");
      HistStep(s0, date, desc);
      done := false;
    }

    /** `Info.ReadCell` on the sheet. */
    method Cell(row: nat, col: nat) returns (t: string)
      ensures t == At(RowOr(shtData, row), col) && t == ReadCell(shtData, row, col)
    {
      t := ReadCell(shtData, row, col);
      AtReadCell(shtData, row, col);
    }

    /** The checks on the two file names once both descriptions are read:
        `s` and `h` are the file-name cells of the source and the header. */
    method CheckFileNames(s: CellInfo, h: CellInfo) returns (err: bool)
      requires s.col < 1436032 && h.col < 1436032
      modifies log`errList, log`errNameSize, log`fileList
      ensures var errs := NameErrs(s, h, old(log.fileList));
        && Addressable(errs) && (err <==> errs != [])
        && log.errList == old(log.errList) + ErrLines(shtName, errs)
        && log.errNameSize == Widest(shtName, old(log.errNameSize), errs)
        && log.fileList == Recorded(s, old(log.fileList))
    {
      ghost var f1 := Flag(BadSource(s.str), CellErr(FileExtension, s.row, s.col));
      ghost var f2 := Flag(BadHeader(h.str), CellErr(FileExtension, h.row, h.col));
      ghost var f3 := Flag(Stem(s.str) != Stem(h.str), CellErr(FileName, s.row, s.col));
      ghost var f4 := Flag(Stem(s.str) in log.fileList, CellErr(FileExist, s.row, s.col));
      assert NameErrs(s, h, log.fileList) == f1 + f2 + f3 + f4;
      var e1 := Report(BadSource(s.str), CellErr(FileExtension, s.row, s.col));
      var e2 := Report(BadHeader(h.str), CellErr(FileExtension, h.row, h.col));
      var srcName := Stem(s.str);
      var hdrName := Stem(h.str);
      var e3 := Report(srcName != hdrName, CellErr(FileName, s.row, s.col));
      var known := srcName in log.fileList;
      var e4 := Report(known, CellErr(FileExist, s.row, s.col));
      if !known {
        log.fileList := log.fileList + [srcName];
      }
      LogFour(shtName, old(log.errList), old(log.errNameSize), f1, f2, f3, f4);
      err := e1 || e2 || e3 || e4;
    }

    /** One check: a failed one is reported at the cell of `e`. */
    method Report(bad: bool, e: CellErr) returns (reported: bool)
      requires e.col < 1436032
      modifies log`errList, log`errNameSize
      ensures (reported <==> bad) && Addressable(Flag(bad, e))
      ensures log.errList == old(log.errList) + ErrLines(shtName, Flag(bad, e))
      ensures log.errNameSize == Widest(shtName, old(log.errNameSize), Flag(bad, e))
    {
      reported := bad;
      if bad {
        LogStep(shtName, old(log.errNameSize), [], e);
        log.WriteErrCell(e.err, shtName, e.row, e.col);
      }
    }

    /** `read_prgm_info`: the keyword table under its title, two rows per
        keyword, up to the first blank entry; never reports failure. */
    method ReadPrgmInfo() returns (err: bool)
      requires Placed()
      modifies this`dPragma, log`errList, log`errNameSize
      ensures !err
      ensures var scan := PrgmScan(Entries(shtData, prgmInfoRead.row, prgmInfoRead.col), prgmInfoRead.row, prgmInfoRead.col, old(dPragma));
        if Found(prgmInfoRead) then
          && Addressable(scan.1)
          && dPragma == scan.0
          && log.errList == old(log.errList) + ErrLines(shtName, scan.1)
          && log.errNameSize == Widest(shtName, old(log.errNameSize), scan.1)
        else dPragma == old(dPragma) && log.errList == old(log.errList) && log.errNameSize == old(log.errNameSize)
    {
      err := false;
      if Found(prgmInfoRead) {
        ScanTable(prgmInfoRead.row, prgmInfoRead.col);
      }
    }

    /** The loop of `read_prgm_info` from the table's first row. */
    method ScanTable(top: nat, col: nat)
      requires col <= MaxCols + 1
      modifies this`dPragma, log`errList, log`errNameSize
      ensures var scan := PrgmScan(Entries(shtData, top, col), top, col, old(dPragma));
        && Addressable(scan.1)
        && dPragma == scan.0
        && log.errList == old(log.errList) + ErrLines(shtName, scan.1)
        && log.errNameSize == Widest(shtName, old(log.errNameSize), scan.1)
    {
      var row := top;
      ghost var errs: seq<CellErr> := [];
      LeftUnit(PrgmScan(Entries(shtData, row, col), row, col, dPragma).1);
      while row < |shtData|
        invariant Addressable(errs)
        invariant var rest := PrgmScan(Entries(shtData, row, col), row, col, dPragma);
          PrgmScan(Entries(shtData, top, col), top, col, old(dPragma)) == (rest.0, errs + rest.1)
        invariant log.errList == old(log.errList) + ErrLines(shtName, errs)
        invariant log.errNameSize == Widest(shtName, old(log.errNameSize), errs)
        decreases |shtData| - row
      {
        var done;
        ghost var es;
        done, es := ScanEntry(row, col);
        if done {
          break;
        }
        LogAppend(shtName, old(log.errList), old(log.errNameSize), errs, es, PrgmScan(Entries(shtData, row + 2, col), row + 2, col, dPragma).1);
        errs := errs + es;
        row := row + 2;
      }
      if row >= |shtData| {
        ScanEnd(shtData, row, col, dPragma);
      }
      RightUnit(errs);
    }

    /** One pass of the loop: `done` at the blank entry, otherwise the
        entry on `row` is checked, its errors `es` logged and the rest of
        the scan continues two rows down. */
    method ScanEntry(row: nat, col: nat) returns (done: bool, ghost es: seq<CellErr>)
      requires row < |shtData| && col <= MaxCols + 1
      modifies this`dPragma, log`errList, log`errNameSize
      ensures var scan := PrgmScan(Entries(shtData, row, col), row, col, old(dPragma));
        if done then
          && scan == (old(dPragma), [])
          && dPragma == old(dPragma) && log.errList == old(log.errList) && log.errNameSize == old(log.errNameSize)
        else
          var rest := PrgmScan(Entries(shtData, row + 2, col), row + 2, col, dPragma);
          && Addressable(es)
          && scan == (rest.0, es + rest.1)
          && log.errList == old(log.errList) + ErrLines(shtName, es)
          && log.errNameSize == Widest(shtName, old(log.errNameSize), es)
    {
      var e := EntryAt(shtData, row, col);
      if EndOfTable(e) {
        ScanEnd(shtData, row, col, dPragma);
        return true, [];
      }
      es := EntryErrs(e, dPragma, row, col);
      ScanStep(shtData, row, col, dPragma);
      CheckEntry(e, row, col);
      done := false;
    }

    /** The checks of one entry, and its registration when it has none. */
    method CheckEntry(e: PragEntry, row: nat, col: nat)
      requires col <= MaxCols + 1
      modifies this`dPragma, log`errList, log`errNameSize
      ensures var es := EntryErrs(e, old(dPragma), row, col);
        && Addressable(es)
        && log.errList == old(log.errList) + ErrLines(shtName, es)
        && log.errNameSize == Widest(shtName, old(log.errNameSize), es)
        && dPragma == if es == [] then old(dPragma)[e.keyword := PragmaPair(e.c1, e.c2)] else old(dPragma)
    {
      var err0 := CheckKeyword(e.keyword, row, col);
      var err1 := CheckClass(e.c1, row, col);
      var err2 := CheckClass(e.c2, row + 1, col);
      EntryLog(shtName, old(log.errList), old(log.errNameSize), e, old(dPragma), row, col);
      assert dPragma == old(dPragma);
      assert (EntryErrs(e, dPragma, row, col) == []) == (!err0 && !err1 && !err2);
      assert !err0 ==> e.keyword != "" && e.keyword !in dPragma;
      if !err0 && !err1 && !err2 && e.keyword != "" && e.keyword !in dPragma {
        dPragma := dPragma[e.keyword := PragmaPair(e.c1, e.c2)];
      }
    }

    /** The keyword of an entry: an empty or already registered one is
        reported at (row, col). */
    method CheckKeyword(keyword: string, row: nat, col: nat) returns (err: bool)
      requires col <= MaxCols + 1
      modifies log`errList, log`errNameSize
      ensures var es := KeywordErrs(keyword, dPragma, row, col);
        && Addressable(es) && (err <==> es != [])
        && log.errList == old(log.errList) + ErrLines(shtName, es)
        && log.errNameSize == Widest(shtName, old(log.errNameSize), es)
    {
      err := false;
      if keyword == "" {
        LogStep(shtName, old(log.errNameSize), [], CellErr(PrgmEmpty, row, col));
        log.WriteErrCell(PrgmEmpty, shtName, row, col);
        err := true;
      } else if keyword in dPragma {
        LogStep(shtName, old(log.errNameSize), [], CellErr(PrgmKey, row, col));
        log.WriteErrCell(PrgmKey, shtName, row, col);
        err := true;
      }
    }

    /** The five required texts of one class. */
    method CheckClass(c: PragInfo, row: nat, col: nat) returns (err: bool)
      requires col <= MaxCols + 1
      modifies log`errList, log`errNameSize
      ensures var es := ClassErrs(c, row, col);
        && Addressable(es) && (err <==> es != [])
        && log.errList == old(log.errList) + ErrLines(shtName, es)
        && log.errNameSize == Widest(shtName, old(log.errNameSize), es)
    {
      var m1 := Require(c.className, row, col + 1);
      var m2 := Require(c.setIString, row, col + 2);
      var m3 := Require(c.setUString, row, col + 3);
      var m4 := Require(c.endIString, row, col + 5);
      var m5 := Require(c.endUString, row, col + 6);
      ClassLog(shtName, old(log.errList), old(log.errNameSize), c, row, col);
      err := m1 || m2 || m3 || m4 || m5;
    }

    /** One required text: an empty one is reported at (row, col). */
    method Require(text: string, row: nat, col: nat) returns (missing: bool)
      requires col < 1436032
      modifies log`errList, log`errNameSize
      ensures (missing <==> text == "") && Addressable(Req(text, row, col))
      ensures log.errList == old(log.errList) + ErrLines(shtName, Req(text, row, col))
      ensures log.errNameSize == Widest(shtName, old(log.errNameSize), Req(text, row, col))
    {
      missing := false;
      if text == "" {
        LogStep(shtName, old(log.errNameSize), [], CellErr(PrgmEmpty, row, col));
        log.WriteErrCell(PrgmEmpty, shtName, row, col);
        missing := true;
      }
    }

    /** `write_file_info`: the banner of the source file when `src`, of the
        header otherwise. */
    method WriteFileInfo(src: bool, info: seq<string>)
      requires |info| == 7
      modifies this`srcList, this`hdrList
      ensures src ==> srcList == Banner(info) && hdrList == old(hdrList)
      ensures !src ==> hdrList == Banner(info) && srcList == old(srcList)
    {
      var codeList: seq<string> := [];
      codeList := codeList + [StartAnnotation[1]];
      LeftUnit([StartAnnotation[1]]);
      codeList := codeList + ["\t\tOriganization"];
      codeList := codeList + [EndAnnotation[1]];
      codeList := codeList + ["/**"];
      codeList := codeList + ["\t@file\t\t:\t" + info[0]];
      codeList := codeList + ["\t@brief\t\t:\t" + info[1]];
      codeList := codeList + ["\t@author\t\t:\t" + info[2]];
      codeList := codeList + ["\t@date\t\t:\t" + info[3]];
      assert codeList == BannerHead(info);
      if info[4] != "" {
        codeList := codeList + ["\t@remarks\t:\t" + info[4]];
      }
      if info[5] != "" {
        codeList := codeList + ["\t@version\t:\t" + info[5]];
      }
      if info[6] != "" {
        codeList := codeList + ["\t@par History"];
      }
      codeList := codeList + [info[6]];
      codeList := codeList + ["*/"];
      codeList := codeList + [InterAnnotation[1]];
      codeList := codeList + [""];
      assert codeList == Banner(info);
      if src {
        srcList := codeList;
      } else {
        hdrList := codeList;
      }
    }

    /** `Write`: the banners of both files from the description texts. */
    method Write()
      requires forall f: Field :: Key(true, f) in dFileInfo && Key(false, f) in dFileInfo
      modifies this`srcList, this`hdrList
      ensures srcList == Banner(InfoOf(dFileInfo, true))
      ensures hdrList == Banner(InfoOf(dFileInfo, false))
    {
      WriteFileInfo(true, InfoOf(dFileInfo, true));
      WriteFileInfo(false, InfoOf(dFileInfo, false));
    }
  }
}
