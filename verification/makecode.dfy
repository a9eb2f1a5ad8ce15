/** `MakeCode` (code_generator/make_code.py): the assembly of the generated
    source and header files. The two output list widgets are the sequences
    `src` and `hdr`; the per-sheet `CalList` objects are read-only here and
    are given as `Sheet` values holding the fields `MakeCode` reads. */
module MakeCodes {
  import opened PyStr
  import opened Info
  import DbManager

  /** What `MakeCode` reads from one `CalList`: the sheet name, the main
      project definition, name and description with the position of the
      project row, and the per-title source and header code. */
  datatype Sheet = Sheet(
    name: string,
    prjtDef: string,
    prjtName: string,
    prjtDesc: string,
    prjtRow: nat,
    prjtCol: nat,
    src: map<string, seq<string>>,
    hdr: map<string, seq<string>>)

  // ---------------------------------------------------------------- header guard

  /** The character a header-file name character becomes in its guard. */
  function GuardChar(c: char): char
  {
    if c == '.' then '_' else UpperChar(c)
  }

  /** `s` with every `c` replaced by `d`, character by character. */
  function MapChar(s: string, c: char, d: char): (r: string)
    ensures |r| == |s|
    ensures forall i :: 0 <= i < |s| ==> r[i] == (if s[i] == c then d else s[i])
  {
    seq(|s|, i requires 0 <= i < |s| => if s[i] == c then d else s[i])
  }

  /** Replacing a one-character pattern by a one-character text maps the
      string character by character. */
  lemma {:induction false} ReplaceChar(s: string, c: char, d: char)
    ensures Replace(s, [c], [d]) == MapChar(s, c, d)
    decreases |s|
  {
    var k := Find(s, [c]);
    if k == |s| {
      NotContainedCharFree(s, c);
      assert MapChar(s, c, d) == s;
    } else {
      var rest := Split(s[k + 1..], [c]);
      assert Split(s, [c]) == [s[..k]] + rest;
      JoinCons(s[..k], rest, [d]);
      ReplaceChar(s[k + 1..], c, d);
      PrefixBeforeFind(s, [c]);
      NotContainedCharFree(s[..k], c);
      assert s[k..k + 1] == [c];
      MapCharAt(s, k, c, d);
    }
  }

  /** Mapping a string whose first `c` is at `k`: the prefix is kept, that
      `c` becomes `d`, and the rest is mapped. */
  lemma MapCharAt(s: string, k: nat, c: char, d: char)
    requires k < |s| && s[k] == c
    requires forall i | 0 <= i < k :: s[..k][i] != c
    ensures MapChar(s, c, d) == s[..k] + [d] + MapChar(s[k + 1..], c, d)
  {
    var m := MapChar(s, c, d);
    var n := s[..k] + [d] + MapChar(s[k + 1..], c, d);
    forall i | 0 <= i < |m| ensures m[i] == n[i] {
      if i < k {
        assert s[..k][i] == s[i];
      } else if i > k {
        assert s[i] == s[k + 1..][i - k - 1];
      }
    }
  }

  /** `get_hdr_upper_name`: `"_" + H_FILE.upper().replace(".", "_") + "_"`.
      The guard keeps the file name's length, character for character. */
  function HdrUpperName(hFile: string): (g: string)
    ensures |g| == |hFile| + 2 && g[0] == '_' && g[|g| - 1] == '_'
    ensures forall i :: 0 <= i < |hFile| ==> g[i + 1] == GuardChar(hFile[i])
  {
    ReplaceChar(Upper(hFile), '.', '_');
    GuardChars(hFile);
    "_" + Replace(Upper(hFile), ".", "_") + "_"
  }

  lemma GuardChars(hFile: string)
    ensures var m := "_" + MapChar(Upper(hFile), '.', '_') + "_";
      forall i :: 0 <= i < |hFile| ==> m[i + 1] == GuardChar(hFile[i])
  {
    var m := "_" + MapChar(Upper(hFile), '.', '_') + "_";
    forall i | 0 <= i < |hFile| ensures m[i + 1] == GuardChar(hFile[i]) {
      assert m[i + 1] == MapChar(Upper(hFile), '.', '_')[i];
    }
  }

  predicate IsIdentChar(c: char) { IsAsciiLetter(c) || IsAsciiDigit(c) || c == '_' }

  /** A header named with letters, digits, `_` and `.` gets a guard that is
      a C identifier (section 6.4.2.1 of ISO/IEC 9899:2011) with no `.` and
      no lower-case letter. */
  lemma GuardIsIdentifier(hFile: string)
    requires forall i :: 0 <= i < |hFile| ==> IsIdentChar(hFile[i]) || hFile[i] == '.'
    ensures var g := HdrUpperName(hFile);
      (forall i :: 0 <= i < |g| ==> IsIdentChar(g[i]) && g[i] != '.' && !('a' <= g[i] <= 'z'))
      && !IsAsciiDigit(g[0])
  {
    var g := HdrUpperName(hFile);
    forall i | 0 <= i < |g|
      ensures IsIdentChar(g[i]) && g[i] != '.' && !('a' <= g[i] <= 'z')
    {
      if 0 < i < |g| - 1 {
        assert g[i] == GuardChar(hFile[i - 1]);
      }
    }
  }

  // ---------------------------------------------------------------- titles

  /** The name a title shows: the second `+`-separated field when there is
      a `+`, else the whole title. */
  function ShownTitle(title: string): string
  {
    if '+' in title then
      CharContained(title, '+');
      SplitContains(title, "+");
      Split(title, "+")[1]
    else title
  }

  /** The lines `make_code_title(lb, title)` adds to a list holding `lb`. */
  function TitleLines(lb: seq<string>, title: string): seq<string>
  {
    if EndsWith(title, EndPrjtName) then []
    else
      (if |lb| > 0 && lb[|lb| - 1] == "" then [] else [""])
      + [StartAnnotation[1], "\t" + ShownTitle(title), EndAnnotation[1]]
  }

  /** A title ending in `END` adds nothing; any other adds its banner of
      three lines, separated from what precedes it by exactly the one blank
      line it adds when the list does not already end with one. */
  lemma TitleLinesShape(lb: seq<string>, title: string)
    ensures var r := TitleLines(lb, title);
      (r == [] <==> EndsWith(title, EndPrjtName)) &&
      (r != [] ==>
        (|r| == 3 || |r| == 4) &&
        r[|r| - 3..] == [StartAnnotation[1], "\t" + ShownTitle(title), EndAnnotation[1]] &&
        (r[0] == "" <==> |r| == 4) &&
        (|r| == 4 <==> (|lb| == 0 || lb[|lb| - 1] != "")) &&
        (lb + r)[|lb| + |r| - 4] == "")
  {
    var r := TitleLines(lb, title);
    if r != [] {
      assert StartAnnotation[1][0] == '/';
    }
  }

  /** A title `a+b` shows `b` when neither part holds a `+`. */
  lemma ShownTitleSecondField(a: string, b: string)
    requires '+' !in a && '+' !in b
    ensures ShownTitle(a + "+" + b) == b
  {
    assert a + "+" + b == a + ['+'] + b;
    SplitAtSeparator(a, b, '+');
  }

  /** A character of a string is contained in it as a one-character text. */
  lemma CharContained(s: string, c: char)
    requires c in s
    ensures Contains(s, [c])
  {
    var k :| 0 <= k < |s| && s[k] == c;
    assert s[k..k + 1] == [c];
    assert OccursAt(s, [c], k);
  }

  /** A string that contains the separator splits into at least two pieces. */
  lemma SplitContains(s: string, sep: string)
    requires |sep| > 0 && Contains(s, sep)
    ensures |Split(s, sep)| >= 2
  {
    var k := Find(s, sep);
    assert k < |s|;
  }

  // ---------------------------------------------------------------- project check

  function Names(sheets: seq<Sheet>): (r: seq<string>)
    ensures |r| == |sheets|
    ensures forall i :: 0 <= i < |sheets| ==> r[i] == sheets[i].prjtName
  {
    if |sheets| == 0 then [] else Names(sheets[..|sheets| - 1]) + [sheets[|sheets| - 1].prjtName]
  }

  /** One more sheet adds its project name at the end. */
  lemma NamesSnoc(sheets: seq<Sheet>, i: nat)
    requires i < |sheets|
    ensures Names(sheets[..i + 1]) == Names(sheets[..i]) + [sheets[i].prjtName]
  {
    assert sheets[..i + 1][..i] == sheets[..i];
  }

  /** `PrjtList` is out of order: `COMMON` occurs but not first, or
      `DEFAULT` occurs but not last. */
  predicate OrderFault(l: seq<string>)
  {
    (CommPrjtName in l && l[0] != CommPrjtName) || (ElsePrjtName in l && l[|l| - 1] != ElsePrjtName)
  }

  /** An error `WriteErrCell` is asked to record. */
  datatype Fault = Fault(sheet: string, err: ErrType, row: nat, col: int)

  predicate Addressed(fs: seq<Fault>)
  {
    forall i :: 0 <= i < |fs| ==> fs[i].col < 1436032
  }

  function FaultLines(fs: seq<Fault>): (r: seq<string>)
    requires Addressed(fs)
    ensures |r| == |fs|
  {
    if |fs| == 0 then []
    else
      var f := fs[|fs| - 1];
      FaultLines(fs[..|fs| - 1]) + ["  " + CellRef(f.sheet, f.row, f.col) + ErrText(f.err)]
  }

  function FaultWidth(n: nat, fs: seq<Fault>): (w: nat)
    requires Addressed(fs)
    ensures w >= n
  {
    if |fs| == 0 then n
    else
      var f := fs[|fs| - 1];
      var w0 := FaultWidth(n, fs[..|fs| - 1]);
      if Utf8Len(CellRef(f.sheet, f.row, f.col)) > w0 then Utf8Len(CellRef(f.sheet, f.row, f.col)) else w0
  }

  /** One more recorded error: one more line, the width as `WriteErrCell` sets it. */
  lemma FaultSnoc(fs: seq<Fault>, f: Fault, n: nat)
    requires Addressed(fs) && f.col < 1436032
    ensures Addressed(fs + [f])
    ensures FaultLines(fs + [f]) == FaultLines(fs) + ["  " + CellRef(f.sheet, f.row, f.col) + ErrText(f.err)]
    ensures FaultWidth(n, fs + [f]) == Max(FaultWidth(n, fs), Utf8Len(CellRef(f.sheet, f.row, f.col)))
  {
    assert (fs + [f])[..|fs|] == fs;
  }

  /** The log holds `l0` followed by one line per fault of `fs`, and the
      name width `WriteErrCell` reaches from `n` over them. */
  ghost predicate Logged(log: ErrorLog, l0: seq<string>, n: nat, fs: seq<Fault>)
    reads log
  {
    Addressed(fs) && log.errList == l0 + FaultLines(fs) && log.errNameSize == FaultWidth(n, fs)
  }

  predicate Columns(sheets: seq<Sheet>)
  {
    forall i :: 0 <= i < |sheets| ==> sheets[i].prjtCol + PrjtNameCol < 1436032
  }

  /** The error sheet `i`'s definition raises: empty in a multi-sheet run,
      or differing from the first sheet's. */
  function DefFault(sheets: seq<Sheet>, i: nat): (fs: seq<Fault>)
    requires i < |sheets|
    ensures |fs| <= 1
  {
    var s := sheets[i];
    if |sheets| > 1 && s.prjtDef == "" then [Fault(s.name, PrjtEmpty, s.prjtRow, s.prjtCol + PrjtDefCol)]
    else if i > 0 && sheets[0].prjtDef != s.prjtDef then [Fault(s.name, PrjtNotSame, s.prjtRow, s.prjtCol + PrjtDefCol)]
    else []
  }

  /** The error sheet `i`'s project name raises: empty in a multi-sheet
      run, or already in `seen` (`PrjtList` so far). */
  function NameFault(sheets: seq<Sheet>, i: nat, seen: seq<string>): (fs: seq<Fault>)
    requires i < |sheets|
    ensures |fs| <= 1
  {
    var s := sheets[i];
    if |sheets| > 1 && s.prjtName == "" then [Fault(s.name, PrjtEmpty, s.prjtRow, s.prjtCol + PrjtNameCol)]
    else if i > 0 && s.prjtName in seen then [Fault(s.name, PrjtSame, s.prjtRow, s.prjtCol + PrjtNameCol)]
    else []
  }

  /** The errors of sheets `0 .. k-1`, appended to a `PrjtList` holding `pre`. */
  function Faults(sheets: seq<Sheet>, pre: seq<string>, k: nat): (fs: seq<Fault>)
    requires k <= |sheets| && Columns(sheets)
    ensures Addressed(fs)
  {
    if k == 0 then []
    else
      Faults(sheets, pre, k - 1) + DefFault(sheets, k - 1)
      + NameFault(sheets, k - 1, pre + Names(sheets[..k - 1]))
  }

  /** The order error, reported at the first sheet's project-name cell. */
  function OrderFaultAt(sheets: seq<Sheet>): Fault
    requires |sheets| > 0
  {
    Fault(sheets[0].name, PrjtDefOrder, sheets[0].prjtRow, sheets[0].prjtCol + PrjtNameCol)
  }

  /** Without an order error, a list of distinct names has `COMMON` only in
      front and `DEFAULT` only at the end. */
  lemma NoOrderFaultPlaces(l: seq<string>)
    requires !OrderFault(l)
    requires forall i, j :: 0 <= i < j < |l| ==> l[i] != l[j]
    ensures forall i :: 0 <= i < |l| && l[i] == CommPrjtName ==> i == 0
    ensures forall i :: 0 <= i < |l| && l[i] == ElsePrjtName ==> i == |l| - 1
  {
  }

  /** A repeated project name is recorded as an error but does not make
      the check fail: only the order of `COMMON`/`DEFAULT` does. */
  lemma RepeatedNameDoesNotFail(a: Sheet, b: Sheet)
    requires a.prjtName == b.prjtName == "A" && a.prjtDef == b.prjtDef == "P"
    requires a.prjtCol + PrjtNameCol < 1436032 && b.prjtCol + PrjtNameCol < 1436032
    ensures Fault(b.name, PrjtSame, b.prjtRow, b.prjtCol + PrjtNameCol) in Faults([a, b], [], 2)
    ensures !OrderFault([] + Names([a, b]))
  {
    var sheets := [a, b];
    assert sheets[..1] == [a];
    assert Names([a]) == ["A"];
    assert NameFault(sheets, 1, ["A"]) == [Fault(b.name, PrjtSame, b.prjtRow, b.prjtCol + PrjtNameCol)];
    assert Names(sheets) == ["A", "A"];
  }

  // ---------------------------------------------------------------- conversion banner

  const ConvTitle: string := "<파일 생성 정보>"
  const ConvStart: string := "\t  * "
  const DateLabel: string := "파일 생성일 : "
  const FileLabel: string := "대상 파일   : "
  const ErrListLabel: string := "생성 시 발견된 오류 리스트"
  const CountSuffix: string := "개의 오류 발견"
  const NoErrLine: string := "\t\t >> 발견된 오류가 없습니다"
  const MoreErrLine: string := "\t\t  ... (추가 오류는 로그를 확인하세요)"
  const ErrShownMax: nat := 5

  /** The file name the banner names: the base name of the source file,
      or a fixed text when none is given. */
  function ConvFileName(sourceFileName: string): string
  {
    if sourceFileName == "" then "Unknown Source File" else DbManager.BaseName(sourceFileName)
  }

  /** One error message as the banner shows it: the text before the first
      `:` padded to the name width plus two, `": "`, and the text up to the
      second `:`; a message without `:` as it is. */
  function FormatErr(msg: string, nameSize: nat): string
  {
    if ':' in msg then
      CharContained(msg, ':');
      SplitContains(msg, ":");
      var parts := Split(msg, ":");
      LJust(parts[0], nameSize + 2, ' ') + ": " + parts[1]
    else msg
  }

  function ErrShown(errs: seq<string>, nameSize: nat): (r: seq<string>)
    ensures |r| == |errs|
    ensures forall i :: 0 <= i < |errs| ==> r[i] == "\t\t  " + FormatErr(errs[i], nameSize)
  {
    if |errs| == 0 then []
    else ErrShown(errs[..|errs| - 1], nameSize) + ["\t\t  " + FormatErr(errs[|errs| - 1], nameSize)]
  }

  function Min(a: int, b: int): int { if a <= b then a else b }

  /** The five lines opening the banner: the comment start, the title, the
      date, the file name and the heading of the error list. */
  function ConvHead(date: string, sourceFileName: string): seq<string>
  {
    ["/*", "\t" + ConvTitle, ConvStart + DateLabel + date,
     ConvStart + FileLabel + ConvFileName(sourceFileName), ConvStart + ErrListLabel]
  }

  function CountLine(n: nat): string
  {
    "\t\t=> " + NatToString(n) + CountSuffix
  }

  /** The error section: a line saying there is none, or the count, the
      first five messages and an overflow line when there are more. */
  function ErrSectionLines(errs: seq<string>, nameSize: nat): seq<string>
  {
    if |errs| == 0 then [NoErrLine]
    else
      [CountLine(|errs|)] + ErrShown(errs[..Min(ErrShownMax, |errs|)], nameSize)
      + (if |errs| > ErrShownMax then [MoreErrLine] else [])
  }

  /** The lines `make_conv_info_code` writes to both files. */
  function ConvInfo(date: string, sourceFileName: string, errs: seq<string>, nameSize: nat): seq<string>
  {
    ConvHead(date, sourceFileName) + ErrSectionLines(errs, nameSize) + ["*/", ""]
  }

  /** The error section shows at most five errors: with none it says so,
      with `n` it shows the count and the first `min(n, 5)` messages in
      order, and the overflow line after them when `n > 5`. */
  lemma ErrSectionCapped(errs: seq<string>, nameSize: nat)
    ensures var e := ErrSectionLines(errs, nameSize);
      var shown := Min(ErrShownMax, |errs|);
      |e| == (if |errs| == 0 then 1 else 1 + shown + (if |errs| > ErrShownMax then 1 else 0)) &&
      (|errs| == 0 <==> e[0] == NoErrLine) &&
      (forall i :: 0 <= i < shown ==> e[1 + i] == "\t\t  " + FormatErr(errs[i], nameSize)) &&
      (|errs| > ErrShownMax ==> e[|e| - 1] == MoreErrLine)
  {
    var e := ErrSectionLines(errs, nameSize);
    var shown := Min(ErrShownMax, |errs|);
    if |errs| > 0 {
      var sh := ErrShown(errs[..shown], nameSize);
      assert CountLine(|errs|)[2] == '=' && NoErrLine[2] == ' ';
      forall i | 0 <= i < shown ensures e[1 + i] == "\t\t  " + FormatErr(errs[i], nameSize) {
        assert e[1 + i] == sh[i];
      }
    }
  }

  /** The banner is one comment from `/*` to `*/` of at most fourteen
      lines, its error section after the five opening lines. */
  lemma ConvInfoFrame(date: string, sourceFileName: string, errs: seq<string>, nameSize: nat)
    ensures var r := ConvInfo(date, sourceFileName, errs, nameSize);
      var e := ErrSectionLines(errs, nameSize);
      |r| == 7 + |e| && |r| <= 14 && r[0] == "/*" && r[|r| - 2] == "*/" && r[|r| - 1] == "" &&
      r[5..|r| - 2] == e
  {
    ErrSectionCapped(errs, nameSize);
  }

  /** A message `WriteErrCell` recorded for a sheet whose name has no `:`
      and with an error text without `:` keeps its whole text in the
      banner: the cell name, padded, then the error text. */
  lemma CellErrorShownWhole(sheet: string, row: nat, col: int, text: string, nameSize: nat)
    requires col < 1436032 && ':' !in sheet && ':' !in text
    ensures var name := "  " + ReadingXlsRule + sheet + "[" + ColumnLetters(col) + NatToString(row) + "]";
      FormatErr("  " + CellRef(sheet, row, col) + text, nameSize)
        == LJust(name, nameSize + 2, ' ') + ": " + text
  {
    var name := "  " + ReadingXlsRule + sheet + "[" + ColumnLetters(col) + NatToString(row) + "]";
    assert "  " + CellRef(sheet, row, col) + text == name + ":" + text;
    CellNameNoColon(sheet, row, col);
    FormatErrTwoFields(name, text, nameSize);
  }

  lemma CellNameNoColon(sheet: string, row: nat, col: int)
    requires col < 1436032 && ':' !in sheet
    ensures ':' !in "  " + ReadingXlsRule + sheet + "[" + ColumnLetters(col) + NatToString(row) + "]"
  {
    LettersNoColon(col);
    DigitsNoColon(row);
  }

  lemma LettersNoColon(col: int)
    requires col < 1436032
    ensures ':' !in ColumnLetters(col)
  {
  }

  lemma DigitsNoColon(n: nat)
    ensures ':' !in NatToString(n)
  {
    var s := NatToString(n);
    forall i | 0 <= i < |s| ensures s[i] != ':' {
      assert IsAsciiDigit(s[i]);
    }
  }

  /** A message with one `:` shows both its fields. */
  lemma FormatErrTwoFields(a: string, b: string, nameSize: nat)
    requires ':' !in a && ':' !in b
    ensures FormatErr(a + ":" + b, nameSize) == LJust(a, nameSize + 2, ' ') + ": " + b
  {
    assert a + ":" + b == a + [':'] + b;
    assert (a + ":" + b)[|a|] == ':';
    SplitAtSeparator(a, b, ':');
  }

  /** A message with two `:` loses what follows the second one. */
  lemma FormatErrKeepsTwoFields(a: string, b: string, c: string, nameSize: nat)
    requires ':' !in a && ':' !in b && ':' !in c
    ensures FormatErr(a + ":" + b + ":" + c, nameSize) == LJust(a, nameSize + 2, ' ') + ": " + b
  {
    var s := a + ":" + b + ":" + c;
    assert s == a + [':'] + (b + ":" + c);
    assert ':' in s by { assert s[|a|] == ':'; }
    var k := Find(s, ":");
    assert OccursAt(s, ":", |a|);
    forall j | 0 <= j < |a| ensures !OccursAt(s, ":", j) {
      assert s[j] == a[j];
    }
    assert k == |a|;
    assert s[..k] == a;
    assert s[k + 1..] == b + [':'] + c;
    SplitAtSeparator(b, c, ':');
    assert Split(s, ":") == [a] + [b, c];
  }

  // ---------------------------------------------------------------- includes

  function Quote(inc: string): string { "#include \"" + inc + "\"" }

  lemma QuoteInjective(a: string, b: string)
    requires Quote(a) == Quote(b)
    ensures a == b
  {
    assert a == Quote(a)[10..|Quote(a)| - 1];
    assert b == Quote(b)[10..|Quote(b)| - 1];
  }

  /** The entries of an include list that are not blank, as written. */
  function NonBlank(parts: seq<string>): (r: seq<string>)
    ensures |r| <= |parts|
    ensures forall i :: 0 <= i < |r| ==> Strip(r[i]) != "" && r[i] in parts
  {
    if |parts| == 0 then []
    else
      var r0 := NonBlank(parts[..|parts| - 1]);
      if Strip(parts[|parts| - 1]) != "" then r0 + [parts[|parts| - 1]] else r0
  }

  /** `#include "<inc>"` for each entry that is not the file's own header. */
  function SkipOwn(incs: seq<string>, own: string): (r: seq<string>)
    ensures forall i :: 0 <= i < |r| ==> r[i] != Quote(own)
    ensures |r| <= |incs|
  {
    if |incs| == 0 then []
    else
      var r0 := SkipOwn(incs[..|incs| - 1], own);
      var inc := incs[|incs| - 1];
      if inc != own then
        (if Quote(inc) == Quote(own) then QuoteInjective(inc, own); r0 + [Quote(inc)] else r0 + [Quote(inc)])
      else r0
  }

  function Quoted(incs: seq<string>): (r: seq<string>)
    ensures |r| == |incs|
    ensures forall i :: 0 <= i < |incs| ==> r[i] == Quote(incs[i])
  {
    seq(|incs|, i requires 0 <= i < |incs| => Quote(incs[i]))
  }

  /** The header a target file name stands for: every `.c` and `.h` removed, then `.h`. */
  function TargetHeader(target: string): string
  {
    Replace(Replace(target, ".c", ""), ".h", "") + ".h"
  }

  /** The header the source file includes first. */
  function OwnHeader(hFile: string, target: string): string
  {
    if target != "" then TargetHeader(target) else hFile
  }

  /** The title of the include section. */
  const IncludesTitle: string := "INCLUDES"

  /** Lines appended one after another are the lines of their concatenation. */
  lemma Assoc4(a: seq<string>, b: seq<string>, c: seq<string>, d: seq<string>)
    ensures a + b + c + d == a + (b + c + d)
  {
  }

  /** The `#include` of the source file's own header, when it has a name. */
  function OwnInclude(hFile: string, target: string): seq<string>
  {
    if target != "" || hFile != "" then [Quote(OwnHeader(hFile, target))] else []
  }

  /** The extra source includes, skipping the own header. */
  function ExtraIncludes(hFile: string, sIncl: string, target: string): seq<string>
  {
    if sIncl != "" then SkipOwn(NonBlank(Split(sIncl, "\r\n")), OwnHeader(hFile, target)) else []
  }

  /** What `make_include_code(True, lb_src, target)` adds after `lb`. */
  function SrcIncludes(lb: seq<string>, hFile: string, sIncl: string, target: string): seq<string>
  {
    TitleLines(lb, IncludesTitle) + OwnInclude(hFile, target) + ExtraIncludes(hFile, sIncl, target)
  }

  /** The header guard's opening lines. */
  function Guard(hFile: string): seq<string>
  {
    ["#ifndef " + HdrUpperName(hFile), "#define " + HdrUpperName(hFile)]
  }

  /** The extra header includes, joined into one list entry by line breaks. */
  function HdrExtra(hIncl: string): seq<string>
  {
    if hIncl != "" && NonBlank(Split(hIncl, "\r\n")) != []
    then [Join(Quoted(NonBlank(Split(hIncl, "\r\n"))), "\n")] else []
  }

  /** What `make_include_code(False, lb_hdr, target)` adds after `lb`. */
  function HdrIncludes(lb: seq<string>, hFile: string, hIncl: string): seq<string>
  {
    Guard(hFile) + TitleLines(lb + Guard(hFile), IncludesTitle) + HdrExtra(hIncl)
  }

  /** The source includes its own header once, right after the title, and
      never again from the extra include list. */
  lemma OwnHeaderOnce(lb: seq<string>, hFile: string, sIncl: string, target: string)
    requires target != "" || hFile != ""
    ensures var r := SrcIncludes(lb, hFile, sIncl, target);
      var t := |TitleLines(lb, IncludesTitle)|;
      t < |r| && r[t] == Quote(OwnHeader(hFile, target)) &&
      forall k :: t < k < |r| ==> r[k] != Quote(OwnHeader(hFile, target))
  {
    var q := Quote(OwnHeader(hFile, target));
    var e := ExtraIncludes(hFile, sIncl, target);
    assert forall i :: 0 <= i < |e| ==> e[i] != q;
    OnceAfter(TitleLines(lb, IncludesTitle), q, e);
  }

  /** `q` occurs right after `a` and nowhere in `e`. */
  lemma OnceAfter(a: seq<string>, q: string, e: seq<string>)
    requires forall i :: 0 <= i < |e| ==> e[i] != q
    ensures var r := a + [q] + e;
      r[|a|] == q && forall k :: |a| < k < |r| ==> r[k] != q
  {
    var r := a + [q] + e;
    forall k | |a| < k < |r| ensures r[k] != q {
      assert r[k] == e[k - |a| - 1];
    }
  }

  // ---------------------------------------------------------------- file end

  const EndOfFile: string := "*                                        End of File                                        *"

  function SrcEnd(): seq<string>
  {
    ["", StartAnnotation[0], EndOfFile, EndAnnotation[0]]
  }

  function HdrEnd(hFile: string): seq<string>
  {
    ["", "#endif /* #ifndef " + HdrUpperName(hFile) + " */", "", StartAnnotation[0], EndOfFile, EndAnnotation[0]]
  }

  /** The header opens its guard with `#ifndef G` and `#define G`,
      whatever the list held before. */
  lemma IncludeGuardOpens(lb: seq<string>, hFile: string, hIncl: string, rest: seq<string>)
    ensures var g := HdrUpperName(hFile);
      var out := lb + HdrIncludes(lb, hFile, hIncl) + rest;
      out[|lb|] == "#ifndef " + g && out[|lb| + 1] == "#define " + g
  {
  }

  /** Whatever is generated before it, the header closes its guard with
      `#endif` naming the same `G`, and both files end with the same
      closing banner. */
  lemma IncludeGuardCloses(pre: seq<string>, hFile: string)
    ensures var out := pre + HdrEnd(hFile);
      out[|out| - 5] == "#endif /* #ifndef " + HdrUpperName(hFile) + " */" &&
      out[|out| - 3..] == SrcEnd()[1..]
  {
  }

  // ---------------------------------------------------------------- per-project blocks

  /** What `make_cal_list_code` reads besides the titles: the sheets, the
      project list and the main project definition. */
  datatype Run = Run(sheets: seq<Sheet>, prjtList: seq<string>, defTitle: string)

  /** The main definition is only set together with the first project name. */
  predicate Ready(r: Run) { r.defTitle != "" ==> |r.prjtList| > 0 }

  predicate Multi(r: Run) { |r.sheets| > 1 }

  function NameAt(r: Run, sht: nat): string
  {
    if Multi(r) && sht < |r.prjtList| then r.prjtList[sht] else ""
  }

  function DescAt(r: Run, sht: nat): string
    requires sht < |r.sheets|
  {
    if Multi(r) then r.sheets[sht].prjtDesc else ""
  }

  function CodeAt(r: Run, t: string, toSrc: bool, sht: nat): seq<string>
    requires sht < |r.sheets|
  {
    var m := if toSrc then r.sheets[sht].src else r.sheets[sht].hdr;
    if t in m then m[t] else []
  }

  /** `need_conditional`: a non-`COMMON` sheet of a multi-sheet run with code for `t`. */
  predicate Need(r: Run, t: string, sht: nat)
    requires sht < |r.sheets|
  {
    Multi(r) && NameAt(r, sht) != CommPrjtName && r.defTitle != ""
    && (CodeAt(r, t, true, sht) != [] || CodeAt(r, t, false, sht) != [])
  }

  /** `has_non_common_src`/`_hdr`: one of the first `k` sheets is a
      non-`COMMON` sheet of a multi-sheet run with code for `t` in that file. */
  function AnyNonCommon(r: Run, t: string, toSrc: bool, k: nat): bool
    requires k <= |r.sheets|
  {
    if k == 0 then false
    else
      var here := Multi(r) && NameAt(r, k - 1) != CommPrjtName && CodeAt(r, t, toSrc, k - 1) != [];
      AnyNonCommon(r, t, toSrc, k - 1) || here
  }

  /** The keyword that opens a conditional block. */
  datatype Keyword = IfKw | ElifKw | ElseKw

  function KeywordText(kw: Keyword): string
  {
    match kw
    case IfKw => "#if ("
    case ElifKw => "#elif ("
    case ElseKw => "#else"
  }

  /** The directive opening sheet `sht`'s block, given its keyword. */
  function DefLine(r: Run, sht: nat, kw: Keyword): string
    requires sht < |r.sheets|
  {
    var name := NameAt(r, sht);
    var ifdef := KeywordText(kw);
    if name == ElsePrjtName then ifdef
    else
      var d := ifdef + r.defTitle + " == " + name + ")";
      var desc := DescAt(r, sht);
      if desc == "" then d
      else (if |d| % TabSize >= 3 then d + "\t" else d) + "\t// " + desc
  }

  /** `#if (` for the first sheet, or the second after a `COMMON` first;
      `#else` for `DEFAULT`; `#elif (` otherwise. */
  function IfKeyword(r: Run, sht: nat): Keyword
    requires sht != 1 || |r.prjtList| > 0
  {
    if sht == 0 || (sht == 1 && r.prjtList[0] == CommPrjtName) then IfKw
    else if NameAt(r, sht) == ElsePrjtName then ElseKw
    else ElifKw
  }

  function Opener(r: Run, sht: nat): string
    requires sht < |r.sheets| && (sht != 1 || |r.prjtList| > 0)
  {
    DefLine(r, sht, IfKeyword(r, sht))
  }

  /** The lines opening sheet `sht`'s block in one file. The blank line
      after the directive is skipped when the first code line, stripped,
      starts with a line break. */
  function Opening(r: Run, t: string, toSrc: bool, sht: nat): seq<string>
    requires Ready(r) && sht < |r.sheets|
  {
    var code := CodeAt(r, t, toSrc, sht);
    if Need(r, t, sht) && AnyNonCommon(r, t, toSrc, |r.sheets|) && code != [] then OpenLines(Opener(r, sht), code)
    else []
  }

  /** The directive between blank lines; the second blank line is left out
      when the first code line, stripped, starts with a line break. */
  function OpenLines(def: string, code: seq<string>): seq<string>
    requires code != []
  {
    ["", def] + (if !StartsWith(Strip(code[0]), "\r\n") then [""] else [])
  }

  /** Each code line right-stripped, after `tab`. */
  function Body(tab: string, code: seq<string>): (r: seq<string>)
    ensures |r| == |code|
    ensures forall i :: 0 <= i < |code| ==> r[i] == tab + RStrip(code[i])
  {
    if |code| == 0 then [] else Body(tab, code[..|code| - 1]) + [tab + RStrip(code[|code| - 1])]
  }

  function SheetLines(r: Run, t: string, toSrc: bool, sht: nat): seq<string>
    requires Ready(r) && sht < |r.sheets|
  {
    Opening(r, t, toSrc, sht) + Body(if Need(r, t, sht) then "\t" else "", CodeAt(r, t, toSrc, sht))
  }

  /** A sheet's lines in one file, from the decisions `make_cal_list_code`
      takes for it: whether to open a block, the directive and the indent. */
  lemma SheetLinesOf(r: Run, t: string, toSrc: bool, sht: nat, open: bool, def: string, tab: string)
    requires Ready(r) && sht < |r.sheets|
    requires open == (Need(r, t, sht) && AnyNonCommon(r, t, toSrc, |r.sheets|) && CodeAt(r, t, toSrc, sht) != [])
    requires open ==> def == Opener(r, sht)
    requires tab == if Need(r, t, sht) then "\t" else ""
    ensures (if open then OpenLines(def, CodeAt(r, t, toSrc, sht)) else []) + Body(tab, CodeAt(r, t, toSrc, sht))
            == SheetLines(r, t, toSrc, sht)
  {
  }

  /** `src_buffer`/`hdr_buffer` after sheets `0 .. k-1`. */
  function Blocks(r: Run, t: string, toSrc: bool, k: nat): seq<string>
    requires Ready(r) && k <= |r.sheets|
  {
    if k == 0 then [] else Blocks(r, t, toSrc, k - 1) + SheetLines(r, t, toSrc, k - 1)
  }

  lemma BlocksSnoc(r: Run, t: string, toSrc: bool, k: nat)
    requires Ready(r) && k < |r.sheets|
    ensures Blocks(r, t, toSrc, k + 1) == Blocks(r, t, toSrc, k) + SheetLines(r, t, toSrc, k)
  {
  }

  function ElseLines(r: Run): seq<string>
  {
    (if ElsePrjtName !in r.prjtList then ["#else", "\t#error undefined " + r.defTitle + " MACRO", ""] else [])
    + ["#endif", ""]
  }

  /** The lines closing the conditional blocks of a title in one file. */
  function Closing(r: Run, t: string, toSrc: bool, buf: seq<string>): seq<string>
    requires Ready(r)
  {
    if r.defTitle != "" && AnyNonCommon(r, t, toSrc, |r.sheets|) && buf != [] then [""] + ElseLines(r) else []
  }

  function TitleCode(r: Run, t: string, toSrc: bool): seq<string>
    requires Ready(r)
  {
    var b := Blocks(r, t, toSrc, |r.sheets|);
    b + Closing(r, t, toSrc, b)
  }

  /** Both files after one title: its banner where its `MkFile` asks for
      it, then its blocks. */
  function TitleStep(r: Run, t: string, mk: MkFile, out: (seq<string>, seq<string>)): (seq<string>, seq<string>)
    requires Ready(r)
  {
    var s := if mk != Hdr then out.0 + TitleLines(out.0, t) else out.0;
    var h := if mk != Src then out.1 + TitleLines(out.1, t) else out.1;
    (s + TitleCode(r, t, true), h + TitleCode(r, t, false))
  }

  function CalListCode(r: Run, titles: seq<(string, MkFile)>, out: (seq<string>, seq<string>)): (seq<string>, seq<string>)
    requires Ready(r)
  {
    if |titles| == 0 then out
    else
      var last := titles[|titles| - 1];
      TitleStep(r, last.0, last.1, CalListCode(r, titles[..|titles| - 1], out))
  }

  /** A non-`COMMON` sheet among the first `k` with code for `t` makes the
      scan find one. */
  lemma {:induction false} AnyNonCommonAt(r: Run, t: string, toSrc: bool, k: nat, sht: nat)
    requires sht < k <= |r.sheets|
    requires Multi(r) && NameAt(r, sht) != CommPrjtName && CodeAt(r, t, toSrc, sht) != []
    ensures AnyNonCommon(r, t, toSrc, k)
    decreases k
  {
    if sht < k - 1 {
      AnyNonCommonAt(r, t, toSrc, k - 1, sht);
    }
  }

  /** Sheet `sht` needs a conditional block in this file: a multi-sheet run
      with a main definition, a project other than `COMMON` and code for
      the title there. */
  predicate Opens(r: Run, t: string, toSrc: bool, sht: nat)
    requires sht < |r.sheets|
  {
    Multi(r) && NameAt(r, sht) != CommPrjtName && r.defTitle != "" && CodeAt(r, t, toSrc, sht) != []
  }

  /** A stripped line never starts with a line break. */
  lemma StrippedNoBreak(x: string)
    ensures !StartsWith(Strip(x), "\r\n")
  {
    var s := Strip(x);
    if |s| >= 2 {
      assert !IsSpace(s[0]) && IsSpace('\r');
      assert s[..2][0] == s[0];
    }
  }

  /** A block opens exactly for a non-`COMMON` sheet of a multi-sheet run
      with a main definition and code for the title in that file, and it
      is always the directive between two blank lines. */
  lemma OpeningExactly(r: Run, t: string, toSrc: bool, sht: nat)
    requires Ready(r) && sht < |r.sheets|
    ensures Opening(r, t, toSrc, sht) != [] <==> Opens(r, t, toSrc, sht)
    ensures Opening(r, t, toSrc, sht) != [] ==> Opening(r, t, toSrc, sht) == ["", Opener(r, sht), ""]
  {
    var code := CodeAt(r, t, toSrc, sht);
    if Multi(r) && NameAt(r, sht) != CommPrjtName && r.defTitle != "" && code != [] {
      AnyNonCommonAt(r, t, toSrc, |r.sheets|, sht);
      StrippedNoBreak(code[0]);
    }
  }

  /** The blocks of a title in one file close with `#endif`, after an
      `#else` raising `#error` exactly when no sheet is `DEFAULT`. */
  lemma ClosingShape(r: Run, t: string, toSrc: bool, buf: seq<string>)
    requires Ready(r)
    ensures var c := Closing(r, t, toSrc, buf);
      c != [] ==>
        c[|c| - 2..] == ["#endif", ""] &&
        ("#else" in c <==> ElsePrjtName !in r.prjtList) &&
        (ElsePrjtName !in r.prjtList ==> c[2] == "\t#error undefined " + r.defTitle + " MACRO")
  {
    var c := Closing(r, t, toSrc, buf);
    if c != [] && ElsePrjtName in r.prjtList {
      assert c == ["", "#endif", ""];
    }
  }

  // ---------------------------------------------------------------- nesting

  /** The directives opening the blocks of sheets `0 .. k-1` in one file. */
  function Openers(r: Run, t: string, toSrc: bool, k: nat): seq<string>
    requires Ready(r) && k <= |r.sheets|
  {
    if k == 0 then []
    else
      var here := if Opens(r, t, toSrc, k - 1) then [Opener(r, k - 1)] else [];
      Openers(r, t, toSrc, k - 1) + here
  }

  /** The directives read as one chain: `#if (D == ` first, then `#elif (D == `
      lines, and possibly a final `#else`. */
  predicate IfChain(os: seq<string>, def: string)
  {
    |os| >= 1 && StartsWith(os[0], "#if (" + def + " == ")
    && forall i :: 0 < i < |os| ==>
         StartsWith(os[i], "#elif (" + def + " == ") || (i == |os| - 1 && os[i] == "#else")
  }

  /** The project list is in the order the project check accepts, with
      `COMMON` only first and `DEFAULT` only last, one name per sheet. */
  predicate Ordered(r: Run)
  {
    Multi(r) && r.defTitle != "" && |r.prjtList| == |r.sheets|
    && (forall i :: 0 < i < |r.prjtList| ==> r.prjtList[i] != CommPrjtName)
    && (forall i :: 0 <= i < |r.prjtList| - 1 ==> r.prjtList[i] != ElsePrjtName)
  }

  /** Some sheet other than `DEFAULT` opens a block for `t` in this file. */
  predicate NamedOpens(r: Run, t: string, toSrc: bool)
    requires Ready(r)
  {
    exists sht :: 0 <= sht < |r.sheets| && NameAt(r, sht) != ElsePrjtName && Opens(r, t, toSrc, sht)
  }

  /** Every sheet other than a leading `COMMON` opens a block for `t` in this file. */
  predicate Covering(r: Run, t: string, toSrc: bool)
    requires Ready(r)
  {
    forall sht :: 0 <= sht < |r.sheets| && NameAt(r, sht) != CommPrjtName ==> Opens(r, t, toSrc, sht)
  }

  lemma DefLineStarts(r: Run, sht: nat, kw: Keyword)
    requires sht < |r.sheets| && NameAt(r, sht) != ElsePrjtName
    ensures StartsWith(DefLine(r, sht, kw), KeywordText(kw) + r.defTitle + " == ")
  {
    var p := KeywordText(kw) + r.defTitle + " == ";
    var d := p + NameAt(r, sht) + ")";
    assert d[..|p|] == p;
    var desc := DescAt(r, sht);
    if desc != "" {
      var d1 := if |d| % TabSize >= 3 then d + "\t" else d;
      assert (d1 + "\t// " + desc)[..|p|] == p;
    }
  }

  // -- the corrected opener

  /** One of sheets `0 .. k-1` opens a block for `t` in this file. */
  function AnyOpens(r: Run, t: string, toSrc: bool, k: nat): bool
    requires Ready(r) && k <= |r.sheets|
  {
    if k == 0 then false else AnyOpens(r, t, toSrc, k - 1) || Opens(r, t, toSrc, k - 1)
  }

  /** The keyword chosen per file: `#if (` for the first block this file
      opens, `#else` for `DEFAULT`, `#elif (` otherwise. */
  function IfKeywordFixed(r: Run, t: string, toSrc: bool, sht: nat): Keyword
    requires Ready(r) && sht < |r.sheets|
  {
    if !AnyOpens(r, t, toSrc, sht) then IfKw
    else if NameAt(r, sht) == ElsePrjtName then ElseKw
    else ElifKw
  }

  function OpenersFixed(r: Run, t: string, toSrc: bool, k: nat): (os: seq<string>)
    requires Ready(r) && k <= |r.sheets|
    ensures |os| == 0 <==> !AnyOpens(r, t, toSrc, k)
  {
    if k == 0 then []
    else
      var here := if Opens(r, t, toSrc, k - 1) then [DefLine(r, k - 1, IfKeywordFixed(r, t, toSrc, k - 1))] else [];
      OpenersFixed(r, t, toSrc, k - 1) + here
  }

  /** `#if (D == ` first and `#elif (D == ` after it, or no directive. */
  predicate ElifChain(os: seq<string>, def: string)
  {
    |os| > 0 ==>
      StartsWith(os[0], "#if (" + def + " == ")
      && forall i :: 0 < i < |os| ==> StartsWith(os[i], "#elif (" + def + " == ")
  }

  /** An `#if` starts an empty chain; an `#elif` extends a started one. */
  lemma ChainSnoc(os: seq<string>, d: string, kw: Keyword, def: string)
    requires ElifChain(os, def) && StartsWith(d, KeywordText(kw) + def + " == ")
    requires kw == if |os| == 0 then IfKw else ElifKw
    ensures ElifChain(os + [d], def)
  {
    var os' := os + [d];
    if |os| > 0 {
      assert os'[0] == os[0];
      forall i | 0 < i < |os'| ensures StartsWith(os'[i], "#elif (" + def + " == ") {
        if i < |os| { assert os'[i] == os[i]; }
      }
    }
  }

  /** A started chain of `#if` and `#elif` lines is an `IfChain`. */
  lemma ChainStarted(os: seq<string>, def: string)
    requires ElifChain(os, def) && |os| > 0
    ensures IfChain(os, def)
  {
  }

  /** A started chain followed by `#elif` or by a last `#else` is an `IfChain`. */
  lemma ChainClose(os: seq<string>, d: string, def: string)
    requires ElifChain(os, def) && |os| > 0
    requires StartsWith(d, "#elif (" + def + " == ") || d == "#else"
    ensures IfChain(os + [d], def)
  {
    var os' := os + [d];
    assert os'[0] == os[0];
    forall i | 0 < i < |os'|
      ensures StartsWith(os'[i], "#elif (" + def + " == ") || (i == |os'| - 1 && os'[i] == "#else")
    {
      if i < |os| { assert os'[i] == os[i]; }
    }
  }

  /** One more sheet adds its corrected directive when it opens a block. */
  lemma FixedStep(r: Run, t: string, toSrc: bool, k: nat)
    requires Ready(r) && 0 < k <= |r.sheets|
    ensures !Opens(r, t, toSrc, k - 1) ==> OpenersFixed(r, t, toSrc, k) == OpenersFixed(r, t, toSrc, k - 1)
    ensures Opens(r, t, toSrc, k - 1) ==>
      OpenersFixed(r, t, toSrc, k) == OpenersFixed(r, t, toSrc, k - 1) + [DefLine(r, k - 1, IfKeywordFixed(r, t, toSrc, k - 1))]
  {
    var os0 := OpenersFixed(r, t, toSrc, k - 1);
    if !Opens(r, t, toSrc, k - 1) {
      assert os0 + [] == os0;
    }
  }

  /** Before the last sheet no project is `DEFAULT`. */
  lemma NotElseBeforeLast(r: Run, sht: nat)
    requires Ordered(r) && sht < |r.sheets| - 1
    ensures NameAt(r, sht) != ElsePrjtName
  {
    assert NameAt(r, sht) == r.prjtList[sht];
  }

  /** Before the last sheet, the corrected directives are `#if` then `#elif` lines. */
  lemma {:induction false} FixedChainBefore(r: Run, t: string, toSrc: bool, k: nat)
    requires Ready(r) && Ordered(r) && k < |r.sheets|
    ensures ElifChain(OpenersFixed(r, t, toSrc, k), r.defTitle)
  {
    if k > 0 {
      FixedChainBefore(r, t, toSrc, k - 1);
      FixedStep(r, t, toSrc, k);
      if Opens(r, t, toSrc, k - 1) {
        FixedChainOpens(r, t, toSrc, k);
      }
    }
  }

  /** A sheet before the last that opens a block extends the chain by one line. */
  lemma FixedChainOpens(r: Run, t: string, toSrc: bool, k: nat)
    requires Ready(r) && Ordered(r) && 0 < k < |r.sheets| && Opens(r, t, toSrc, k - 1)
    requires ElifChain(OpenersFixed(r, t, toSrc, k - 1), r.defTitle)
    requires OpenersFixed(r, t, toSrc, k) == OpenersFixed(r, t, toSrc, k - 1) + [DefLine(r, k - 1, IfKeywordFixed(r, t, toSrc, k - 1))]
    ensures ElifChain(OpenersFixed(r, t, toSrc, k), r.defTitle)
  {
    var os0 := OpenersFixed(r, t, toSrc, k - 1);
    var kw := IfKeywordFixed(r, t, toSrc, k - 1);
    NotElseBeforeLast(r, k - 1);
    FixedKeyword(r, t, toSrc, k - 1);
    DefLineStarts(r, k - 1, kw);
    ChainSnoc(os0, DefLine(r, k - 1, kw), kw, r.defTitle);
  }

  /** The corrected keyword of a sheet other than `DEFAULT`: `#if (` when no
      earlier sheet has opened a block in this file, `#elif (` otherwise. */
  lemma FixedKeyword(r: Run, t: string, toSrc: bool, sht: nat)
    requires Ready(r) && sht < |r.sheets| && NameAt(r, sht) != ElsePrjtName
    ensures IfKeywordFixed(r, t, toSrc, sht) == if |OpenersFixed(r, t, toSrc, sht)| == 0 then IfKw else ElifKw
  {
  }

  /** The corrected directives nest: whenever a named project opens a
      block for the title in a file, that file's directives are one `#if`,
      then `#elif` lines, then at most one `#else`, which is last. */
  lemma FixedNesting(r: Run, t: string, toSrc: bool)
    requires Ready(r) && Ordered(r) && NamedOpens(r, t, toSrc)
    ensures IfChain(OpenersFixed(r, t, toSrc, |r.sheets|), r.defTitle)
  {
    var sht :| 0 <= sht < |r.sheets| && NameAt(r, sht) != ElsePrjtName && Opens(r, t, toSrc, sht);
    if Opens(r, t, toSrc, |r.sheets| - 1) {
      LastOpens(r, t, toSrc, sht);
    } else {
      LastSilent(r, t, toSrc, sht);
    }
  }

  /** When the last sheet opens a block, its directive ends the chain. */
  lemma LastOpens(r: Run, t: string, toSrc: bool, sht: nat)
    requires Ready(r) && Ordered(r) && sht < |r.sheets|
    requires NameAt(r, sht) != ElsePrjtName && Opens(r, t, toSrc, sht) && Opens(r, t, toSrc, |r.sheets| - 1)
    ensures IfChain(OpenersFixed(r, t, toSrc, |r.sheets|), r.defTitle)
  {
    var n := |r.sheets|;
    FixedChainBefore(r, t, toSrc, n - 1);
    FixedStep(r, t, toSrc, n);
    var os0 := OpenersFixed(r, t, toSrc, n - 1);
    var kw := IfKeywordFixed(r, t, toSrc, n - 1);
    var d := DefLine(r, n - 1, kw);
    if |os0| == 0 {
      assert sht == n - 1 by {
        if sht < n - 1 {
          OpensSeen(r, t, toSrc, n - 1, sht);
        }
      }
      assert NameAt(r, n - 1) != ElsePrjtName;
      FixedKeyword(r, t, toSrc, n - 1);
      DefLineStarts(r, n - 1, kw);
      ChainSnoc(os0, d, kw, r.defTitle);
      ChainStarted(os0 + [d], r.defTitle);
    } else {
      if NameAt(r, n - 1) != ElsePrjtName {
        DefLineStarts(r, n - 1, kw);
      }
      ChainClose(os0, d, r.defTitle);
    }
  }

  /** When the last sheet opens no block, an earlier one has started the
      chain, and nothing follows it. */
  lemma LastSilent(r: Run, t: string, toSrc: bool, sht: nat)
    requires Ready(r) && Ordered(r) && sht < |r.sheets|
    requires Opens(r, t, toSrc, sht) && !Opens(r, t, toSrc, |r.sheets| - 1)
    ensures IfChain(OpenersFixed(r, t, toSrc, |r.sheets|), r.defTitle)
  {
    var n := |r.sheets|;
    FixedChainBefore(r, t, toSrc, n - 1);
    FixedStep(r, t, toSrc, n);
    assert sht != n - 1;
    OpensSeen(r, t, toSrc, n - 1, sht);
    var os0 := OpenersFixed(r, t, toSrc, n - 1);
    assert |os0| > 0;
    ChainStarted(os0, r.defTitle);
  }

  /** A sheet before `k` that opens a block makes `AnyOpens` hold at `k`. */
  lemma {:induction false} OpensSeen(r: Run, t: string, toSrc: bool, k: nat, sht: nat)
    requires Ready(r) && sht < k <= |r.sheets| && Opens(r, t, toSrc, sht)
    ensures AnyOpens(r, t, toSrc, k)
    decreases k
  {
    if sht < k - 1 {
      OpensSeen(r, t, toSrc, k - 1, sht);
    }
  }

  // -- the opener as written

  /** When every sheet but a leading `COMMON` opens a block for the title
      in a file, the keyword chosen by sheet index is the one chosen per
      file. */
  lemma {:induction false} CoveredOpenersAgree(r: Run, t: string, toSrc: bool, k: nat)
    requires Ready(r) && Ordered(r) && Covering(r, t, toSrc) && k <= |r.sheets|
    ensures Openers(r, t, toSrc, k) == OpenersFixed(r, t, toSrc, k)
  {
    if k > 0 {
      CoveredOpenersAgree(r, t, toSrc, k - 1);
      var s := k - 1;
      if Opens(r, t, toSrc, s) {
        if s == 0 || (s == 1 && r.prjtList[0] == CommPrjtName) {
          if s == 1 {
            assert NameAt(r, 0) == CommPrjtName;
            assert !Opens(r, t, toSrc, 0);
          }
          assert !AnyOpens(r, t, toSrc, s);
        } else {
          var w := if NameAt(r, 0) != CommPrjtName then 0 else 1;
          assert NameAt(r, w) != CommPrjtName;
          assert Opens(r, t, toSrc, w);
          assert AnyOpens(r, t, toSrc, s);
        }
        assert IfKeyword(r, s) == IfKeywordFixed(r, t, toSrc, s);
      }
    }
  }

  /** As written, the directives nest when every sheet but a leading
      `COMMON` has code for the title in that file and a named project is
      among them. */
  lemma CoveredNesting(r: Run, t: string, toSrc: bool)
    requires Ready(r) && Ordered(r) && Covering(r, t, toSrc) && NamedOpens(r, t, toSrc)
    ensures IfChain(Openers(r, t, toSrc, |r.sheets|), r.defTitle)
  {
    CoveredOpenersAgree(r, t, toSrc, |r.sheets|);
    FixedNesting(r, t, toSrc);
  }

  /** Two sheets: project `A` has header code only and project `B` source
      code only for title `T`, under the main definition `P`. */
  const ElifExample: Run :=
    Run([Sheet("A", "P", "A", "", 1, 1, map[], map["T" := ["int a;"]]),
         Sheet("B", "P", "B", "", 1, 1, map["T" := ["int b;"]], map[])],
        ["A", "B"], "P")

  lemma ElifExampleOpens()
    ensures Ready(ElifExample) && |ElifExample.sheets| == 2
    ensures !Opens(ElifExample, "T", true, 0) && Opens(ElifExample, "T", true, 1)
  {
    var r := ElifExample;
    assert CodeAt(r, "T", true, 0) == [];
    assert NameAt(r, 1) == "B";
    assert CodeAt(r, "T", true, 1) == ["int b;"];
  }

  /** As written, the keyword follows the sheet index, not the blocks the
      file has opened: when the first project has header code only for a
      title, the source file's only block opens with `#elif`, which no
      `#if` precedes. */
  lemma ElifWithoutIf()
    ensures Openers(ElifExample, "T", true, 2) == ["#elif (P == B)"]
    ensures !IfChain(Openers(ElifExample, "T", true, 2), "P")
  {
    var r := ElifExample;
    ElifExampleOpens();
    assert Openers(r, "T", true, 1) == [];
    assert IfKeyword(r, 1) == ElifKw;
    assert DefLine(r, 1, ElifKw) == "#elif (P == B)";
    assert ("#elif (P == B)")[..10][1] == 'e' != ("#if (P == ")[1];
  }

  /** The corrected opener starts that block with `#if`. */
  lemma ElifExampleFixed()
    ensures OpenersFixed(ElifExample, "T", true, 2) == ["#if (P == B)"]
    ensures IfChain(OpenersFixed(ElifExample, "T", true, 2), "P")
  {
    var r := ElifExample;
    ElifExampleOpens();
    FixedStep(r, "T", true, 1);
    FixedStep(r, "T", true, 2);
    assert !AnyOpens(r, "T", true, 1);
    assert IfKeywordFixed(r, "T", true, 1) == IfKw;
    assert DefLine(r, 1, IfKw) == "#if (P == B)";
    assert ("#if (P == B)")[..|"#if (P == "|] == "#if (P == ";
  }

  // ---------------------------------------------------------------- the generator

  class MakeCode {
    var src: seq<string>
    var hdr: seq<string>
    var prjtList: seq<string>
    var prjtDefTitle: string
    var hFile: string
    var sIncl: string
    var hIncl: string

    /** A generator whose file information gives the header name and the
        extra source and header includes. */
    constructor (hFile: string, sIncl: string, hIncl: string)
      ensures src == [] && hdr == [] && prjtList == [] && prjtDefTitle == ""
      ensures this.hFile == hFile && this.sIncl == sIncl && this.hIncl == hIncl
    {
      src := [];
      hdr := [];
      prjtList := [];
      prjtDefTitle := "";
      this.hFile := hFile;
      this.sIncl := sIncl;
      this.hIncl := hIncl;
    }

    function Out(toSrc: bool): seq<string>
      reads this
    {
      if toSrc then src else hdr
    }

    /** `lb.addItem(line)` for each line. */
    method AddItems(toSrc: bool, lines: seq<string>)
      modifies this`src, this`hdr
      ensures Out(toSrc) == old(Out(toSrc)) + lines && Out(!toSrc) == old(Out(!toSrc))
    {
      var i := 0;
      while i < |lines|
        invariant 0 <= i <= |lines|
        invariant Out(toSrc) == old(Out(toSrc)) + lines[..i] && Out(!toSrc) == old(Out(!toSrc))
      {
        if toSrc {
          src := src + [lines[i]];
        } else {
          hdr := hdr + [lines[i]];
        }
        assert lines[..i + 1] == lines[..i] + [lines[i]];
        i := i + 1;
      }
      assert lines[..i] == lines;
    }

    /** `chk_prjt_infos`: records the project errors of every sheet, appends
        every sheet's project name to `PrjtList`, and fails exactly on an
        order error, which it records at the first sheet. */
    method ChkPrjtInfos(sheets: seq<Sheet>, log: ErrorLog) returns (err: bool)
      requires Columns(sheets)
      requires |sheets| == 0 ==> !OrderFault(prjtList)
      modifies this`prjtList, this`prjtDefTitle, log`errList, log`errNameSize
      ensures prjtList == old(prjtList) + Names(sheets)
      ensures prjtDefTitle == if |sheets| > 0 then sheets[0].prjtDef else old(prjtDefTitle)
      ensures err == OrderFault(prjtList)
      ensures !err ==> Logged(log, old(log.errList), old(log.errNameSize), Faults(sheets, old(prjtList), |sheets|))
      ensures err ==> |sheets| > 0
      ensures err ==> Logged(log, old(log.errList), old(log.errNameSize),
                             Faults(sheets, old(prjtList), |sheets|) + [OrderFaultAt(sheets)])
    {
      ghost var fs := CheckSheets(sheets, log);
      err := false;
      if CommPrjtName in prjtList && prjtList[0] != CommPrjtName {
        err := true;
      }
      if ElsePrjtName in prjtList && prjtList[|prjtList| - 1] != ElsePrjtName {
        err := true;
      }
      if err {
        fs := Record(log, OrderFaultAt(sheets), old(log.errList), old(log.errNameSize), fs);
      }
    }

    /** The loop of `chk_prjt_infos` over the sheets. */
    method CheckSheets(sheets: seq<Sheet>, log: ErrorLog) returns (ghost fs: seq<Fault>)
      requires Columns(sheets)
      modifies this`prjtList, this`prjtDefTitle, log`errList, log`errNameSize
      ensures prjtList == old(prjtList) + Names(sheets)
      ensures prjtDefTitle == if |sheets| > 0 then sheets[0].prjtDef else old(prjtDefTitle)
      ensures fs == Faults(sheets, old(prjtList), |sheets|)
      ensures Logged(log, old(log.errList), old(log.errNameSize), fs)
    {
      fs := [];
      var i := 0;
      while i < |sheets|
        invariant 0 <= i <= |sheets|
        invariant Checked(sheets, log, old(prjtList), i, old(log.errList), old(log.errNameSize), fs)
        invariant i == 0 ==> prjtDefTitle == old(prjtDefTitle)
      {
        fs := CheckStep(sheets, i, log, old(prjtList), old(log.errList), old(log.errNameSize), fs);
        i := i + 1;
      }
      assert sheets[..i] == sheets;
    }

    /** After sheets `0 .. i-1`: their names follow `pre` in `PrjtList`,
        the main definition is the first sheet's, and their faults are logged. */
    ghost predicate Checked(sheets: seq<Sheet>, log: ErrorLog, pre: seq<string>, i: nat, l0: seq<string>, n: nat, fs: seq<Fault>)
      reads this, log
      requires Columns(sheets) && i <= |sheets|
    {
      prjtList == pre + Names(sheets[..i]) && (i > 0 ==> prjtDefTitle == sheets[0].prjtDef)
      && fs == Faults(sheets, pre, i) && Logged(log, l0, n, fs)
    }

    /** One round of the loop: check sheet `i`, then append its name. */
    method CheckStep(sheets: seq<Sheet>, i: nat, log: ErrorLog, ghost pre: seq<string>, ghost l0: seq<string>,
                     ghost n: nat, ghost fs: seq<Fault>) returns (ghost fs': seq<Fault>)
      requires Columns(sheets) && i < |sheets| && Checked(sheets, log, pre, i, l0, n, fs)
      modifies this`prjtList, this`prjtDefTitle, log`errList, log`errNameSize
      ensures Checked(sheets, log, pre, i + 1, l0, n, fs')
    {
      fs' := CheckSheet(sheets, i, log, l0, n, fs);
      prjtList := prjtList + [sheets[i].prjtName];
      NamesSnoc(sheets, i);
    }

    /** The two checks of sheet `i`, recorded through `WriteErrCell`; the
        main definition is taken from the first sheet. */
    method CheckSheet(sheets: seq<Sheet>, i: nat, log: ErrorLog, ghost l0: seq<string>, ghost n: nat,
                      ghost fs: seq<Fault>) returns (ghost fs': seq<Fault>)
      requires i < |sheets| && Columns(sheets)
      requires i > 0 ==> prjtDefTitle == sheets[0].prjtDef
      requires Logged(log, l0, n, fs)
      modifies this`prjtDefTitle, log`errList, log`errNameSize
      ensures fs' == fs + DefFault(sheets, i) + NameFault(sheets, i, prjtList)
      ensures prjtDefTitle == sheets[0].prjtDef
      ensures Logged(log, l0, n, fs')
    {
      if i == 0 {
        prjtDefTitle := sheets[i].prjtDef;
      }
      ghost var mid := CheckDef(sheets, i, prjtDefTitle, log, l0, n, fs);
      fs' := CheckName(sheets, i, prjtList, log, l0, n, mid);
    }

    /** The check of sheet `i`'s definition against `defTitle`, the first sheet's. */
    static method CheckDef(sheets: seq<Sheet>, i: nat, defTitle: string, log: ErrorLog,
                           ghost l0: seq<string>, ghost n: nat, ghost fs: seq<Fault>) returns (ghost fs': seq<Fault>)
      requires i < |sheets| && Columns(sheets) && defTitle == sheets[0].prjtDef
      requires Logged(log, l0, n, fs)
      modifies log`errList, log`errNameSize
      ensures fs' == fs + DefFault(sheets, i) && Logged(log, l0, n, fs')
    {
      var s := sheets[i];
      fs' := fs;
      if |sheets| > 1 && s.prjtDef == "" {
        fs' := Record(log, Fault(s.name, PrjtEmpty, s.prjtRow, s.prjtCol + PrjtDefCol), l0, n, fs');
      } else if i > 0 && defTitle != s.prjtDef {
        fs' := Record(log, Fault(s.name, PrjtNotSame, s.prjtRow, s.prjtCol + PrjtDefCol), l0, n, fs');
      }
    }

    /** The check of sheet `i`'s project name against `seen`, `PrjtList` so far. */
    static method CheckName(sheets: seq<Sheet>, i: nat, seen: seq<string>, log: ErrorLog,
                            ghost l0: seq<string>, ghost n: nat, ghost fs: seq<Fault>) returns (ghost fs': seq<Fault>)
      requires i < |sheets| && Columns(sheets)
      requires Logged(log, l0, n, fs)
      modifies log`errList, log`errNameSize
      ensures fs' == fs + NameFault(sheets, i, seen) && Logged(log, l0, n, fs')
    {
      var s := sheets[i];
      fs' := fs;
      if |sheets| > 1 && s.prjtName == "" {
        fs' := Record(log, Fault(s.name, PrjtEmpty, s.prjtRow, s.prjtCol + PrjtNameCol), l0, n, fs');
      } else if i > 0 && s.prjtName in seen {
        fs' := Record(log, Fault(s.name, PrjtSame, s.prjtRow, s.prjtCol + PrjtNameCol), l0, n, fs');
      }
    }

    /** `Info.WriteErrCell` for one fault: one more line in the log. */
    static method Record(log: ErrorLog, f: Fault, ghost l0: seq<string>, ghost n: nat, ghost fs: seq<Fault>)
      returns (ghost fs': seq<Fault>)
      requires f.col < 1436032 && Logged(log, l0, n, fs)
      modifies log`errList, log`errNameSize
      ensures fs' == fs + [f] && Logged(log, l0, n, fs')
    {
      log.WriteErrCell(f.err, f.sheet, f.row, f.col);
      FaultSnoc(fs, f, n);
      fs' := fs + [f];
    }

    /** `make_code_title(lb, title)` on the source (`toSrc`) or header list. */
    method MakeCodeTitle(toSrc: bool, title: string)
      modifies this`src, this`hdr
      ensures Out(toSrc) == old(Out(toSrc)) + TitleLines(old(Out(toSrc)), title)
      ensures Out(!toSrc) == old(Out(!toSrc))
    {
      if EndsWith(title, EndPrjtName) {
        return;
      }
      var name := ShownTitle(title);
      var lb := Out(toSrc);
      var emptyLine := false;
      if |lb| > 0 && lb[|lb| - 1] == "" {
        emptyLine := true;
      }
      var lines: seq<string> := [];
      if !emptyLine {
        lines := lines + [""];
      }
      lines := lines + [StartAnnotation[1], "\t" + name, EndAnnotation[1]];
      AddItems(toSrc, lines);
    }

    /** `make_conv_info_code(source_file_name)`: the same banner, dated
        `date`, is added to both files. */
    method MakeConvInfoCode(log: ErrorLog, date: string, sourceFileName: string)
      modifies this`src, this`hdr
      ensures src == old(src) + ConvInfo(date, sourceFileName, log.errList, log.errNameSize)
      ensures hdr == old(hdr) + ConvInfo(date, sourceFileName, log.errList, log.errNameSize)
    {
      var head := ConvHeadLines(date, sourceFileName);
      var errLines := ErrSection(log.errList, log.errNameSize);
      var lines := head + errLines + ["*/", ""];
      AddItems(true, lines);
      AddItems(false, lines);
    }

    /** The opening lines of the banner. */
    static method ConvHeadLines(date: string, sourceFileName: string) returns (lines: seq<string>)
      ensures lines == ConvHead(date, sourceFileName)
    {
      var fileName := sourceFileName;
      if fileName == "" {
        fileName := "Unknown Source File";
      } else {
        fileName := DbManager.BaseName(fileName);
      }
      lines := ["/*", "\t" + ConvTitle, ConvStart + DateLabel + date,
                ConvStart + FileLabel + fileName, ConvStart + ErrListLabel];
    }

    /** The error section of the banner, one message at a time. */
    static method ErrSection(errs: seq<string>, nameSize: nat) returns (lines: seq<string>)
      ensures lines == ErrSectionLines(errs, nameSize)
    {
      if |errs| == 0 {
        return [NoErrLine];
      }
      lines := [CountLine(|errs|)];
      var shown := errs[..Min(ErrShownMax, |errs|)];
      var i := 0;
      while i < |shown|
        invariant 0 <= i <= |shown|
        invariant lines == [CountLine(|errs|)] + ErrShown(shown[..i], nameSize)
      {
        var line := "\t\t  " + FormatErr(shown[i], nameSize);
        lines := lines + [line];
        assert shown[..i + 1][..i] == shown[..i];
        assert ErrShown(shown[..i + 1], nameSize) == ErrShown(shown[..i], nameSize) + [line];
        i := i + 1;
      }
      assert shown[..i] == shown;
      var more := if |errs| > ErrShownMax then [MoreErrLine] else [];
      lines := lines + more;
    }

    /** `make_include_code(is_src, lb, target_file_name)` with `lb` the
        source list when `isSrc` and the header list otherwise. */
    method MakeIncludeCode(isSrc: bool, target: string)
      modifies this`src, this`hdr
      ensures isSrc ==> src == old(src) + SrcIncludes(old(src), hFile, sIncl, target) && hdr == old(hdr)
      ensures !isSrc ==> hdr == old(hdr) + HdrIncludes(old(hdr), hFile, hIncl) && src == old(src)
    {
      if isSrc {
        SrcIncludeCode(target);
        Assoc4(old(src), TitleLines(old(src), IncludesTitle), OwnInclude(hFile, target),
               ExtraIncludes(hFile, sIncl, target));
      } else {
        HdrIncludeCode();
        Assoc4(old(hdr), Guard(hFile), TitleLines(old(hdr) + Guard(hFile), IncludesTitle), HdrExtra(hIncl));
      }
    }

    /** The source branch of `make_include_code`. */
    method SrcIncludeCode(target: string)
      modifies this`src, this`hdr
      ensures src == old(src) + TitleLines(old(src), IncludesTitle) + OwnInclude(hFile, target)
                     + ExtraIncludes(hFile, sIncl, target)
      ensures hdr == old(hdr)
    {
      MakeCodeTitle(true, IncludesTitle);
      var own, extra := SrcIncludeParts(hFile, sIncl, target);
      AddItems(true, own);
      AddItems(true, extra);
    }

    /** The source's own `#include` (for the target's header when a target
        is given, else for the header file) and its extra includes. */
    static method SrcIncludeParts(hFile: string, sIncl: string, target: string)
      returns (own: seq<string>, extra: seq<string>)
      ensures own == OwnInclude(hFile, target) && extra == ExtraIncludes(hFile, sIncl, target)
    {
      own := [];
      if target != "" {
        own := [Quote(TargetHeader(target))];
      } else if hFile != "" {
        own := [Quote(hFile)];
      }
      extra := [];
      if sIncl != "" {
        var ownName := if target != "" then TargetHeader(target) else hFile;
        extra := IncludeLines(NonBlank(Split(sIncl, "\r\n")), ownName);
      }
    }

    /** `#include "<inc>"` for each entry other than `own`, in order. */
    static method IncludeLines(incs: seq<string>, own: string) returns (lines: seq<string>)
      ensures lines == SkipOwn(incs, own)
    {
      lines := [];
      var j := 0;
      while j < |incs|
        invariant 0 <= j <= |incs|
        invariant lines == SkipOwn(incs[..j], own)
      {
        if incs[j] != own {
          lines := lines + [Quote(incs[j])];
        }
        assert incs[..j + 1][..j] == incs[..j];
        j := j + 1;
      }
      assert incs[..j] == incs;
    }

    /** The header branch of `make_include_code`: the guard, the title and
        the joined extra includes. */
    method HdrIncludeCode()
      modifies this`src, this`hdr
      ensures hdr == old(hdr) + Guard(hFile) + TitleLines(old(hdr) + Guard(hFile), IncludesTitle) + HdrExtra(hIncl)
      ensures src == old(src)
    {
      ghost var h0 := hdr;
      var g := HdrUpperName(hFile);
      AddItems(false, ["#ifndef " + g, "#define " + g]);
      ghost var h1 := hdr;
      MakeCodeTitle(false, IncludesTitle);
      ghost var h2 := hdr;
      AddItems(false, HdrExtra(hIncl));
      assert h1 == h0 + Guard(hFile);
    }

    /** `make_end_code`: the closing banner in both files, and in the
        header first the `#endif` of its guard. */
    method MakeEndCode()
      modifies this`src, this`hdr
      ensures src == old(src) + SrcEnd() && hdr == old(hdr) + HdrEnd(hFile)
    {
      AddItems(true, ["", StartAnnotation[0], EndOfFile, EndAnnotation[0]]);
      AddItems(false, ["", "#endif /* #ifndef " + HdrUpperName(hFile) + " */", "", StartAnnotation[0],
                       EndOfFile, EndAnnotation[0]]);
    }

    /** `make_cal_list_code`: for each title in `titleList` order, its
        banner and its code blocks in the files its `MkFile` names. */
    method MakeCalListCode(sheets: seq<Sheet>, titles: seq<(string, MkFile)>)
      requires prjtDefTitle != "" ==> |prjtList| > 0
      modifies this`src, this`hdr
      ensures (src, hdr) == CalListCode(Run(sheets, prjtList, prjtDefTitle), titles, (old(src), old(hdr)))
    {
      ghost var r := Run(sheets, prjtList, prjtDefTitle);
      var i := 0;
      while i < |titles|
        invariant 0 <= i <= |titles|
        invariant (src, hdr) == CalListCode(r, titles[..i], (old(src), old(hdr)))
      {
        MakeTitleCode(sheets, titles[i].0, titles[i].1);
        assert titles[..i + 1][..i] == titles[..i];
        i := i + 1;
      }
      assert titles[..i] == titles;
    }

    /** One title of `make_cal_list_code`: the scan for non-`COMMON` code,
        the banners, the per-sheet buffers and their closing lines. */
    method MakeTitleCode(sheets: seq<Sheet>, t: string, mk: MkFile)
      requires prjtDefTitle != "" ==> |prjtList| > 0
      modifies this`src, this`hdr
      ensures (src, hdr) == TitleStep(Run(sheets, prjtList, prjtDefTitle), t, mk, (old(src), old(hdr)))
    {
      ghost var r := Run(sheets, prjtList, prjtDefTitle);
      var hasSrc, hasHdr := ScanNonCommon(sheets, t);
      Banners(t, mk);
      var srcBuf, hdrBuf := SheetBuffers(sheets, t, hasSrc, hasHdr);
      var srcOut := CloseBuffer(sheets, prjtList, prjtDefTitle, t, true, hasSrc, srcBuf);
      var hdrOut := CloseBuffer(sheets, prjtList, prjtDefTitle, t, false, hasHdr, hdrBuf);
      AddItems(true, srcOut);
      AddItems(false, hdrOut);
    }

    /** The title's banner, in the header first, in each file its `MkFile`
        names. */
    method Banners(t: string, mk: MkFile)
      modifies this`src, this`hdr
      ensures src == if mk != Hdr then old(src) + TitleLines(old(src), t) else old(src)
      ensures hdr == if mk != Src then old(hdr) + TitleLines(old(hdr), t) else old(hdr)
    {
      if mk != Src {
        MakeCodeTitle(false, t);
      }
      if mk != Hdr {
        MakeCodeTitle(true, t);
      }
    }

    /** One buffer of a title with its closing lines: `#else` with an
        `#error` when no sheet is `DEFAULT`, then `#endif`, appended only when
        the buffer opened a conditional block. */
    static method CloseBuffer(sheets: seq<Sheet>, prjtList: seq<string>, defTitle: string, t: string,
                              toSrc: bool, has: bool, buf: seq<string>) returns (out: seq<string>)
      requires defTitle != "" ==> |prjtList| > 0
      requires has == AnyNonCommon(Run(sheets, prjtList, defTitle), t, toSrc, |sheets|)
      ensures out == buf + Closing(Run(sheets, prjtList, defTitle), t, toSrc, buf)
    {
      out := buf;
      if defTitle != "" && has && buf != [] {
        var elseLines: seq<string> := [];
        if ElsePrjtName !in prjtList {
          elseLines := elseLines + ["#else", "\t#error undefined " + defTitle + " MACRO", ""];
        }
        elseLines := elseLines + ["#endif", ""];
        out := buf + ([""] + elseLines);
      }
    }

    /** The first pass over the sheets: whether a non-`COMMON` sheet has
        code for `t` in the source and in the header. */
    method ScanNonCommon(sheets: seq<Sheet>, t: string) returns (hasSrc: bool, hasHdr: bool)
      ensures hasSrc == AnyNonCommon(Run(sheets, prjtList, prjtDefTitle), t, true, |sheets|)
      ensures hasHdr == AnyNonCommon(Run(sheets, prjtList, prjtDefTitle), t, false, |sheets|)
    {
      ghost var r := Run(sheets, prjtList, prjtDefTitle);
      hasSrc, hasHdr := false, false;
      var sht := 0;
      while sht < |sheets|
        invariant 0 <= sht <= |sheets|
        invariant hasSrc == AnyNonCommon(r, t, true, sht) && hasHdr == AnyNonCommon(r, t, false, sht)
      {
        var name := "";
        if |sheets| > 1 && sht < |prjtList| {
          name := prjtList[sht];
        }
        if |sheets| > 1 && name != CommPrjtName {
          if t in sheets[sht].src && sheets[sht].src[t] != [] {
            hasSrc := true;
          }
          if t in sheets[sht].hdr && sheets[sht].hdr[t] != [] {
            hasHdr := true;
          }
        }
        sht := sht + 1;
      }
    }

    /** The second pass: `src_buffer` and `hdr_buffer` over all sheets. */
    method SheetBuffers(sheets: seq<Sheet>, t: string, hasSrc: bool, hasHdr: bool)
      returns (srcBuf: seq<string>, hdrBuf: seq<string>)
      requires prjtDefTitle != "" ==> |prjtList| > 0
      requires hasSrc == AnyNonCommon(Run(sheets, prjtList, prjtDefTitle), t, true, |sheets|)
      requires hasHdr == AnyNonCommon(Run(sheets, prjtList, prjtDefTitle), t, false, |sheets|)
      ensures srcBuf == Blocks(Run(sheets, prjtList, prjtDefTitle), t, true, |sheets|)
      ensures hdrBuf == Blocks(Run(sheets, prjtList, prjtDefTitle), t, false, |sheets|)
    {
      ghost var r := Run(sheets, prjtList, prjtDefTitle);
      srcBuf, hdrBuf := [], [];
      var sht := 0;
      while sht < |sheets|
        invariant 0 <= sht <= |sheets|
        invariant srcBuf == Blocks(r, t, true, sht) && hdrBuf == Blocks(r, t, false, sht)
      {
        var s1, h1 := SheetCode(sheets, t, sht, hasSrc, hasHdr);
        BlocksSnoc(r, t, true, sht);
        BlocksSnoc(r, t, false, sht);
        srcBuf, hdrBuf := srcBuf + s1, hdrBuf + h1;
        sht := sht + 1;
      }
    }

    /** The lines one sheet adds to each buffer: the opening directive when
        a conditional block is needed, then its code. */
    method SheetCode(sheets: seq<Sheet>, t: string, sht: nat, hasSrc: bool, hasHdr: bool)
      returns (s1: seq<string>, h1: seq<string>)
      requires sht < |sheets| && (prjtDefTitle != "" ==> |prjtList| > 0)
      requires hasSrc == AnyNonCommon(Run(sheets, prjtList, prjtDefTitle), t, true, |sheets|)
      requires hasHdr == AnyNonCommon(Run(sheets, prjtList, prjtDefTitle), t, false, |sheets|)
      ensures s1 == SheetLines(Run(sheets, prjtList, prjtDefTitle), t, true, sht)
      ensures h1 == SheetLines(Run(sheets, prjtList, prjtDefTitle), t, false, sht)
    {
      ghost var r := Run(sheets, prjtList, prjtDefTitle);
      var name, desc, srcList, hdrList, need := Decide(sheets, prjtList, prjtDefTitle, t, sht);
      var def := "";
      if need {
        def := OpenerOf(sheets, prjtList, prjtDefTitle, sht, name, desc);
      }
      var tab := if need then "\t" else "";
      s1 := FileLines(need && hasSrc && srcList != [], def, tab, srcList);
      SheetLinesOf(r, t, true, sht, need && hasSrc && srcList != [], def, tab);
      h1 := FileLines(need && hasHdr && hdrList != [], def, tab, hdrList);
      SheetLinesOf(r, t, false, sht, need && hasHdr && hdrList != [], def, tab);
    }

    /** What `make_cal_list_code` reads for sheet `sht` before emitting it:
        its project name and description, its lines for each file and
        whether its block needs a directive. */
    static method Decide(sheets: seq<Sheet>, prjtList: seq<string>, defTitle: string, t: string, sht: nat)
      returns (name: string, desc: string, srcList: seq<string>, hdrList: seq<string>, need: bool)
      requires sht < |sheets|
      ensures name == NameAt(Run(sheets, prjtList, defTitle), sht)
      ensures desc == DescAt(Run(sheets, prjtList, defTitle), sht)
      ensures srcList == CodeAt(Run(sheets, prjtList, defTitle), t, true, sht)
      ensures hdrList == CodeAt(Run(sheets, prjtList, defTitle), t, false, sht)
      ensures need == Need(Run(sheets, prjtList, defTitle), t, sht)
    {
      name, desc := "", "";
      if |sheets| > 1 {
        if sht < |prjtList| {
          name := prjtList[sht];
        }
        desc := sheets[sht].prjtDesc;
      }
      srcList := if t in sheets[sht].src then sheets[sht].src[t] else [];
      hdrList := if t in sheets[sht].hdr then sheets[sht].hdr[t] else [];
      need := |sheets| > 1 && name != CommPrjtName && defTitle != "" && (srcList != [] || hdrList != []);
    }

    /** `def_str`: the directive opening sheet `sht`'s block. */
    static method OpenerOf(sheets: seq<Sheet>, prjtList: seq<string>, defTitle: string, sht: nat,
                           name: string, desc: string) returns (def: string)
      requires sht < |sheets| && (sht != 1 || |prjtList| > 0)
      requires name == NameAt(Run(sheets, prjtList, defTitle), sht)
      requires desc == DescAt(Run(sheets, prjtList, defTitle), sht)
      ensures def == Opener(Run(sheets, prjtList, defTitle), sht)
    {
      var ifdef := "";
      if sht == 0 || (sht == 1 && prjtList[0] == CommPrjtName) {
        ifdef := "#if (";
      } else if name == ElsePrjtName {
        ifdef := "#else";
      } else {
        ifdef := "#elif (";
      }
      if name == ElsePrjtName {
        def := ifdef;
      } else {
        def := ifdef + defTitle + " == " + name + ")";
        if desc != "" {
          if |def| % TabSize >= 3 {
            def := def + "\t";
          }
          def := def + "\t// " + desc;
        }
      }
    }

    /** One buffer's lines for one sheet: the opening lines when `open`,
        then the code after `tab`. */
    static method FileLines(open: bool, def: string, tab: string, code: seq<string>) returns (out: seq<string>)
      requires open ==> code != []
      ensures out == (if open then OpenLines(def, code) else []) + Body(tab, code)
    {
      var head: seq<string> := [];
      if open {
        head := ["", def];
        if !StartsWith(Strip(code[0]), "\r\n") {
          head := head + [""];
        }
      }
      out := AppendBody(head, tab, code);
    }

    /** `buf.append(f"{tab_str}{line.rstrip()}")` for each code line. */
    static method AppendBody(buf: seq<string>, tab: string, code: seq<string>) returns (out: seq<string>)
      ensures out == buf + Body(tab, code)
    {
      out := buf;
      var j := 0;
      while j < |code|
        invariant 0 <= j <= |code|
        invariant out == buf + Body(tab, code[..j])
      {
        out := out + [tab + RStrip(code[j])];
        assert code[..j + 1][..j] == code[..j];
        j := j + 1;
      }
      assert code[..j] == code;
    }
  }
}
