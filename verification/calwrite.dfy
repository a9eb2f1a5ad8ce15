/** The write phase of `CalList`: `writeCalList` turns one stored row into
    source and header text, `writeCode` appends that text line by line to
    the current title's code lists, and `ReadCalList` runs the rows of
    every title through them. Stated as functions on the part of the
    object's state the phase reads and changes. */
module CalWrite {
  import opened PyStr
  import opened Info
  import opened Arrays
  import opened DeclFormat
  import ArrMem
  import FloatSuffix
  import Prjt

  /** One stored row: opcode, keyword, type, name, value and description. */
  datatype Item = Item(op: string, key: string, typ: string, name: string, val: string, desc: string)

  /** How `writeCalList` ends for one row: it returns, it raises
      IndexError (the write loop catches it and goes on with the next row)
      or it raises KeyError (which ends `ReadCalList`). */
  datatype Outcome = Written | Skipped | Failed

  /** What stays fixed while the rows of a sheet are written: the sheet
      name, the alignment widths of the blocks (`ArrAlignList`) and the
      pragma-section keywords (`fi.dPragma`). */
  datatype Sheet = Sheet(name: string, aligns: seq<Widths>, pragmas: map<string, PragmaPair>)

  /** The fields the write phase reads and changes: `dSrcCode`, `dHdrCode`,
      `currentTitle`, the nesting of `$PRJT_DEF` levels, `mkFile`,
      `frontTab`, `alignCnt`, `arrNameCnt`, `currentArr` and `dArr`. */
  datatype Writer = Writer(
    src: map<string, seq<string>>, hdr: map<string, seq<string>>, title: string,
    nest: Prjt.Nest, mkFile: MkFile, frontTab: string, alignCnt: nat,
    arrNameCnt: nat, currentArr: string, arrs: map<string, ArrInfo>)

  /** The title rows before the first `$TITLE` row belong to. */
  const DefaultTitle: string := "TITLE+DEFAULT"

  /** The widths used when a block has no entry in `ArrAlignList`. */
  const DefaultWidths: Widths := Widths(15, 15, 15, 15)

  predicate IsTitle(m: MkMode) { m == TITLE || m == TITLE_S || m == TITLE_H }

  /** The modes whose row ends an alignment block: `saveTempList` closes
      the block's widths there and `writeCalList` moves on to the next. */
  predicate IsBoundary(m: MkMode)
  {
    IsTitle(m) || m == SUBTITLE || m == DESCRIPT || m == STR_DEF || m == ENUM_END || m == NONE || m == PRJT_DEF
  }

  /** `dOpCode[op]`, or NONE for an opcode the table does not have. */
  function ModeOf(op: string): (m: MkMode)
    ensures m != NONE <==> LookupOpCode(op).Some?
  {
    match LookupOpCode(op)
    case Some(m) => m
    case None => NONE
  }

  /** The value cell, with the `f` suffix added to the numbers of a
      non-empty `FLOAT32` value. */
  function ValueOf(it: Item): string
  {
    if it.typ == "FLOAT32" && it.val != "" then FloatSuffix.ApplyFloatSuffix(it.val) else it.val
  }

  /** The widths of block `n`, or the defaults past the last block. */
  function WidthsAt(aligns: seq<Widths>, n: nat): (w: Widths)
    ensures n < |aligns| ==> w == aligns[n]
    ensures n >= |aligns| ==> w == DefaultWidths
  {
    if n < |aligns| then aligns[n] else DefaultWidths
  }

  // ------------------------------------------------------------ writeCode

  /** Every list of `g` is still there in `r`, and `r`'s is `g`'s with
      lines appended. */
  predicate Extends(g: Writer, r: Writer)
  {
    (forall t :: t in g.src ==> t in r.src && g.src[t] <= r.src[t]) &&
    (forall t :: t in g.hdr ==> t in r.hdr && g.hdr[t] <= r.hdr[t])
  }

  /** An empty `currentTitle` becomes the default title, and both code
      tables get an empty list for the current title if they have none. */
  function Titled(g: Writer): (r: Writer)
    ensures r.title != "" && r.title in r.src && r.title in r.hdr
    ensures r.title == (if g.title == "" then DefaultTitle else g.title)
    ensures r.title in g.src ==> r.src == g.src
    ensures r.title !in g.src ==> r.src == g.src[r.title := []]
    ensures r.title in g.hdr ==> r.hdr == g.hdr
    ensures r.title !in g.hdr ==> r.hdr == g.hdr[r.title := []]
    ensures r.(src := g.src, hdr := g.hdr, title := g.title) == g
  {
    var t := if g.title == "" then DefaultTitle else g.title;
    g.(title := t,
       src := if t in g.src then g.src else g.src[t := []],
       hdr := if t in g.hdr then g.hdr else g.hdr[t := []])
  }

  /** Lines appended to the current title's source or header list. */
  function Append(g: Writer, toSrc: bool, lines: seq<string>): (r: Writer)
    requires g.title in g.src && g.title in g.hdr
    ensures r.title in r.src && r.title in r.hdr
    ensures toSrc ==> r == g.(src := g.src[g.title := g.src[g.title] + lines])
    ensures !toSrc ==> r == g.(hdr := g.hdr[g.title := g.hdr[g.title] + lines])
  {
    if toSrc then g.(src := g.src[g.title := g.src[g.title] + lines])
    else g.(hdr := g.hdr[g.title := g.hdr[g.title] + lines])
  }

  /** The indentation `writeCode` uses: for `$PRJT_DEF` rows one tab per
      enclosing level, otherwise the current `frontTab`. */
  function LineTab(g: Writer, mode: MkMode): string
  {
    if mode == PRJT_DEF then Prjt.Tabs(g.nest.depth) else g.frontTab
  }

  /** `writeCode(mode, code, src)`: a non-empty text (or any `$DESCRIPT`
      text) is appended line by line behind the indentation; after a
      `$PRJT_DEF` row inside an open level the indentation grows by a tab. */
  function WriteCode(g: Writer, mode: MkMode, code: string, toSrc: bool): (r: Writer)
    ensures Extends(g, r)
    ensures r.(src := g.src, hdr := g.hdr, title := g.title, frontTab := g.frontTab) == g
    ensures r.title == Titled(g).title
    ensures mode != PRJT_DEF ==> r.frontTab == g.frontTab
  {
    var g1 := Titled(g);
    var ft := LineTab(g1, mode);
    var g2 := g1.(frontTab := ft);
    var g3 := if code != "" || mode == DESCRIPT then Append(g2, toSrc, CodeLines(ft, code)) else g2;
    if mode == PRJT_DEF && g3.nest.current != "" then g3.(frontTab := ft + "\t") else g3
  }

  /** `WriteCode` as its two stages: the appended state `g3`, then the
      indentation left behind. */
  lemma WriteCodeStages(g: Writer, mode: MkMode, code: string, toSrc: bool, g3: Writer)
    requires var ft := LineTab(Titled(g), mode); var g2 := Titled(g).(frontTab := ft);
      g3 == if code != "" || mode == DESCRIPT then Append(g2, toSrc, CodeLines(ft, code)) else g2
    ensures var ft := LineTab(Titled(g), mode);
      WriteCode(g, mode, code, toSrc) == g3.(frontTab := if mode == PRJT_DEF && g3.nest.current != "" then ft + "\t" else ft)
  {
  }

  lemma ExtendsTrans(a: Writer, b: Writer, c: Writer)
    requires Extends(a, b) && Extends(b, c)
    ensures Extends(a, c)
  {
  }

  /** `writeCode` only appends: it keeps every list it finds, adds the
      lines of the text behind the indentation to the side it writes, and
      changes nothing but the code tables, the title and `frontTab`. */
  lemma WriteCodeAppends(g: Writer, mode: MkMode, code: string, toSrc: bool)
    ensures var r := WriteCode(g, mode, code, toSrc);
      Extends(g, r) && r.title == Titled(g).title &&
      r.(src := g.src, hdr := g.hdr, title := g.title, frontTab := g.frontTab) == g
    ensures var r := WriteCode(g, mode, code, toSrc);
      var t := Titled(g);
      var lines := if code != "" || mode == DESCRIPT then CodeLines(LineTab(t, mode), code) else [];
      (toSrc ==> r.src[r.title] == t.src[t.title] + lines && r.hdr == t.hdr) &&
      (!toSrc ==> r.hdr[r.title] == t.hdr[t.title] + lines && r.src == t.src)
  {
  }

  /** The indentation after a `$PRJT_DEF` row: one tab per enclosing level,
      and one more while a level is open under the current name. */
  lemma WriteCodeIndents(g: Writer, code: string, toSrc: bool)
    ensures WriteCode(g, PRJT_DEF, code, toSrc).frontTab ==
      Prjt.Tabs(g.nest.depth) + (if g.nest.current != "" then "\t" else "")
  {
  }

  // ------------------------------------------------------------ writeCalList

  /** What a mode does before `writeCode`: the source and header text it
      produced and the state it left, or the exception it raised with the
      state it had changed so far. */
  datatype Effect = Texts(g: Writer, src: string, hdr: string) | Stop(g: Writer, outcome: Outcome)

  /** The file a `$TITLE` row sends its group to: `$TITLE_S` only the source,
      `$TITLE_H` only the header, a plain `$TITLE` whose keyword names
      defines, types or macros only the header, any other both. */
  function TitleFile(mode: MkMode, key: string): (f: MkFile)
    ensures mode == TITLE_S ==> f == Src
    ensures mode == TITLE_H ==> f == Hdr
    ensures mode != TITLE_S && mode != TITLE_H ==>
      (f == Hdr <==> Contains(Upper(key), "DEFINE") || Contains(Upper(key), "TYPE") || Contains(Upper(key), "MACRO"))
    ensures mode != TITLE_S && f != Hdr ==> f == All
  {
    if mode == TITLE_S then Src
    else if mode == TITLE_H then Hdr
    else
      var u := Upper(key);
      if Contains(u, "DEFINE") || Contains(u, "TYPE") || Contains(u, "MACRO") then Hdr else All
  }

  /** The state a `$TITLE` row leaves: its own title and file choice, no
      open level and no indentation. */
  function Retitle(g: Writer, mode: MkMode, key: string): Writer
  {
    g.(mkFile := TitleFile(mode, key), nest := g.nest.(depth := -1, current := ""),
       frontTab := "", title := ModeName(mode) + "+" + key)
  }

  /** The open `$PRJT_DEF` levels closed in both files (behind a blank
      line unless the file already ends in one), or the IndexError raised
      by a level that cannot be closed. */
  function CloseLevels(g: Writer, name: string, es: bool, eh: bool): (r: Effect)
    requires g.title in g.src && g.title in g.hdr
    ensures Extends(g, r.g) && r.g.title == g.title && r.g.mkFile == g.mkFile
    ensures r.g.(src := g.src, hdr := g.hdr, nest := g.nest) == g
    ensures r.g.nest.depth == g.nest.depth && r.g.nest.current == g.nest.current
    ensures r.Texts? ==> r.src == "" && r.hdr == ""
    ensures r.Stop? ==> r.outcome == Skipped
    ensures Prjt.Valid(g.nest) ==> r.Texts? && Prjt.Valid(Prjt.Nest(r.g.nest.slots, -1, ""))
  {
    match Prjt.CloseForTitle(g.nest.slots, g.nest.depth, name)
    case TitleFault(s) => Stop(g.(nest := g.nest.(slots := s)), Skipped)
    case Closed(s, lines) =>
      var g1 := g.(nest := g.nest.(slots := s));
      assert Prjt.Valid(g.nest) ==> Prjt.Valid(Prjt.Nest(s, -1, "")) by {
        if Prjt.Valid(g.nest) {
          Prjt.TitleClosesValid(g.nest, name);
        }
      }
      var g2 := if g1.mkFile != Src then Append(g1, false, (if eh then [] else [""]) + lines) else g1;
      var g3 := if g2.mkFile != Hdr then Append(g2, true, (if es then [] else [""]) + lines) else g2;
      Texts(g3, "", "")
  }

  /** A `$TITLE` row closes every open `$PRJT_DEF` level and starts its
      group. */
  function TitleStep(g: Writer, mode: MkMode, it: Item, es: bool, eh: bool): (r: Effect)
    requires g.title in g.src && g.title in g.hdr
    ensures Extends(g, r.g) && r.g.alignCnt == g.alignCnt
    ensures r.Texts? ==> r.src == "" && r.hdr == "" && r.g.nest.depth == -1 && r.g.nest.current == ""
    ensures r.Texts? ==> r.g.frontTab == "" && r.g.title == ModeName(mode) + "+" + it.key
    ensures r.Texts? ==> r.g.mkFile == TitleFile(mode, it.key)
    ensures r.Stop? ==> r.outcome == Skipped
    ensures Prjt.Valid(g.nest) ==> r.Texts? && Prjt.Valid(r.g.nest)
  {
    if g.nest.depth < 0 then Texts(Retitle(g, mode, it.key), "", "")
    else match CloseLevels(g, it.name, es, eh)
      case Stop(g1, o) => Stop(g1, o)
      case Texts(g1, s, h) => Texts(Retitle(g1, mode, it.key), "", "")
  }

  /** The `dArr` key of the `n`-th array of the sheet named `name`. */
  function ArrayId(sheet: string, name: string, n: nat): string
  {
    sheet + "_" + name + "_" + NatToString(n)
  }

  /** An `$ARRAY` row: the next array of that name becomes the current one
      with its row count reset; a one-line table is written whole, any
      other gets its head and is made ready for its rows. A name without
      an array entry writes nothing. */
  function ArrayStep(sh: Sheet, g: Writer, it: Item, val: string, comment: string, w: Widths): (r: Effect)
    ensures r.g.(arrs := g.arrs, currentArr := g.currentArr, arrNameCnt := g.arrNameCnt) == g
  {
    var id := ArrayId(sh.name, it.name, g.arrNameCnt);
    if id !in g.arrs then Texts(g, "", "")
    else
      var ready := ArrayOpen(g.arrs[id].(rowCnt := 0), it, val, comment, w);
      Texts(g.(currentArr := id, arrNameCnt := g.arrNameCnt + 1, arrs := g.arrs[id := ready.0]),
            ready.1, ready.2)
  }

  /** The array entry, reset to its first row, and the two texts: a
      one-line table is written whole, any other gets its head and is made
      ready for its rows. */
  function ArrayOpen(a: ArrInfo, it: Item, val: string, comment: string, w: Widths): (r: (ArrInfo, string, string))
    ensures a.arrType == Type2 ==> r.0 == a
    ensures a.arrType != Type2 ==> r.0 == ArrMem.ReadyArrMake(a)
  {
    if a.arrType == Type2 then
      var lines := ArrayInlineLines(it.key, it.typ, it.name, val, comment, w);
      (a, lines.0, lines.1)
    else
      var lines := ArrayHeadLines(it.key, it.typ, it.name, comment);
      (ArrMem.ReadyArrMake(a), lines.0, lines.1)
  }

  /** An `$ARR_MEM` row writes the current array's next row to the source
      and counts it; without a current array it raises KeyError. */
  function ArrMemStep(g: Writer): (r: Effect)
    ensures r.g.(arrs := g.arrs) == g
  {
    if g.currentArr !in g.arrs then Stop(g, Failed)
    else
      var a := g.arrs[g.currentArr];
      if a.arrType == Type2 then Texts(g, "", "")
      else
        var counted := g.(arrs := g.arrs[g.currentArr := a.(rowCnt := a.rowCnt + 1)]);
        match ArrMem.WriteArrMem(a)
        case IndexFault => Stop(g, Skipped)
        case NoLine => Texts(counted, "", "")
        case Line(t) => Texts(counted, t, "")
  }

  /** `ArrMemStep` on an array written row by row, by the row's outcome. */
  lemma ArrMemStepLine(g: Writer)
    requires g.currentArr in g.arrs && g.arrs[g.currentArr].arrType != Type2
    ensures var a := g.arrs[g.currentArr]; var line := ArrMem.WriteArrMem(a);
      ArrMemStep(g) ==
        if line.IndexFault? then Stop(g, Skipped)
        else Texts(g.(arrs := g.arrs[g.currentArr := a.(rowCnt := a.rowCnt + 1)]), if line.Line? then line.text else "", "")
  {
  }

  /** A `$PRJT_DEF` row: the nesting machine's text, behind a blank line
      unless the file already ends in one. */
  function PrjtDefStep(g: Writer, it: Item, val: string, comment: string, es: bool, eh: bool): (r: Effect)
    ensures r.g.(nest := g.nest) == g
    ensures r.Texts? ==> r.src != ""
    ensures r.Stop? ==> r.outcome == Skipped
    ensures Prjt.Valid(g.nest) && it.name != "" && r.Texts? ==> Prjt.Valid(r.g.nest)
  {
    match Prjt.PrjtStep(g.nest, it.name, val, comment)
    case Fault(n) => Stop(g.(nest := n), Skipped)
    case Emit(n, t) =>
      EmitEndsLine(g.nest, it.name, val, comment);
      NamedKeepsValid(g.nest, it.name, val, comment);
      Texts(g.(nest := n), AfterBreak(es, t), AfterBreak(eh, t))
  }

  lemma NamedKeepsValid(n: Prjt.Nest, name: string, val: string, comment: string)
    ensures Prjt.Valid(n) && name != "" && Prjt.PrjtStep(n, name, val, comment).Emit? ==>
      Prjt.Valid(Prjt.PrjtStep(n, name, val, comment).nest)
  {
    if Prjt.Valid(n) && name != "" {
      Prjt.PrjtStepKeepsValid(n, name, val, comment);
    }
  }

  /** Every text of the nesting machine ends a line. */
  lemma EmitEndsLine(n: Prjt.Nest, name: string, val: string, comment: string)
    ensures Prjt.PrjtStep(n, name, val, comment).Emit? ==> EndsWith(Prjt.PrjtStep(n, name, val, comment).text, "\r\n")
  {
  }

  /** The modes that only produce text. */
  function PlainTexts(sh: Sheet, mode: MkMode, it: Item, val: string, comment: string, w: Widths, es: bool, eh: bool): (string, string)
  {
    match mode
    case SUBTITLE => (AfterBreak(es, SubtitleBlock(it.name)), AfterBreak(eh, SubtitleBlock(it.name)))
    case DESCRIPT =>
      if it.name != "" then (AfterBreak(es, DescriptLine(it.name)), AfterBreak(eh, DescriptLine(it.name))) else ("", "")
    case DEFINE => var t := DefineLine(it.name, val, comment, w.name, w.val); (t, t)
    case TYPEDEF => var t := TypedefLine(it.name, comment); (t, t)
    case STR_MEM => var t := StrMemLineCorrected(it.typ, it.name, val, comment, w); (t, t)
    case STR_DEF => var t := StrDefLine(it.name, comment); (t, t)
    case ENUM => var t := EnumLine(it.name, comment); (t, t)
    case ENUM_MEM => var t := EnumMemLine(it.name, val, comment, w.name, w.val); (t, t)
    case ENUM_END => var t := EnumEndLine(comment); (t, t)
    case VARIABLE => VariableLinesCorrected(it.key, it.typ, it.name, val, comment, w)
    case CODE => var t := CodeText(it.name); (t, t)
    case PRGM_SET => (WritePragma(sh.pragmas, true, it.key, es), WritePragma(sh.pragmas, true, it.key, eh))
    case PRGM_END => (WritePragma(sh.pragmas, false, it.key, es), WritePragma(sh.pragmas, false, it.key, eh))
    case _ => ("", "")
  }

  /** What the row's mode does, from the state with its title in place. */
  function ModeStep(sh: Sheet, g: Writer, mode: MkMode, it: Item, val: string, comment: string, w: Widths, es: bool, eh: bool): (r: Effect)
    requires g.title in g.src && g.title in g.hdr
    ensures Extends(g, r.g) && r.g.alignCnt == g.alignCnt
    ensures r.Stop? ==> r.outcome != Written
    ensures !IsTitle(mode) && mode != PRJT_DEF ==> r.g.nest == g.nest
    ensures Prjt.Valid(g.nest) && (mode == PRJT_DEF ==> it.name != "") && r.Texts? ==> Prjt.Valid(r.g.nest)
  {
    if IsTitle(mode) then TitleStep(g, mode, it, es, eh)
    else if mode == ARRAY then ArrayStep(sh, g, it, val, comment, w)
    else if mode == ARR_MEM then ArrMemStep(g)
    else if mode == PRJT_DEF then PrjtDefStep(g, it, val, comment, es, eh)
    else
      var t := PlainTexts(sh, mode, it, val, comment, w, es, eh);
      Texts(g, t.0, t.1)
  }

  /** The texts go to the files the current group writes, and a row that
      ends a block moves on to the next block's widths. */
  function Finish(g: Writer, mode: MkMode, s: string, h: string): (r: Writer)
    ensures Extends(g, r) && r.nest == g.nest && r.mkFile == g.mkFile
    ensures r.alignCnt == g.alignCnt + (if IsBoundary(mode) then 1 else 0)
    ensures g.title != "" ==> r.title == g.title
    ensures mode != PRJT_DEF ==> r.frontTab == g.frontTab
  {
    var g2 := Send(g, mode, s, h);
    g2.(alignCnt := if IsBoundary(mode) then g2.alignCnt + 1 else g2.alignCnt)
  }

  lemma FinishSends(g: Writer, mode: MkMode, s: string, h: string)
    ensures var g2 := Send(g, mode, s, h);
      Finish(g, mode, s, h) == g2.(alignCnt := if IsBoundary(mode) then g2.alignCnt + 1 else g2.alignCnt)
  {
  }

  /** The source text to the source file unless the group writes only the
      header, the header text to the header unless it writes only the
      source. */
  function Send(g: Writer, mode: MkMode, s: string, h: string): (r: Writer)
    ensures Extends(g, r) && r.nest == g.nest && r.mkFile == g.mkFile && r.alignCnt == g.alignCnt
    ensures g.title != "" ==> r.title == g.title
    ensures mode != PRJT_DEF ==> r.frontTab == g.frontTab
  {
    var g1 := if g.mkFile != Hdr then WriteCode(g, mode, s, true) else g;
    if g.mkFile != Src then WriteCode(g1, mode, h, false) else g1
  }

  /** The effect of a row written out: an exception ends the call with the
      state it left, texts go through `writeCode`. */
  function Conclude(g: Writer, mode: MkMode, e: Effect): (r: (Writer, Outcome))
    requires Extends(g, e.g) && e.g.alignCnt == g.alignCnt
    requires e.Stop? ==> e.outcome != Written
    ensures Extends(g, r.0) && r.0.nest == e.g.nest
    ensures r.0.alignCnt == g.alignCnt + (if r.1 == Written && IsBoundary(mode) then 1 else 0)
    ensures r.1 == Written <==> e.Texts?
    ensures e.Stop? ==> r == (e.g, e.outcome)
  {
    match e
    case Stop(g1, o) => (g1, o)
    case Texts(g1, s, h) =>
      ExtendsTrans(g, g1, Finish(g1, mode, s, h));
      (Finish(g1, mode, s, h), Written)
  }

  /** `writeCalList(item)`: the state after the row and how the call ended. */
  function WriteStep(sh: Sheet, g: Writer, it: Item): (r: (Writer, Outcome))
    ensures Extends(g, r.0) && Extends(Titled(g), r.0)
    ensures r.0.alignCnt == g.alignCnt + (if r.1 == Written && IsBoundary(ModeOf(it.op)) then 1 else 0)
    ensures Prjt.Valid(g.nest) && (ModeOf(it.op) == PRJT_DEF ==> it.name != "" && r.1 == Written) ==>
      Prjt.Valid(r.0.nest)
  {
    var g0 := Titled(g);
    var mode := ModeOf(it.op);
    var e := RowEffect(sh, g0, it);
    ExtendsTrans(g, g0, Conclude(g0, mode, e).0);
    Conclude(g0, mode, e)
  }

  /** What the row's mode does, given the value, comment, widths and
      blank-line flags `writeCalList` works out for it. */
  function RowEffect(sh: Sheet, g0: Writer, it: Item): (r: Effect)
    requires g0.title in g0.src && g0.title in g0.hdr
    ensures Extends(g0, r.g) && r.g.alignCnt == g0.alignCnt
    ensures r.Stop? ==> r.outcome != Written
    ensures Prjt.Valid(g0.nest) && (ModeOf(it.op) == PRJT_DEF ==> it.name != "") && r.Texts? ==> Prjt.Valid(r.g.nest)
  {
    ModeStep(sh, g0, ModeOf(it.op), it, ValueOf(it), Comment(it.desc), WidthsAt(sh.aligns, g0.alignCnt),
             ExistEmptyStr(g0.src[g0.title], 1), ExistEmptyStr(g0.hdr[g0.title], 1))
  }

  // ------------------------------------------------------------ properties of one row

  /** From a valid nesting a `$TITLE` row always returns: it closes every
      open level, leaves no level open and no indentation, and starts the
      group named after its mode and keyword. */
  lemma TitleRowCloses(sh: Sheet, g: Writer, it: Item)
    requires Prjt.Valid(g.nest) && IsTitle(ModeOf(it.op))
    ensures var r := WriteStep(sh, g, it);
      r.1 == Written && r.0.nest.depth == -1 && r.0.nest.current == "" && Prjt.Valid(r.0.nest) &&
      r.0.frontTab == "" && r.0.title == ModeName(ModeOf(it.op)) + "+" + it.key &&
      r.0.mkFile == TitleFile(ModeOf(it.op), it.key)
  {
    var g0 := Titled(g);
    var mode := ModeOf(it.op);
    var es := ExistEmptyStr(g0.src[g0.title], 1);
    var eh := ExistEmptyStr(g0.hdr[g0.title], 1);
    var e := TitleStep(g0, mode, it, es, eh);
    assert e.Texts?;
    assert ModeName(mode) != "";
  }

  /** A `$PRJT_DEF` row that returns writes the nesting machine's text
      indented by one tab per enclosing level; in the source file those
      are the lines appended, and the next rows are indented one level
      deeper while a level is open. */
  lemma PrjtRowIndents(sh: Sheet, g: Writer, it: Item)
    requires ModeOf(it.op) == PRJT_DEF && Titled(g).mkFile != Hdr
    requires Prjt.PrjtStep(Titled(g).nest, it.name, ValueOf(it), Comment(it.desc)).Emit?
    ensures var g0 := Titled(g);
      var e := Prjt.PrjtStep(g0.nest, it.name, ValueOf(it), Comment(it.desc));
      var r := WriteStep(sh, g, it);
      r.1 == Written && r.0.nest == e.nest &&
      r.0.title == g0.title && r.0.src[g0.title] == g0.src[g0.title] +
        CodeLines(Prjt.Tabs(e.nest.depth), AfterBreak(ExistEmptyStr(g0.src[g0.title], 1), e.text)) &&
      r.0.frontTab == Prjt.Tabs(e.nest.depth) + (if e.nest.current != "" then "\t" else "")
  {
    var g0 := Titled(g);
    var val, comment := ValueOf(it), Comment(it.desc);
    var es := ExistEmptyStr(g0.src[g0.title], 1);
    var eh := ExistEmptyStr(g0.hdr[g0.title], 1);
    var pe := Prjt.PrjtStep(g0.nest, it.name, val, comment);
    var e := PrjtDefStep(g0, it, val, comment, es, eh);
    assert e == Texts(g0.(nest := pe.nest), AfterBreak(es, pe.text), AfterBreak(eh, pe.text));
    WriteStepUnfold(sh, g, it);
    ModeStepPrjt(sh, g0, it, val, comment, WidthsAt(sh.aligns, g0.alignCnt), es, eh);
    ConcludeTexts(g0, PRJT_DEF, e);
    FinishPrjt(e.g, e.src, e.hdr);
  }

  lemma ModeStepPrjt(sh: Sheet, g: Writer, it: Item, val: string, comment: string, w: Widths, es: bool, eh: bool)
    requires g.title in g.src && g.title in g.hdr
    ensures ModeStep(sh, g, PRJT_DEF, it, val, comment, w, es, eh) == PrjtDefStep(g, it, val, comment, es, eh)
  {
    assert !IsTitle(PRJT_DEF) && PRJT_DEF != ARRAY && PRJT_DEF != ARR_MEM;
  }

  lemma WriteStepUnfold(sh: Sheet, g: Writer, it: Item)
    ensures var g0 := Titled(g);
      WriteStep(sh, g, it) == Conclude(g0, ModeOf(it.op),
        ModeStep(sh, g0, ModeOf(it.op), it, ValueOf(it), Comment(it.desc), WidthsAt(sh.aligns, g0.alignCnt),
                 ExistEmptyStr(g0.src[g0.title], 1), ExistEmptyStr(g0.hdr[g0.title], 1)))
  {
  }

  lemma ConcludeTexts(g: Writer, mode: MkMode, e: Effect)
    requires Extends(g, e.g) && e.g.alignCnt == g.alignCnt && e.Texts?
    ensures Conclude(g, mode, e) == (Finish(e.g, mode, e.src, e.hdr), Written)
  {
  }

  /** `writeCode` for both sides of a `$PRJT_DEF` row. */
  lemma FinishPrjt(g: Writer, s: string, h: string)
    requires g.title != "" && g.title in g.src && g.title in g.hdr && g.mkFile != Hdr && s != ""
    ensures var r := Finish(g, PRJT_DEF, s, h);
      r.src[g.title] == g.src[g.title] + CodeLines(Prjt.Tabs(g.nest.depth), s) &&
      r.frontTab == Prjt.Tabs(g.nest.depth) + (if g.nest.current != "" then "\t" else "")
  {
    var g1 := WriteCode(g, PRJT_DEF, s, true);
    WriteCodeAppends(g, PRJT_DEF, s, true);
    WriteCodeIndents(g, s, true);
    if g.mkFile != Src {
      WriteCodeAppends(g1, PRJT_DEF, h, false);
      WriteCodeIndents(g1, h, false);
    }
  }

  // ------------------------------------------------------------ the write loop

  /** `ReadCalList`'s loop over the stored rows: a row that raises
      IndexError is skipped, one that raises KeyError ends the loop. */
  function WriteAll(sh: Sheet, g: Writer, items: seq<Item>): (Writer, Outcome)
    decreases |items|
  {
    if items == [] then (g, Written)
    else
      var r := WriteStep(sh, g, items[0]);
      if r.1 == Failed then (r.0, Failed) else WriteAll(sh, r.0, items[1..])
  }

  /** The rows of every title, titles in the order they were first stored
      (the insertion order of `dTempCode`). */
  function Flatten(temp: map<string, seq<Item>>, order: seq<string>): seq<Item>
  {
    if order == [] then []
    else (if order[0] in temp then temp[order[0]] else []) + Flatten(temp, order[1..])
  }

  lemma FlattenCons(temp: map<string, seq<Item>>, order: seq<string>)
    requires order != []
    ensures Flatten(temp, order) == (if order[0] in temp then temp[order[0]] else []) + Flatten(temp, order[1..])
  {
  }

  /** The titles from the `k`-th on: the rows of the `k`-th, then the
      rows of the titles after it unless one raised KeyError. */
  lemma TitlesFrom(sh: Sheet, g: Writer, temp: map<string, seq<Item>>, order: seq<string>, k: nat)
    requires k < |order|
    ensures var rows := if order[k] in temp then temp[order[k]] else [];
      WriteAll(sh, g, Flatten(temp, order[k..])) ==
      (var r := WriteAll(sh, g, rows); if r.1 == Failed then r else WriteAll(sh, r.0, Flatten(temp, order[k + 1..])))
  {
    FlattenCons(temp, order[k..]);
    assert order[k..][0] == order[k] && order[k..][1..] == order[k + 1..];
    WriteAllAppend(sh, g, if order[k] in temp then temp[order[k]] else [], Flatten(temp, order[k + 1..]));
  }

  /** The first row written, then the rest unless it raised KeyError. */
  lemma WriteAllCons(sh: Sheet, g: Writer, items: seq<Item>)
    requires items != []
    ensures WriteAll(sh, g, items) ==
      (var r := WriteStep(sh, g, items[0]); if r.1 == Failed then (r.0, Failed) else WriteAll(sh, r.0, items[1..]))
  {
  }

  /** Where the loop stands after a row that returned `o`: finished on
      KeyError, otherwise the rest still to write. */
  function Resume(sh: Sheet, g: Writer, o: Outcome, items: seq<Item>): (Writer, Outcome)
  {
    if o == Failed then (g, Failed) else WriteAll(sh, g, items)
  }

  /** With no rows left, nothing is written and the outcome is `Written`. */
  lemma NoRowsLeft(sh: Sheet, g: Writer, items: seq<Item>)
    requires items == []
    ensures WriteAll(sh, g, items) == (g, Written)
  {
  }

  /** With no titles left, nothing is written and the outcome is `Written`. */
  lemma NoTitlesLeft(sh: Sheet, g: Writer, temp: map<string, seq<Item>>, order: seq<string>)
    requires order == []
    ensures WriteAll(sh, g, Flatten(temp, order)) == (g, Written)
  {
  }

  /** The rows from `i` on: row `i`, then the rest unless it failed. */
  lemma WriteAllFrom(sh: Sheet, g: Writer, items: seq<Item>, i: nat)
    requires i < |items|
    ensures var r := WriteStep(sh, g, items[i]);
      WriteAll(sh, g, items[i..]) == Resume(sh, r.0, r.1, items[i + 1..])
  {
    WriteAllCons(sh, g, items[i..]);
    assert items[i..][0] == items[i];
    assert items[i..][1..] == items[i + 1..];
  }

  /** Once row `i` has left `g1` and `o`, the rows from `i` on are what is
      left of the loop resumed from the next row. */
  lemma ResumeAfter(sh: Sheet, g: Writer, items: seq<Item>, i: nat, g1: Writer, o: Outcome)
    requires i < |items| && (g1, o) == WriteStep(sh, g, items[i])
    ensures WriteAll(sh, g, items[i..]) == Resume(sh, g1, o, items[i + 1..])
  {
    WriteAllFrom(sh, g, items, i);
  }

  /** Writing two runs of rows one after the other is writing them joined. */
  lemma {:induction false} WriteAllAppend(sh: Sheet, g: Writer, a: seq<Item>, b: seq<Item>)
    ensures WriteAll(sh, g, a + b) ==
      (var r := WriteAll(sh, g, a); if r.1 == Failed then r else WriteAll(sh, r.0, b))
    decreases |a|
  {
    if a == [] {
      assert a + b == b;
    } else {
      assert (a + b)[0] == a[0] && (a + b)[1..] == a[1..] + b;
      var r := WriteStep(sh, g, a[0]);
      if r.1 != Failed {
        WriteAllAppend(sh, r.0, a[1..], b);
      }
    }
  }

  /** The loop only ever appends to the code tables. */
  lemma {:induction false} WriteAllExtends(sh: Sheet, g: Writer, items: seq<Item>)
    ensures Extends(g, WriteAll(sh, g, items).0)
    decreases |items|
  {
    if items != [] {
      var r := WriteStep(sh, g, items[0]);
      if r.1 != Failed {
        WriteAllExtends(sh, r.0, items[1..]);
        ExtendsTrans(g, r.0, WriteAll(sh, r.0, items[1..]).0);
      }
    }
  }

  /** Whether every row of a run returns. */
  predicate AllWritten(sh: Sheet, g: Writer, items: seq<Item>)
    decreases |items|
  {
    items == [] ||
    (var r := WriteStep(sh, g, items[0]); r.1 == Written && AllWritten(sh, r.0, items[1..]))
  }

  /** The number of rows of a run that end a block. */
  function Boundaries(items: seq<Item>): (n: nat)
    ensures n <= |items|
  {
    if items == [] then 0 else (if IsBoundary(ModeOf(items[0].op)) then 1 else 0) + Boundaries(items[1..])
  }

  /** When every row returns, each reports that it was written and the
      block counter has moved on once per row that ends a block. */
  lemma {:induction false} WriteAllAlign(sh: Sheet, g: Writer, items: seq<Item>)
    requires AllWritten(sh, g, items)
    ensures WriteAll(sh, g, items).0.alignCnt == g.alignCnt + Boundaries(items)
    ensures WriteAll(sh, g, items).1 == Written
    decreases |items|
  {
    if items != [] {
      var r := WriteStep(sh, g, items[0]);
      assert r.1 == Written && AllWritten(sh, r.0, items[1..]);
      WriteAllAlign(sh, r.0, items[1..]);
      assert WriteAll(sh, g, items) == WriteAll(sh, r.0, items[1..]);
    }
  }
}
