/** The `CalList` object: what one sheet's code generation keeps between
    rows. The write-phase methods are proved to do what the `CalWrite`
    functions say about the same state. */
module CalLists {
  import opened PyStr
  import opened Info
  import opened Arrays
  import opened DeclFormat
  import ArrMem
  import Prjt
  import opened CalWrite
  import opened CalRead

  class CalList {
    const shtName: string
    const shtData: Grid
    /** `fi.dPragma`: the pragma-section keywords of the project. */
    const dPragma: map<string, PragmaPair>
    const log: ErrorLog

    var cellCache: map<(int, int), string>
    /** The stored rows per title; `tempOrder` is the order in which the
        titles were first stored. */
    var dTempCode: map<string, seq<Item>>
    var tempOrder: seq<string>
    var dSrcCode: map<string, seq<string>>
    var dHdrCode: map<string, seq<string>>
    var dArr: map<string, ArrInfo>
    var prjtList: seq<PrjtInfo>
    var arrAlignList: seq<Widths>
    var pragSet: bool
    var itemLength: Widths
    var prjtDepth: int
    var alignCnt: nat
    var arrNameCnt: nat
    var frontTab: string
    var currentArr: string
    var currentTitle: string
    var currentPRGM: string
    var currentPrjtDef: string
    var mkFile: MkFile
    var mkMode: MkMode
    var mkModeOld: MkMode

    /** `CalList.__init__` for one sheet. */
    constructor (shtName: string, shtData: Grid, dPragma: map<string, PragmaPair>, log: ErrorLog)
      ensures this.shtName == shtName && this.shtData == shtData && this.dPragma == dPragma && this.log == log
      ensures Writing() == Writer(map[], map[], "", Prjt.Initial(), All, "", 0, 0, "", map[])
      ensures cellCache == map[] && dTempCode == map[] && tempOrder == [] && arrAlignList == []
      ensures !pragSet && itemLength == Widths(0, 0, 0, 0) && currentPRGM == ""
      ensures mkMode == NONE && mkModeOld == NONE
    {
      this.shtName := shtName;
      this.shtData := shtData;
      this.dPragma := dPragma;
      this.log := log;
      cellCache := map[];
      dTempCode := map[];
      tempOrder := [];
      dSrcCode := map[];
      dHdrCode := map[];
      dArr := map[];
      prjtList := seq(Prjt.Levels, _ => PrjtInfo("", []));
      arrAlignList := [];
      pragSet := false;
      itemLength := Widths(0, 0, 0, 0);
      prjtDepth := -1;
      alignCnt := 0;
      arrNameCnt := 0;
      frontTab := "";
      currentArr := "";
      currentTitle := "";
      currentPRGM := "";
      currentPrjtDef := "";
      mkFile := All;
      mkMode := NONE;
      mkModeOld := NONE;
    }

    /** `prjtList`, `prjtDepth` and `currentPrjtDef`. */
    function Nesting(): Prjt.Nest
      reads this`prjtList, this`prjtDepth, this`currentPrjtDef
    {
      Prjt.Nest(prjtList, prjtDepth, currentPrjtDef)
    }

    /** The fields the write phase reads and changes. */
    function Writing(): Writer
      reads this`dSrcCode, this`dHdrCode, this`currentTitle, this`prjtList, this`prjtDepth, this`currentPrjtDef
      reads this`mkFile, this`frontTab, this`alignCnt, this`arrNameCnt, this`currentArr, this`dArr
    {
      Writer(dSrcCode, dHdrCode, currentTitle, Nesting(), mkFile, frontTab, alignCnt, arrNameCnt, currentArr, dArr)
    }

    /** What stays fixed while the rows are written. */
    function SheetInfo(): Sheet
      reads this`arrAlignList
    {
      Sheet(shtName, arrAlignList, dPragma)
    }

    /** The state is the one a mode's effect left, and the method reports
        that effect: the exception it raised, or the texts it produced. */
    predicate Effected(e: Effect, stop: Option<Outcome>, s: string, h: string)
      reads this`dSrcCode, this`dHdrCode, this`currentTitle, this`prjtList, this`prjtDepth, this`currentPrjtDef
      reads this`mkFile, this`frontTab, this`alignCnt, this`arrNameCnt, this`currentArr, this`dArr
    {
      Writing() == e.g &&
      (e.Stop? ==> stop == Some(e.outcome)) &&
      (e.Texts? ==> stop == None && s == e.src && h == e.hdr)
    }

    // ---------------------------------------------------------- reading the sheet

    /** The fields `saveTempList` and `setPragmaSection` read and change. */
    function Saving(): Saver
      reads this`dTempCode, this`tempOrder, this`currentTitle, this`currentPRGM, this`itemLength, this`arrAlignList
    {
      Saver(dTempCode, tempOrder, currentTitle, currentPRGM, itemLength, arrAlignList)
    }

    /** `cached_read_cell(row, col)` */
    method CachedReadCell(row: int, col: int) returns (v: string)
      requires |cellCache| <= CacheLimit
      modifies this`cellCache
      ensures (v, cellCache) == CacheLookup(old(cellCache), shtData, row, col)
    {
      if (row, col) in cellCache {
        return cellCache[(row, col)];
      }
      v := ReadCell(shtData, row, col);
      if |cellCache| < CacheLimit {
        cellCache := cellCache[(row, col) := v];
      }
    }

    /** The prefetch of `process_batch_vectorized`: every cell of the rows
        `start` up to `end` in the columns `cols` goes into the cache while
        it has room, as `Info.ReadCell` reads it. */
    method PrefetchBatch(start: nat, end: nat, cols: seq<nat>)
      modifies this`cellCache
      ensures cellCache == PrefetchRows(old(cellCache), shtData, start, end, cols)
    {
      var row := start;
      while row < end
        invariant start <= row || end <= start
        invariant PrefetchRows(old(cellCache), shtData, start, end, cols) == PrefetchRows(cellCache, shtData, row, end, cols)
        decreases end - row
      {
        PrefetchRowOf(row, cols);
        row := row + 1;
      }
    }

    /** The cells of one row of the prefetch. */
    method PrefetchRowOf(row: nat, cols: seq<nat>)
      modifies this`cellCache
      ensures cellCache == PrefetchRow(old(cellCache), shtData, row, cols)
    {
      var j := 0;
      while j < |cols|
        invariant 0 <= j <= |cols|
        invariant PrefetchRow(old(cellCache), shtData, row, cols) == PrefetchRow(cellCache, shtData, row, cols[j..])
      {
        var col := cols[j];
        if (row, col) !in cellCache && |cellCache| < PrefetchLimit {
          cellCache := cellCache[(row, col) := ReadCell(shtData, row, col)];
        }
        assert cols[j..][1..] == cols[j + 1..];
        j := j + 1;
      }
    }

    /** `chk_op_code`: the opcode cell read through the cache sets the
        mode; a non-empty cell that is no opcode is reported. */
    method ChkOpCode(row: nat, col: nat) returns (op: string)
      requires |cellCache| <= CacheLimit && col < 1436032
      modifies this`cellCache, this`mkMode, this`mkModeOld, log`errList, log`errNameSize
      ensures (op, cellCache) == CacheLookup(old(cellCache), shtData, row, col)
      ensures mkMode == ModeOf(op) && mkModeOld == mkMode
      ensures log.errList == old(log.errList) + if OpCodeFault(op) then ["  " + CellRef(shtName, row, col) + ErrText(OpCode)] else []
      ensures log.errNameSize == if OpCodeFault(op) then Max(old(log.errNameSize), Utf8Len(CellRef(shtName, row, col))) else old(log.errNameSize)
    {
      op := CachedReadCell(row, col);
      var m := LookupOpCode(op);
      if m.Some? {
        mkMode := m.value;
      } else {
        mkMode := NONE;
        if op != "" {
          log.WriteErrCell(OpCode, shtName, row, col);
        }
      }
      mkModeOld := mkMode;
    }

    /** The loop of `setPragmaSection` that counts the heading rows at the
        end of `lst`, looking each opcode up in the table. */
    method TrailingHeadings(lst: seq<Item>) returns (cnt: nat)
      ensures cnt == HeadingRun(lst)
    {
      cnt := 0;
      var i := |lst|;
      while i > 0 && IsHeading(ModeOf(lst[i - 1].op))
        invariant 0 <= i <= |lst| && cnt == |lst| - i
        invariant forall j | i <= j < |lst| :: lst[j].op in HeadingOps
      {
        HeadingOpsMode(lst[i - 1].op);
        cnt := cnt + 1;
        i := i - 1;
      }
      if i > 0 {
        HeadingOpsMode(lst[i - 1].op);
      }
      HeadingRunUnique(lst, cnt);
    }

    /** `setPragmaSection(key)`: `ok` is false where it raises KeyError,
        and then nothing has changed. */
    method SetPragmaSection(key: string) returns (ok: bool)
      modifies this`dTempCode, this`currentPRGM
      ensures var r := PragmaStep(old(Saving()), dPragma, pragSet, mkMode, key);
        ok == r.Some? && Saving() == if ok then r.value else old(Saving())
    {
      if pragSet || (currentPRGM == key && mkMode != PRGM_SET) || (key !in dPragma && currentPRGM !in dPragma) {
        return true;
      }
      if currentPRGM in dPragma {
        if currentTitle !in dTempCode {
          return false;
        }
        CloseOpenSection();
      }
      if key in dPragma && mkMode != PRGM_SET {
        if currentTitle !in dTempCode {
          return false;
        }
        dTempCode := dTempCode[currentTitle := dTempCode[currentTitle] + [PragmaItem("$PRGM_SET", key)]];
        currentPRGM := key;
      }
      ok := true;
    }

    /** The open section closed: its `$PRGM_END` row goes in before the
        trailing headings of the current title. */
    method CloseOpenSection()
      requires currentTitle in dTempCode
      modifies this`dTempCode, this`currentPRGM
      ensures Saving() == CloseSection(old(Saving()))
    {
      var lst := dTempCode[currentTitle];
      var cnt := TrailingHeadings(lst);
      var k := |lst| - cnt;
      dTempCode := dTempCode[currentTitle := lst[..k] + [PragmaItem("$PRGM_END", currentPRGM)] + lst[k..]];
      currentPRGM := "";
    }

    /** `saveTempList(row)` for the row `it` read in the mode `mkMode`:
        `ok` is false where it raises KeyError, and the state is the one
        reached there. */
    method SaveTempList(it: Item) returns (ok: bool)
      modifies this`dTempCode, this`tempOrder, this`currentTitle, this`currentPRGM, this`itemLength, this`arrAlignList
      ensures var r := SaveStep(old(Saving()), dPragma, pragSet, mkMode, it, ArrTypeOf(dArr, currentArr));
        ok == r.Saved? && Saving() == r.s
    {
      ghost var s0 := Saving();
      if IsTitle(mkMode) {
        currentTitle := ModeName(mkMode) + "+" + it.key;
      }
      ghost var s1 := Saving();
      assert s1 == SaveTitle(s0, mkMode, it.key);
      if mkMode == VARIABLE || mkMode == ARRAY || IsTitle(mkMode) {
        ok := SetPragmaSection(it.key);
        if !ok {
          return;
        }
      }
      ghost var s2 := Saving();
      SaveStepAfterPragma(s0, dPragma, pragSet, mkMode, it, ArrTypeOf(dArr, currentArr), s2);
      ok := StoreAndAlign(it);
    }

    /** The end of `saveTempList`: the row stored, then the widths of its
        block; KeyError for an `$ARRAY` row whose array has no entry. */
    method StoreAndAlign(it: Item) returns (ok: bool)
      modifies this`dTempCode, this`tempOrder, this`currentTitle, this`itemLength, this`arrAlignList
      ensures var s4 := StoreRow(old(Saving()), it);
        ok == !(mkMode == ARRAY && currentArr !in dArr) &&
        Saving() == if ok then Align(s4, mkMode, ArrTypeOf(dArr, currentArr) == Some(Type2), it) else s4
    {
      StoreItem(it);
      var arrType2 := false;
      if mkMode == ARRAY {
        if currentArr !in dArr {
          return false;
        }
        arrType2 := dArr[currentArr].arrType == Type2;
      }
      AlignItem(it, arrType2);
      ok := true;
    }

    /** The row stored under the current title, defaulted and created
        when needed. */
    method StoreItem(it: Item)
      modifies this`dTempCode, this`tempOrder, this`currentTitle
      ensures Saving() == StoreRow(old(Saving()), it)
    {
      if currentTitle == "" {
        currentTitle := DefaultTitle;
      }
      if currentTitle !in dTempCode {
        dTempCode := dTempCode[currentTitle := []];
        tempOrder := tempOrder + [currentTitle];
      }
      dTempCode := dTempCode[currentTitle := dTempCode[currentTitle] + [it]];
    }

    /** The alignment bookkeeping at the end of `saveTempList`. */
    method AlignItem(it: Item, arrType2: bool)
      modifies this`itemLength, this`arrAlignList
      ensures Saving() == Align(old(Saving()), mkMode, arrType2, it)
    {
      if IsMeasured(mkMode, arrType2) {
        var w := itemLength;
        if |it.key| > w.key { w := w.(key := |it.key|); }
        if |it.typ| > w.typ { w := w.(typ := |it.typ|); }
        if |it.name| > w.name { w := w.(name := |it.name|); }
        if |it.val| > w.val { w := w.(val := |it.val|); }
        itemLength := w;
      } else if IsBoundary(mkMode) {
        arrAlignList := arrAlignList + [itemLength];
        itemLength := Widths(0, 0, 0, 0);
      }
    }

    // ---------------------------------------------------------- writeCode

    /** The current title, defaulted, with a list on both sides. */
    method EnsureTitle()
      modifies this`currentTitle, this`dSrcCode, this`dHdrCode
      ensures Writing() == Titled(old(Writing()))
    {
      if currentTitle == "" {
        currentTitle := DefaultTitle;
      }
      if currentTitle !in dSrcCode {
        dSrcCode := dSrcCode[currentTitle := []];
      }
      if currentTitle !in dHdrCode {
        dHdrCode := dHdrCode[currentTitle := []];
      }
    }

    /** The lines of a text appended, each behind the indentation `tab`,
        to a code list. */
    method AppendCode(lst: seq<string>, tab: string, code: string) returns (r: seq<string>)
      ensures r == lst + CodeLines(tab, code)
    {
      if Contains(code, "\r\n") {
        r := AppendIndented(lst, tab, CodePieces(code));
      } else {
        CodeLinesSingle(tab, code);
        r := lst + [tab + code];
      }
    }

    /** `for line in lines: code_list.append(tab + line)` */
    method AppendIndented(lst: seq<string>, tab: string, pieces: seq<string>) returns (r: seq<string>)
      ensures r == lst + Indented(tab, pieces)
    {
      r := lst;
      ghost var lines := Indented(tab, pieces);
      var i := 0;
      while i < |pieces|
        invariant 0 <= i <= |pieces|
        invariant r == lst + lines[..i]
      {
        assert lines[..i + 1] == lines[..i] + [tab + pieces[i]];
        r := r + [tab + pieces[i]];
        i := i + 1;
      }
      assert lines[..|pieces|] == lines;
    }

    /** `for i in range(self.prjtDepth, 0, -1)`: one tab per enclosing level. */
    method LevelTabs(depth: int) returns (tab: string)
      ensures tab == Prjt.Tabs(depth)
    {
      tab := "";
      var i := depth;
      while i > 0
        invariant i == depth || 0 <= i <= depth
        invariant tab == Prjt.Tabs(depth - i)
      {
        Prjt.TabsNext(depth - i);
        tab := tab + "\t";
        i := i - 1;
      }
      if depth <= 0 {
        assert |Prjt.Tabs(depth)| == 0;
      }
    }

    /** `writeCode(mk_mode, code_str, src)` */
    method WriteCode(mode: MkMode, code: string, toSrc: bool)
      modifies this`currentTitle, this`dSrcCode, this`dHdrCode, this`frontTab
      ensures Writing() == CalWrite.WriteCode(old(Writing()), mode, code, toSrc)
    {
      ghost var g0 := Writing();
      var tab := WriteLines(mode, code, toSrc);
      CalWrite.WriteCodeStages(g0, mode, code, toSrc, Writing().(frontTab := tab));
      frontTab := if mode == PRJT_DEF && currentPrjtDef != "" then tab + "\t" else tab;
    }

    /** The first stage of `writeCode`: the lines appended behind the
        indentation `tab` the row uses, which is returned. */
    method WriteLines(mode: MkMode, code: string, toSrc: bool) returns (tab: string)
      modifies this`currentTitle, this`dSrcCode, this`dHdrCode
      ensures var g1 := CalWrite.Titled(old(Writing()));
        && tab == CalWrite.LineTab(g1, mode)
        && Writing().(frontTab := tab) == if code != "" || mode == DESCRIPT
          then CalWrite.Append(g1.(frontTab := tab), toSrc, CodeLines(tab, code)) else g1.(frontTab := tab)
    {
      EnsureTitle();
      tab := frontTab;
      if mode == PRJT_DEF {
        tab := LevelTabs(prjtDepth);
      }
      AppendLines(code != "" || mode == DESCRIPT, toSrc, tab, code);
    }

    /** When `write` holds, the lines of `code` behind `tab` go to the end
        of the current title's list on the chosen side. */
    method AppendLines(write: bool, toSrc: bool, tab: string, code: string)
      requires currentTitle in dSrcCode && currentTitle in dHdrCode
      modifies this`dSrcCode, this`dHdrCode
      ensures Writing() == if write then CalWrite.Append(old(Writing()), toSrc, CodeLines(tab, code)) else old(Writing())
    {
      if write {
        if toSrc {
          var lst := AppendCode(dSrcCode[currentTitle], tab, code);
          dSrcCode := dSrcCode[currentTitle := lst];
        } else {
          var lst := AppendCode(dHdrCode[currentTitle], tab, code);
          dHdrCode := dHdrCode[currentTitle := lst];
        }
      }
    }

    // ---------------------------------------------------------- $TITLE

    /** The loop of a `$TITLE` row over the open levels, innermost first:
        each is closed and reset to the title's name, until one cannot be. */
    method CloseLevelsForTitle(name: string) returns (ok: bool, lines: seq<string>)
      requires prjtDepth >= 0
      modifies this`prjtList
      ensures var c := Prjt.CloseForTitle(old(prjtList), prjtDepth, name);
        ok == c.Closed? && prjtList == c.slots && (ok ==> lines == c.lines)
    {
      ghost var s := prjtList;
      lines := [];
      var i := prjtDepth;
      while i >= 0
        invariant -1 <= i <= prjtDepth
        invariant Prjt.Closable(s, prjtDepth, i)
        invariant prjtList == Prjt.ResetRange(s, i + 1, prjtDepth, name)
        invariant lines == Prjt.TitleLines(s, prjtDepth, i)
      {
        if i >= |prjtList| || |prjtList[i].vals| == 0 {
          Prjt.TitleFaultAt(s, prjtDepth, i);
          return false, lines;
        }
        assert prjtList[i] == s[i];
        lines := lines + Prjt.TitleLevelLines(i, prjtList[i]);
        Prjt.ResetOneMore(s, i, prjtDepth, name);
        prjtList := prjtList[i := PrjtInfo(name, [])];
        i := i - 1;
      }
      Prjt.ClosableNoFault(s, prjtDepth);
      ok := true;
    }

    /** The open levels closed, and their closing lines appended to the
        files the current group writes. */
    method CloseTitleLevels(name: string, es: bool, eh: bool) returns (stop: Option<Outcome>, s: string, h: string)
      requires prjtDepth >= 0 && currentTitle in dSrcCode && currentTitle in dHdrCode
      modifies this`prjtList, this`dSrcCode, this`dHdrCode
      ensures Effected(CloseLevels(old(Writing()), name, es, eh), stop, s, h)
    {
      stop, s, h := None, "", "";
      var ok, lines := CloseLevelsForTitle(name);
      if !ok {
        stop := Some(Skipped);
      } else {
        if mkFile != Src {
          dHdrCode := dHdrCode[currentTitle := dHdrCode[currentTitle] + ((if eh then [] else [""]) + lines)];
        }
        if mkFile != Hdr {
          dSrcCode := dSrcCode[currentTitle := dSrcCode[currentTitle] + ((if es then [] else [""]) + lines)];
        }
      }
    }

    /** A `$TITLE`, `$TITLE_S` or `$TITLE_H` row. */
    method TitleRow(mode: MkMode, it: Item, es: bool, eh: bool) returns (stop: Option<Outcome>, s: string, h: string)
      requires currentTitle in dSrcCode && currentTitle in dHdrCode
      modifies this`prjtList, this`prjtDepth, this`currentPrjtDef, this`dSrcCode, this`dHdrCode
      modifies this`mkFile, this`frontTab, this`currentTitle
      ensures Effected(TitleStep(old(Writing()), mode, it, es, eh), stop, s, h)
    {
      stop, s, h := None, "", "";
      if prjtDepth >= 0 {
        stop, s, h := CloseTitleLevels(it.name, es, eh);
      }
      if stop.None? {
        StartGroup(mode, it.key);
      }
    }

    /** The group a `$TITLE` row starts: its file choice, no open level,
        no indentation and its own title. */
    method StartGroup(mode: MkMode, key: string)
      modifies this`prjtDepth, this`currentPrjtDef, this`mkFile, this`frontTab, this`currentTitle
      ensures Writing() == Retitle(old(Writing()), mode, key)
    {
      ghost var n := Nesting();
      mkFile := TitleFile(mode, key);
      prjtDepth := -1;
      frontTab := "";
      currentTitle := ModeName(mode) + "+" + key;
      currentPrjtDef := "";
      assert Nesting() == n.(depth := -1, current := "");
    }

    // ---------------------------------------------------------- $ARRAY, $ARR_MEM

    /** An `$ARRAY` row. */
    method ArrayRow(it: Item, val: string, comment: string, w: Widths) returns (stop: Option<Outcome>, s: string, h: string)
      modifies this`dArr, this`currentArr, this`arrNameCnt
      ensures Effected(ArrayStep(SheetInfo(), old(Writing()), it, val, comment, w), stop, s, h)
    {
      stop, s, h := None, "", "";
      var id := ArrayId(shtName, it.name, arrNameCnt);
      if id in dArr {
        s, h := SelectArray(id, it, val, comment, w);
      }
    }

    /** The array `id` becomes the current one, reset and made ready. */
    method SelectArray(id: string, it: Item, val: string, comment: string, w: Widths) returns (s: string, h: string)
      requires id in dArr
      modifies this`dArr, this`currentArr, this`arrNameCnt
      ensures var ready := ArrayOpen(old(dArr)[id].(rowCnt := 0), it, val, comment, w);
        var g := old(Writing());
        Writing() == g.(currentArr := id, arrNameCnt := g.arrNameCnt + 1, arrs := g.arrs[id := ready.0]) &&
        s == ready.1 && h == ready.2
    {
      ghost var g := Writing();
      var a;
      a, s, h := OpenArray(dArr[id].(rowCnt := 0), it, val, comment, w);
      currentArr := id;
      arrNameCnt := arrNameCnt + 1;
      dArr := dArr[id := a];
      assert Writing() == g.(currentArr := id, arrNameCnt := g.arrNameCnt + 1, arrs := g.arrs[id := a]);
    }

    /** The texts of an `$ARRAY` row and the entry made ready for its rows. */
    method OpenArray(a: ArrInfo, it: Item, val: string, comment: string, w: Widths) returns (r: ArrInfo, s: string, h: string)
      ensures (r, s, h) == ArrayOpen(a, it, val, comment, w)
    {
      if a.arrType == Type2 {
        var lines := ArrayInlineLines(it.key, it.typ, it.name, val, comment, w);
        r, s, h := a, lines.0, lines.1;
      } else {
        var lines := ArrayHeadLines(it.key, it.typ, it.name, comment);
        s, h := lines.0, lines.1;
        r := ArrMem.ReadyArrMemMake(a);
      }
    }

    /** An `$ARR_MEM` row. */
    method ArrMemRow() returns (stop: Option<Outcome>, s: string, h: string)
      modifies this`dArr
      ensures Effected(ArrMemStep(old(Writing())), stop, s, h)
    {
      stop, s, h := None, "", "";
      if currentArr !in dArr {
        stop := Some(Failed);
      } else if dArr[currentArr].arrType != Type2 {
        stop, s, h := ArrMemLine();
      }
    }

    /** The current array's next row written to the source and counted. */
    method ArrMemLine() returns (stop: Option<Outcome>, s: string, h: string)
      requires currentArr in dArr && dArr[currentArr].arrType != Type2
      modifies this`dArr
      ensures Effected(ArrMemStep(old(Writing())), stop, s, h)
    {
      ArrMemStepLine(Writing());
      stop, s, h := None, "", "";
      var line := ArrMem.WriteArrMemRow(dArr[currentArr]);
      if line.IndexFault? {
        stop := Some(Skipped);
      } else {
        if line.Line? {
          s := line.text;
        }
        CountArrRow();
      }
    }

    /** The current array's row counter moves on by one. */
    method CountArrRow()
      requires currentArr in dArr
      modifies this`dArr
      ensures var g := old(Writing()); var a := g.arrs[g.currentArr];
        Writing() == g.(arrs := g.arrs[g.currentArr := a.(rowCnt := a.rowCnt + 1)])
    {
      ghost var g := Writing();
      var a := dArr[currentArr];
      dArr := dArr[currentArr := a.(rowCnt := a.rowCnt + 1)];
      assert Writing() == g.(arrs := g.arrs[g.currentArr := a.(rowCnt := a.rowCnt + 1)]);
    }

    // ---------------------------------------------------------- $PRJT_DEF

    /** `for i in range(self.prjtDepth, -1, -1)`: the innermost level
        defining `name`. */
    method FindPrjtLevel(name: string) returns (r: Prjt.Search)
      ensures r == Prjt.FindLevel(prjtList, prjtDepth, name)
    {
      var i := prjtDepth;
      while i >= 0
        invariant i <= prjtDepth
        invariant Prjt.FindLevel(prjtList, prjtDepth, name) == Prjt.FindLevel(prjtList, i, name)
        decreases i + 1
      {
        if i >= |prjtList| {
          return Prjt.SearchFault;
        }
        if prjtList[i].def == name {
          return Prjt.Found(i);
        }
        i := i - 1;
      }
      return Prjt.Missing;
    }

    /** The levels inside level `i` closed, innermost first, each reset to
        the row's name. */
    method CloseInnerLevels(i: nat, name: string) returns (text: string)
      requires i <= prjtDepth < |prjtList|
      modifies this`prjtList, this`prjtDepth
      ensures text == Prjt.CloseText(old(prjtList), old(prjtDepth), i)
      ensures prjtList == Prjt.ResetRange(old(prjtList), i + 1, old(prjtDepth), name) && prjtDepth == i
    {
      ghost var s := prjtList;
      ghost var d := prjtDepth;
      var tempDepth := prjtDepth;
      text := "";
      var j := 0;
      while j < prjtDepth - i
        invariant prjtDepth == d && |prjtList| == |s|
        invariant 0 <= j <= prjtDepth - i && tempDepth == prjtDepth - j
        invariant prjtList == Prjt.ResetRange(s, tempDepth + 1, prjtDepth, name)
        invariant text == Prjt.CloseText(s, prjtDepth, tempDepth)
      {
        text := text + Prjt.LevelClose(tempDepth, prjtList[prjtDepth - j].def);
        prjtList := prjtList[tempDepth := PrjtInfo(name, [])];
        tempDepth := tempDepth - 1;
        j := j + 1;
      }
      prjtDepth := tempDepth;
    }

    /** A name open nowhere: a new level one deeper. */
    method OpenLevel(name: string, val: string, comment: string) returns (ok: bool, text: string)
      modifies this`prjtList, this`prjtDepth, this`currentPrjtDef
      ensures var st := Prjt.Open(old(Nesting()), name, val, comment);
        ok == st.Emit? && Nesting() == st.nest && (ok ==> text == st.text)
    {
      text := Trailing(Prjt.IfLine(name, val), comment) + "\r\n";
      prjtDepth := prjtDepth + 1;
      var k := PyIndex(|prjtList|, prjtDepth);
      if k.None? {
        return false, text;
      }
      prjtList := prjtList[k.value := PrjtInfo(name, [val])];
      currentPrjtDef := name;
      ok := true;
    }

    /** A name on the innermost level: `#else`, the level's end, or `#elif`. */
    method ContinueLevel(pre: string, name: string, val: string, comment: string) returns (ok: bool, text: string)
      modifies this`prjtList, this`prjtDepth, this`currentPrjtDef
      ensures var st := Prjt.Continue(old(Nesting()), pre, name, val, comment);
        ok == st.Emit? && Nesting() == st.nest && (ok ==> text == st.text)
    {
      text := "";
      var k := PyIndex(|prjtList|, prjtDepth);
      if k.None? {
        return false, text;
      }
      var slot := prjtList[k.value];
      if val == ElsePrjtName {
        text := Trailing(pre + "#else", comment) + "\r\n";
        prjtList := prjtList[k.value := slot.(vals := slot.vals + [val])];
        currentPrjtDef := name;
      } else if val == EndPrjtName {
        if |slot.vals| == 0 {
          return false, text;
        }
        text := Trailing(pre + Prjt.EndLine(slot), comment) + "\r\n";
        prjtList := prjtList[k.value := PrjtInfo(name, [])];
        prjtDepth := prjtDepth - 1;
        currentPrjtDef := "";
      } else {
        text := Trailing(pre + "#elif (" + name + " == " + val + ")", comment) + "\r\n";
        prjtList := prjtList[k.value := slot.(vals := slot.vals + [val])];
        currentPrjtDef := name;
      }
      ok := true;
    }

    /** The nesting machine for one `$PRJT_DEF` row. */
    method PrjtLevels(name: string, val: string, comment: string) returns (ok: bool, text: string)
      modifies this`prjtList, this`prjtDepth, this`currentPrjtDef
      ensures var st := Prjt.PrjtStep(old(Nesting()), name, val, comment);
        ok == st.Emit? && Nesting() == st.nest && (ok ==> text == st.text)
    {
      if name != currentPrjtDef {
        var r := FindPrjtLevel(name);
        match r
        case SearchFault =>
          return false, "";
        case Missing =>
          ok, text := OpenLevel(name, val, comment);
          return;
        case Found(i) =>
          var pre := CloseInnerLevels(i, name);
          ok, text := ContinueLevel(pre, name, val, comment);
          return;
      }
      ok, text := ContinueLevel("", name, val, comment);
    }

    /** A `$PRJT_DEF` row. */
    method PrjtDefRow(it: Item, val: string, comment: string, es: bool, eh: bool) returns (stop: Option<Outcome>, s: string, h: string)
      modifies this`prjtList, this`prjtDepth, this`currentPrjtDef
      ensures Effected(PrjtDefStep(old(Writing()), it, val, comment, es, eh), stop, s, h)
    {
      var ok, text := PrjtLevels(it.name, val, comment);
      if !ok {
        return Some(Skipped), "", "";
      }
      return None, AfterBreak(es, text), AfterBreak(eh, text);
    }

    // ---------------------------------------------------------- writeCalList

    /** The row's mode, from the state with its title in place. */
    method ApplyMode(mode: MkMode, it: Item, val: string, comment: string, w: Widths, es: bool, eh: bool)
      returns (stop: Option<Outcome>, s: string, h: string)
      requires currentTitle in dSrcCode && currentTitle in dHdrCode
      modifies this`prjtList, this`prjtDepth, this`currentPrjtDef, this`dSrcCode, this`dHdrCode
      modifies this`mkFile, this`frontTab, this`currentTitle, this`dArr, this`currentArr, this`arrNameCnt
      ensures Effected(ModeStep(SheetInfo(), old(Writing()), mode, it, val, comment, w, es, eh), stop, s, h)
    {
      if IsTitle(mode) {
        stop, s, h := TitleRow(mode, it, es, eh);
      } else if mode == ARRAY {
        stop, s, h := ArrayRow(it, val, comment, w);
      } else if mode == ARR_MEM {
        stop, s, h := ArrMemRow();
      } else if mode == PRJT_DEF {
        stop, s, h := PrjtDefRow(it, val, comment, es, eh);
      } else {
        var t := PlainTexts(SheetInfo(), mode, it, val, comment, w, es, eh);
        stop, s, h := None, t.0, t.1;
      }
    }

    /** `writeCalList(line_str)`: one stored row written out. */
    method WriteCalList(it: Item) returns (o: Outcome)
      modifies this`prjtList, this`prjtDepth, this`currentPrjtDef, this`dSrcCode, this`dHdrCode
      modifies this`mkFile, this`frontTab, this`currentTitle, this`dArr, this`currentArr, this`arrNameCnt
      modifies this`alignCnt
      ensures (Writing(), o) == WriteStep(SheetInfo(), old(Writing()), it)
    {
      EnsureTitle();
      var stop, s, h := ApplyRow(it);
      if stop.Some? {
        return stop.value;
      }
      FinishRow(ModeOf(it.op), s, h);
      o := Written;
    }

    /** The value, comment, widths and blank-line flags of the row, and its
        mode applied to them. */
    method ApplyRow(it: Item) returns (stop: Option<Outcome>, s: string, h: string)
      requires currentTitle in dSrcCode && currentTitle in dHdrCode
      modifies this`prjtList, this`prjtDepth, this`currentPrjtDef, this`dSrcCode, this`dHdrCode
      modifies this`mkFile, this`frontTab, this`currentTitle, this`dArr, this`currentArr, this`arrNameCnt
      ensures Effected(RowEffect(SheetInfo(), old(Writing()), it), stop, s, h)
    {
      var es := ExistEmptyStr(dSrcCode[currentTitle], 1);
      var eh := ExistEmptyStr(dHdrCode[currentTitle], 1);
      var val := ValueOf(it);
      var w := WidthsAt(arrAlignList, alignCnt);
      var mode := ModeOf(it.op);
      var comment := Comment(it.desc);
      stop, s, h := ApplyMode(mode, it, val, comment, w, es, eh);
    }

    /** The texts sent to the files the current group writes, and the next
        block's widths after a row that ends a block. */
    method FinishRow(mode: MkMode, s: string, h: string)
      modifies this`dSrcCode, this`dHdrCode, this`frontTab, this`currentTitle, this`alignCnt
      ensures Writing() == Finish(old(Writing()), mode, s, h)
    {
      ghost var g := Writing();
      SendTexts(mode, s, h);
      ghost var g2 := Writing();
      if IsBoundary(mode) {
        alignCnt := alignCnt + 1;
      }
      assert Writing() == g2.(alignCnt := alignCnt);
      FinishSends(g, mode, s, h);
    }

    /** `writeCode` for the source text, then for the header text, as the
        group's files demand. */
    method SendTexts(mode: MkMode, s: string, h: string)
      modifies this`dSrcCode, this`dHdrCode, this`frontTab, this`currentTitle
      ensures Writing() == Send(old(Writing()), mode, s, h)
    {
      ghost var g := Writing();
      ghost var g1 := if mkFile != Hdr then CalWrite.WriteCode(g, mode, s, true) else g;
      if mkFile != Hdr {
        WriteCode(mode, s, true);
      }
      assert Writing() == g1;
      if mkFile != Src {
        WriteCode(mode, h, false);
      }
    }

    // ---------------------------------------------------------- the write loop

    /** The rows of one title written in turn, until one raises KeyError. */
    method WriteRows(rows: seq<Item>) returns (o: Outcome)
      modifies this`prjtList, this`prjtDepth, this`currentPrjtDef, this`dSrcCode, this`dHdrCode
      modifies this`mkFile, this`frontTab, this`currentTitle, this`dArr, this`currentArr, this`arrNameCnt
      modifies this`alignCnt
      ensures (Writing(), o) == WriteAll(SheetInfo(), old(Writing()), rows)
    {
      ghost var sh := SheetInfo();
      ghost var all := WriteAll(sh, Writing(), rows);
      o := Written;
      var i := 0;
      assert rows[i..] == rows;
      while i < |rows| && o != Failed
        invariant 0 <= i <= |rows| && SheetInfo() == sh
        invariant all == Resume(sh, Writing(), o, rows[i..])
      {
        o := WriteRowAt(rows, i, sh);
        i := i + 1;
      }
      if o != Failed {
        NoRowsLeft(sh, Writing(), rows[i..]);
        o := Written;
      }
    }

    /** Row `i` written: what is left of the loop is then resumed from the
        next row. */
    method WriteRowAt(rows: seq<Item>, i: nat, ghost sh: Sheet) returns (o: Outcome)
      requires i < |rows| && SheetInfo() == sh
      modifies this`prjtList, this`prjtDepth, this`currentPrjtDef, this`dSrcCode, this`dHdrCode
      modifies this`mkFile, this`frontTab, this`currentTitle, this`dArr, this`currentArr, this`arrNameCnt
      modifies this`alignCnt
      ensures SheetInfo() == sh
      ensures WriteAll(sh, old(Writing()), rows[i..]) == Resume(sh, Writing(), o, rows[i + 1..])
    {
      ghost var w0 := Writing();
      o := WriteCalList(rows[i]);
      ResumeAfter(sh, w0, rows, i, Writing(), o);
    }

    /** The write loop of `ReadCalList`: every stored row of every title in
        turn; a row that raises IndexError is skipped, one that raises
        KeyError ends the loop. */
    method WriteAllCode() returns (o: Outcome)
      modifies this`prjtList, this`prjtDepth, this`currentPrjtDef, this`dSrcCode, this`dHdrCode
      modifies this`mkFile, this`frontTab, this`currentTitle, this`dArr, this`currentArr, this`arrNameCnt
      modifies this`alignCnt
      ensures (Writing(), o) == WriteAll(SheetInfo(), old(Writing()).(arrNameCnt := 0), Flatten(dTempCode, tempOrder))
    {
      arrNameCnt := 0;
      o := WriteTitles();
    }

    /** The rows of every title in turn, titles in the order they were
        first stored. */
    method WriteTitles() returns (o: Outcome)
      modifies this`prjtList, this`prjtDepth, this`currentPrjtDef, this`dSrcCode, this`dHdrCode
      modifies this`mkFile, this`frontTab, this`currentTitle, this`dArr, this`currentArr, this`arrNameCnt
      modifies this`alignCnt
      ensures (Writing(), o) == WriteAll(SheetInfo(), old(Writing()), Flatten(dTempCode, tempOrder))
    {
      ghost var all := WriteAll(SheetInfo(), Writing(), Flatten(dTempCode, tempOrder));
      var k := 0;
      while k < |tempOrder|
        invariant 0 <= k <= |tempOrder|
        invariant all == WriteAll(SheetInfo(), Writing(), Flatten(dTempCode, tempOrder[k..]))
      {
        o := WriteTitle(k);
        if o == Failed {
          return;
        }
        k := k + 1;
      }
      NoTitlesLeft(SheetInfo(), Writing(), dTempCode, tempOrder[k..]);
      o := Written;
    }

    /** The rows of the `k`-th title in `tempOrder`: the titles from `k` on
        write as that title's rows and then, unless they raised KeyError,
        the titles after it. */
    method WriteTitle(k: nat) returns (o: Outcome)
      requires k < |tempOrder|
      modifies this`prjtList, this`prjtDepth, this`currentPrjtDef, this`dSrcCode, this`dHdrCode
      modifies this`mkFile, this`frontTab, this`currentTitle, this`dArr, this`currentArr, this`arrNameCnt
      modifies this`alignCnt
      ensures o == Failed ==>
        (Writing(), o) == WriteAll(SheetInfo(), old(Writing()), Flatten(dTempCode, tempOrder[k..]))
      ensures o != Failed ==>
        WriteAll(SheetInfo(), old(Writing()), Flatten(dTempCode, tempOrder[k..]))
        == WriteAll(SheetInfo(), Writing(), Flatten(dTempCode, tempOrder[k + 1..]))
    {
      ghost var sh, w0 := SheetInfo(), Writing();
      var rows := if tempOrder[k] in dTempCode then dTempCode[tempOrder[k]] else [];
      TitlesFrom(sh, w0, dTempCode, tempOrder, k);
      o := WriteRows(rows);
      assert SheetInfo() == sh;
    }
  }
}
