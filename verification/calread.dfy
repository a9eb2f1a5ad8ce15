/** The read phase of `CalList` as functions on values: the cell cache
    behind `cached_read_cell`, the prefetch of a batch of rows, and what
    `saveTempList` and `setPragmaSection` do to the stored rows. */
module CalRead {
  import opened PyStr
  import opened Info
  import opened DeclFormat
  import opened Arrays
  import opened CalWrite

  // ------------------------------------------------------------ the cell cache

  /** `cached_read_cell` stores a new value only while the cache holds
      fewer entries than this. */
  const CacheLimit: nat := 100000

  /** The prefetch stores a value only while the cache holds fewer
      entries than this. */
  const PrefetchLimit: nat := 50000

  type Cache = map<(int, int), string>

  /** Every cached value is what `Info.ReadCell` reads at its key. */
  predicate CacheAgrees(cache: Cache, data: Grid)
  {
    forall k | k in cache :: cache[k] == ReadCell(data, k.0, k.1)
  }

  /** `cached_read_cell(row, col)`: the value and the cache after it. A
      miss reads the sheet and stores the value while there is room. */
  function CacheLookup(cache: Cache, data: Grid, row: int, col: int): (r: (string, Cache))
    ensures (row, col) in cache ==> r == (cache[(row, col)], cache)
    ensures (row, col) !in cache ==> r.0 == ReadCell(data, row, col)
    ensures |cache| <= CacheLimit ==> |r.1| <= CacheLimit
  {
    if (row, col) in cache then (cache[(row, col)], cache)
    else
      var v := ReadCell(data, row, col);
      (v, if |cache| < CacheLimit then cache[(row, col) := v] else cache)
  }

  /** A cache that agrees with the sheet answers as the sheet does, and
      still agrees afterwards. */
  lemma CacheLookupAgrees(cache: Cache, data: Grid, row: int, col: int)
    requires CacheAgrees(cache, data)
    ensures CacheLookup(cache, data, row, col).0 == ReadCell(data, row, col)
    ensures CacheAgrees(CacheLookup(cache, data, row, col).1, data)
  {
  }

  /** What the prefetch of `process_batch_vectorized` reads for a cell:
      the raw cell, or "" outside the sheet or for an empty cell. It does
      not strip. */
  function RawCell(data: Grid, row: nat, col: nat): (r: string)
    ensures row >= |data| || col >= |data[row]| ==> r == ""
    ensures row < |data| && col < |data[row]| && data[row][col] == Blank ==> r == ""
    ensures row < |data| && col < |data[row]| && data[row][col].Text? ==> r == data[row][col].text
  {
    if row < |data| && col < |data[row]| then
      match data[row][col]
      case Blank => ""
      case Text(t) => t
    else ""
  }

  /** On the sheet, `Info.ReadCell` is the raw cell stripped. */
  lemma ReadCellIsStrippedRaw(data: Grid, row: nat, col: nat)
    ensures ReadCell(data, row, col) == Strip(RawCell(data, row, col))
  {
  }

  /** One cell of the prefetch as written: the raw value goes into the
      cache while it has room. */
  function PrefetchCellAsWritten(cache: Cache, data: Grid, row: nat, col: nat): (r: Cache)
    ensures (row, col) in cache || |cache| >= PrefetchLimit ==> r == cache
    ensures (row, col) !in cache && |cache| < PrefetchLimit ==> r == cache[(row, col) := RawCell(data, row, col)]
  {
    if (row, col) in cache || |cache| >= PrefetchLimit then cache
    else cache[(row, col) := RawCell(data, row, col)]
  }

  /** `"$DEFINE ".strip()` is `"$DEFINE"`. */
  lemma StripTrailingBlank()
    ensures Strip("$DEFINE ") == "$DEFINE"
  {
    var s := "$DEFINE ";
    assert s[0] == '$' && s[6] == 'E' && s[7] == ' ';
    assert '$' !in Whitespace && 'E' !in Whitespace && ' ' in Whitespace;
    assert forall k :: 7 <= k < |s| ==> s[k] in Whitespace;
    StripSetBetween(s, Whitespace, 0, 7);
    assert s[0..7] == "$DEFINE";
  }

  /** The prefetch as written breaks the cache: an opcode cell written
      with a trailing blank is cached unstripped, so `chk_op_code` reads
      `"$DEFINE "` from the cache, finds no opcode and reports an error,
      where a read that misses the cache finds `$DEFINE`. */
  lemma PrefetchAsWrittenMisreadsOpCode()
    ensures var data: Grid := [[Text("$DEFINE ")]];
      var c := PrefetchCellAsWritten(map[], data, 0, 0);
      !CacheAgrees(c, data) &&
      ModeOf(CacheLookup(c, data, 0, 0).0) == NONE &&
      ModeOf(CacheLookup(map[], data, 0, 0).0) == DEFINE
  {
    var data: Grid := [[Text("$DEFINE ")]];
    var c := PrefetchCellAsWritten(map[], data, 0, 0);
    assert c[(0, 0)] == "$DEFINE ";
    StripTrailingBlank();
    assert ReadCell(data, 0, 0) == "$DEFINE";
    assert LookupOpCode("$DEFINE ") == None;
    assert LookupOpCode("$DEFINE") == Some(DEFINE);
  }

  /** One cell of the prefetch, storing the value `Info.ReadCell` reads. */
  function PrefetchCell(cache: Cache, data: Grid, row: nat, col: nat): (r: Cache)
  {
    if (row, col) in cache || |cache| >= PrefetchLimit then cache
    else cache[(row, col) := ReadCell(data, row, col)]
  }

  /** The cells of `row` in the columns `cols`, in turn. */
  function PrefetchRow(cache: Cache, data: Grid, row: nat, cols: seq<nat>): (r: Cache)
    decreases |cols|
  {
    if cols == [] then cache
    else PrefetchRow(PrefetchCell(cache, data, row, cols[0]), data, row, cols[1..])
  }

  /** The rows `start` up to `end`, in turn. */
  function PrefetchRows(cache: Cache, data: Grid, start: nat, end: nat, cols: seq<nat>): (r: Cache)
    decreases end - start
  {
    if start >= end then cache
    else PrefetchRows(PrefetchRow(cache, data, start, cols), data, start + 1, end, cols)
  }

  /** What the prefetch of a batch promises: the cache keeps every entry,
      stays within its bound and still agrees with the sheet. */
  predicate Prefetched(cache: Cache, r: Cache, data: Grid)
  {
    (forall k | k in cache :: k in r && r[k] == cache[k]) &&
    (|cache| <= CacheLimit ==> |r| <= CacheLimit) &&
    (CacheAgrees(cache, data) ==> CacheAgrees(r, data))
  }

  lemma PrefetchedTrans(a: Cache, b: Cache, c: Cache, data: Grid)
    requires Prefetched(a, b, data) && Prefetched(b, c, data)
    ensures Prefetched(a, c, data)
  {
  }

  lemma PrefetchCellKeeps(cache: Cache, data: Grid, row: nat, col: nat)
    ensures Prefetched(cache, PrefetchCell(cache, data, row, col), data)
  {
  }

  lemma {:induction false} PrefetchRowKeeps(cache: Cache, data: Grid, row: nat, cols: seq<nat>)
    ensures Prefetched(cache, PrefetchRow(cache, data, row, cols), data)
    decreases |cols|
  {
    if cols != [] {
      var c1 := PrefetchCell(cache, data, row, cols[0]);
      PrefetchCellKeeps(cache, data, row, cols[0]);
      PrefetchRowKeeps(c1, data, row, cols[1..]);
      PrefetchedTrans(cache, c1, PrefetchRow(c1, data, row, cols[1..]), data);
    }
  }

  /** The prefetch of a batch keeps the cache's entries, its bound and its
      agreement with the sheet: with it, `cached_read_cell` answers as
      `Info.ReadCell` does whether or not a cell was prefetched. */
  lemma {:induction false} PrefetchRowsKeeps(cache: Cache, data: Grid, start: nat, end: nat, cols: seq<nat>)
    ensures Prefetched(cache, PrefetchRows(cache, data, start, end, cols), data)
    decreases end - start
  {
    if start < end {
      var c1 := PrefetchRow(cache, data, start, cols);
      PrefetchRowKeeps(cache, data, start, cols);
      PrefetchRowsKeeps(c1, data, start + 1, end, cols);
      PrefetchedTrans(cache, c1, PrefetchRows(c1, data, start + 1, end, cols), data);
    }
  }

  // ------------------------------------------------------------ chk_op_code

  /** The error `chk_op_code` reports: a non-empty cell that is no opcode. */
  predicate OpCodeFault(op: string)
  {
    op != "" && LookupOpCode(op).None?
  }

  /** The mode is NONE exactly for a cell that is empty or reported. */
  lemma OpCodeFaultMode(op: string)
    ensures ModeOf(op) == NONE <==> op == "" || OpCodeFault(op)
  {
    if op == "" {
      assert LookupOpCode(op) == None;
    }
  }

  // ------------------------------------------------------------ saveTempList

  /** The fields `saveTempList` and `setPragmaSection` read and change:
      `dTempCode` with the order its titles were first stored in,
      `currentTitle`, `currentPRGM`, `itemLength` and `ArrAlignList`. */
  datatype Saver = Saver(
    temp: map<string, seq<Item>>, order: seq<string>, title: string,
    prgm: string, itemLength: Widths, aligns: seq<Widths>)

  /** `order` lists every stored title once. */
  predicate OrderOk(s: Saver)
  {
    (forall i, j | 0 <= i < j < |s.order| :: s.order[i] != s.order[j]) &&
    (forall t | t in s.temp :: t in s.order) &&
    (forall i | 0 <= i < |s.order| :: s.order[i] in s.temp)
  }

  /** Every row stored in `temp` carries an opcode of `ops`. */
  predicate OpsIn(temp: map<string, seq<Item>>, ops: set<string>)
  {
    forall t, i | t in temp && 0 <= i < |temp[t]| :: temp[t][i].op in ops
  }

  /** The keys of the opcode table. */
  const OpCodes: set<string> := {
    "$TITLE", "$TITLE_S", "$TITLE_H", "$SUBTITLE", "$DESCRIPT", "$DEFINE", "$TYPEDEF",
    "$STR_MEM", "$STR_DEF", "$ENUM", "$ENUM_MEM", "$ENUM_END", "$ARRAY", "$ARR_MEM",
    "$VARIABLE", "$PRGM_SET", "$PRGM_END", "$CODE", "$PRJT_DEF"}

  /** `OpCodes` holds exactly the opcodes the table looks up. */
  lemma OpCodesLookup(op: string)
    ensures op in OpCodes <==> LookupOpCode(op).Some?
  {
  }

  /** Every stored row carries an opcode of the table, so the lookup of
      `setPragmaSection` cannot fail. */
  predicate KnownOps(s: Saver)
  {
    OpsIn(s.temp, OpCodes)
  }

  /** The row of a pragma-section opener or closer for `key`. */
  function PragmaItem(op: string, key: string): (it: Item)
    ensures it.op == op && it.key == key && it.name == ""
  {
    Item(op, key, "", "", "", "")
  }

  /** The modes `setPragmaSection` steps back over before it closes a
      section, so the section ends before the headings that follow it. */
  predicate IsHeading(m: MkMode)
  {
    m == DESCRIPT || m == SUBTITLE || m == PRJT_DEF || IsTitle(m)
  }

  /** The opcodes of the heading modes. */
  const HeadingOps: set<string> := {"$DESCRIPT", "$SUBTITLE", "$PRJT_DEF", "$TITLE", "$TITLE_S", "$TITLE_H"}

  /** An opcode is in `HeadingOps` exactly when its mode is a heading. */
  lemma HeadingOpsMode(op: string)
    ensures op in HeadingOps <==> IsHeading(ModeOf(op))
  {
  }

  /** The number of heading rows at the end of `lst`. */
  function HeadingRun(lst: seq<Item>): (n: nat)
    ensures n <= |lst|
    ensures forall i | |lst| - n <= i < |lst| :: lst[i].op in HeadingOps
    ensures n < |lst| ==> lst[|lst| - n - 1].op !in HeadingOps
  {
    if lst == [] || lst[|lst| - 1].op !in HeadingOps then 0
    else HeadingRun(lst[..|lst| - 1]) + 1
  }

  /** A count of trailing headings that stops at a non-heading row, or
      at the front, is the heading run. */
  lemma {:induction false} HeadingRunUnique(lst: seq<Item>, n: nat)
    requires n <= |lst|
    requires forall i | |lst| - n <= i < |lst| :: lst[i].op in HeadingOps
    requires n < |lst| ==> lst[|lst| - n - 1].op !in HeadingOps
    ensures HeadingRun(lst) == n
  {
    if n > 0 {
      var front := lst[..|lst| - 1];
      assert lst[|lst| - 1].op in HeadingOps;
      assert forall i | |front| - (n - 1) <= i < |front| :: front[i] == lst[i];
      HeadingRunUnique(front, n - 1);
    }
  }

  /** The open section `s.prgm` closed: its `$PRGM_END` row goes in
      before the trailing headings of the current title. */
  function CloseSection(s: Saver): (r: Saver)
    requires s.title in s.temp
    ensures r.(temp := s.temp, prgm := s.prgm) == s && r.prgm == ""
    ensures r.temp.Keys == s.temp.Keys
  {
    var lst := s.temp[s.title];
    var k := |lst| - HeadingRun(lst);
    s.(temp := s.temp[s.title := lst[..k] + [PragmaItem("$PRGM_END", s.prgm)] + lst[k..]], prgm := "")
  }

  /** `lst.insert(k, x)` */
  lemma InsertAt(lst: seq<Item>, k: nat, x: Item)
    requires k <= |lst|
    ensures var out := lst[..k] + [x] + lst[k..];
      |out| == |lst| + 1 && out[k] == x && out[..k] == lst[..k] && out[k + 1..] == lst[k..] &&
      (forall i | k < i < |out| :: out[i] == lst[i - 1])
  {
    var out := lst[..k] + [x] + lst[k..];
    assert out[k + 1..] == lst[k..];
  }

  /** The `$PRGM_END` row goes in at the end of the title's rows, before
      the trailing headings, and the rows around it keep their order. */
  lemma CloseSectionInserts(s: Saver)
    requires s.title in s.temp
    ensures var lst := s.temp[s.title]; var out := CloseSection(s).temp[s.title];
      var k := |lst| - HeadingRun(lst);
      |out| == |lst| + 1 && out[k] == PragmaItem("$PRGM_END", s.prgm) &&
      out[..k] == lst[..k] && out[k + 1..] == lst[k..]
  {
    var lst := s.temp[s.title];
    InsertAt(lst, |lst| - HeadingRun(lst), PragmaItem("$PRGM_END", s.prgm));
  }

  /** Inserting at the start of the heading run leaves only headings
      behind the new row and a non-heading row before it. */
  lemma InsertBeforeRun(lst: seq<Item>, x: Item)
    ensures var k := |lst| - HeadingRun(lst); var out := lst[..k] + [x] + lst[k..];
      (forall i | k < i < |out| :: out[i].op in HeadingOps) &&
      (k > 0 ==> out[k - 1].op !in HeadingOps)
  {
    var k := |lst| - HeadingRun(lst);
    InsertAt(lst, k, x);
  }

  /** Only headings follow the `$PRGM_END` row, and the row before it is
      no heading: the section ends right after its last row. */
  lemma CloseSectionEndsRun(s: Saver)
    requires s.title in s.temp
    ensures var lst := s.temp[s.title]; var out := CloseSection(s).temp[s.title];
      var k := |lst| - HeadingRun(lst);
      (forall i | k < i < |out| :: out[i].op in HeadingOps) &&
      (k > 0 ==> out[k - 1].op !in HeadingOps)
  {
    InsertBeforeRun(s.temp[s.title], PragmaItem("$PRGM_END", s.prgm));
  }

  /** `setPragmaSection(key_str, row)`: `None` where it raises KeyError
      because the current title has no stored rows yet. */
  function PragmaStep(s: Saver, pragmas: map<string, PragmaPair>, pragSet: bool, mode: MkMode, key: string): (r: Option<Saver>)
    ensures r.Some? ==> r.value.(temp := s.temp, prgm := s.prgm) == s && r.value.temp.Keys == s.temp.Keys
  {
    if pragSet || (s.prgm == key && mode != PRGM_SET) || (key !in pragmas && s.prgm !in pragmas) then Some(s)
    else if s.prgm in pragmas && s.title !in s.temp then None
    else
      var c := if s.prgm in pragmas then CloseSection(s) else s;
      if key in pragmas && mode != PRGM_SET then
        if c.title !in c.temp then None
        else Some(c.(temp := c.temp[c.title := c.temp[c.title] + [PragmaItem("$PRGM_SET", key)]], prgm := key))
      else Some(c)
  }

  /** What `setPragmaSection` does with the open section: it stays, it is
      closed, or it is closed (if open) and `key`'s section is opened
      behind it; a section is opened only for a registered keyword. */
  lemma PragmaStepSections(s: Saver, pragmas: map<string, PragmaPair>, pragSet: bool, mode: MkMode, key: string)
    requires PragmaStep(s, pragmas, pragSet, mode, key).Some?
    ensures var r := PragmaStep(s, pragmas, pragSet, mode, key).value;
      r == s ||
      (s.prgm in pragmas && r == CloseSection(s)) ||
      (key in pragmas && mode != PRGM_SET && r.prgm == key &&
       var c := if s.prgm in pragmas then CloseSection(s) else s;
       r.temp == c.temp[s.title := c.temp[s.title] + [PragmaItem("$PRGM_SET", key)]])
  {
  }

  /** A pragma step never makes an unregistered keyword current. */
  lemma PragmaStepRegistered(s: Saver, pragmas: map<string, PragmaPair>, pragSet: bool, mode: MkMode, key: string)
    requires s.prgm == "" || s.prgm in pragmas
    requires PragmaStep(s, pragmas, pragSet, mode, key).Some?
    ensures var r := PragmaStep(s, pragmas, pragSet, mode, key).value;
      r.prgm == "" || r.prgm in pragmas
  {
  }

  /** The rows whose widths the block measures. */
  predicate IsMeasured(mode: MkMode, arrType2: bool)
  {
    mode == DEFINE || mode == STR_MEM || mode == ENUM_MEM || mode == VARIABLE || (mode == ARRAY && arrType2)
  }

  /** The block's widths grown to cover the row's keyword, type, name and
      value. */
  function Widen(w: Widths, it: Item): (r: Widths)
    ensures r.key == Max(w.key, |it.key|) && r.typ == Max(w.typ, |it.typ|)
    ensures r.name == Max(w.name, |it.name|) && r.val == Max(w.val, |it.val|)
  {
    Widths(if |it.key| > w.key then |it.key| else w.key,
           if |it.typ| > w.typ then |it.typ| else w.typ,
           if |it.name| > w.name then |it.name| else w.name,
           if |it.val| > w.val then |it.val| else w.val)
  }

  /** The alignment bookkeeping at the end of `saveTempList`. */
  function Align(s: Saver, mode: MkMode, arrType2: bool, it: Item): (r: Saver)
    ensures r.(itemLength := s.itemLength, aligns := s.aligns) == s
  {
    if IsMeasured(mode, arrType2) then s.(itemLength := Widen(s.itemLength, it))
    else if IsBoundary(mode) then s.(aligns := s.aligns + [s.itemLength], itemLength := Widths(0, 0, 0, 0))
    else s
  }

  /** The row stored under the current title (the default title when
      there is none yet), which is created, and put last in the order,
      when it has no rows yet. */
  function StoreRow(s: Saver, it: Item): (r: Saver)
    ensures r.title == (if s.title == "" then DefaultTitle else s.title)
    ensures r.(temp := s.temp, order := s.order, title := s.title) == s
    ensures r.temp.Keys == s.temp.Keys + {r.title}
    ensures r.temp[r.title] == (if r.title in s.temp then s.temp[r.title] else []) + [it]
    ensures forall t | t in s.temp && t != r.title :: r.temp[t] == s.temp[t]
    ensures r.order == if r.title in s.temp then s.order else s.order + [r.title]
  {
    var t := if s.title == "" then DefaultTitle else s.title;
    var lst := if t in s.temp then s.temp[t] else [];
    s.(title := t, temp := s.temp[t := lst + [it]], order := if t in s.temp then s.order else s.order + [t])
  }

  /** The type of the array `id`, `None` when `dArr` has no entry for it. */
  function ArrTypeOf(arrs: map<string, ArrInfo>, id: string): (r: Option<ArrType>)
    ensures r.Some? <==> id in arrs
    ensures id in arrs ==> r.value == arrs[id].arrType
  {
    if id in arrs then Some(arrs[id].arrType) else None
  }

  /** How `saveTempList` ends: it returns, or it raises KeyError and
      leaves the state it had reached. */
  datatype Saved = Saved(s: Saver) | SaveFault(s: Saver)

  /** A title row makes its own title current before anything else. */
  function SaveTitle(s: Saver, mode: MkMode, key: string): (r: Saver)
    ensures r.(title := s.title) == s
  {
    if IsTitle(mode) then s.(title := ModeName(mode) + "+" + key) else s
  }

  /** The pragma step of the rows that can open or close a section. */
  function SavePragma(s: Saver, pragmas: map<string, PragmaPair>, pragSet: bool, mode: MkMode, key: string): (r: Option<Saver>)
    ensures r.Some? ==> r.value.(temp := s.temp, prgm := s.prgm) == s && r.value.temp.Keys == s.temp.Keys
  {
    if mode == VARIABLE || mode == ARRAY || IsTitle(mode) then PragmaStep(s, pragmas, pragSet, mode, key) else Some(s)
  }

  /** `saveTempList(row)` for the row `it` in mode `mode`: `arrType` is
      the current array's type, `None` when `dArr` has no entry for it. */
  function SaveStep(s: Saver, pragmas: map<string, PragmaPair>, pragSet: bool, mode: MkMode, it: Item, arrType: Option<ArrType>): (r: Saved)
  {
    var s1 := SaveTitle(s, mode, it.key);
    match SavePragma(s1, pragmas, pragSet, mode, it.key)
    case None => SaveFault(s1)
    case Some(s2) =>
      var s4 := StoreRow(s2, it);
      if mode == ARRAY && arrType.None? then SaveFault(s4)
      else Saved(Align(s4, mode, arrType == Some(Type2), it))
  }

  /** `SaveStep` once the pragma step has given `s2`. */
  lemma SaveStepAfterPragma(s: Saver, pragmas: map<string, PragmaPair>, pragSet: bool, mode: MkMode, it: Item, arrType: Option<ArrType>, s2: Saver)
    requires SavePragma(SaveTitle(s, mode, it.key), pragmas, pragSet, mode, it.key) == Some(s2)
    ensures var s4 := StoreRow(s2, it);
      SaveStep(s, pragmas, pragSet, mode, it, arrType) ==
        if mode == ARRAY && arrType.None? then SaveFault(s4) else Saved(Align(s4, mode, arrType == Some(Type2), it))
  {
  }

  /** A row that is saved is the last row of the current title, which is
      never empty, and every other title keeps its rows. */
  lemma SaveAppendsLast(s: Saver, pragmas: map<string, PragmaPair>, pragSet: bool, mode: MkMode, it: Item, arrType: Option<ArrType>)
    requires SaveStep(s, pragmas, pragSet, mode, it, arrType).Saved?
    ensures var r := SaveStep(s, pragmas, pragSet, mode, it, arrType).s;
      r.title != "" && r.title in r.temp && |r.temp[r.title]| > 0 && r.temp[r.title][|r.temp[r.title]| - 1] == it
  {
  }

  lemma StoreRowKeepsOrder(s: Saver, it: Item)
    requires OrderOk(s)
    ensures OrderOk(StoreRow(s, it))
  {
  }

  /** The order lists every stored title once, whatever the row does. */
  lemma SaveKeepsOrder(s: Saver, pragmas: map<string, PragmaPair>, pragSet: bool, mode: MkMode, it: Item, arrType: Option<ArrType>)
    requires OrderOk(s)
    ensures OrderOk(SaveStep(s, pragmas, pragSet, mode, it, arrType).s)
  {
    var s1 := SaveTitle(s, mode, it.key);
    var p := SavePragma(s1, pragmas, pragSet, mode, it.key);
    if p.Some? {
      StoreRowKeepsOrder(p.value, it);
    }
  }

  /** A block is closed once for every row that ends one: `ArrAlignList`
      gains one entry exactly then, the entry `writeCalList` later reads
      for the rows before it. */
  lemma SaveClosesBlock(s: Saver, pragmas: map<string, PragmaPair>, pragSet: bool, mode: MkMode, it: Item, arrType: Option<ArrType>)
    requires SaveStep(s, pragmas, pragSet, mode, it, arrType).Saved?
    ensures var r := SaveStep(s, pragmas, pragSet, mode, it, arrType).s;
      |r.aligns| == |s.aligns| + (if IsBoundary(mode) then 1 else 0) &&
      r.aligns[..|s.aligns|] == s.aligns &&
      (IsBoundary(mode) ==> r.aligns[|s.aligns|] == s.itemLength && r.itemLength == Widths(0, 0, 0, 0))
  {
  }

  /** A measured row is covered by its block's widths, and the widths
      never shrink within a block. */
  lemma SaveCoversRow(s: Saver, pragmas: map<string, PragmaPair>, pragSet: bool, mode: MkMode, it: Item, arrType: Option<ArrType>)
    requires SaveStep(s, pragmas, pragSet, mode, it, arrType).Saved? && !IsBoundary(mode)
    ensures var w := SaveStep(s, pragmas, pragSet, mode, it, arrType).s.itemLength;
      w.key >= s.itemLength.key && w.typ >= s.itemLength.typ && w.name >= s.itemLength.name && w.val >= s.itemLength.val &&
      (IsMeasured(mode, arrType == Some(Type2)) ==> w.key >= |it.key| && w.typ >= |it.typ| && w.name >= |it.name| && w.val >= |it.val|)
  {
  }

  lemma StoreRowKeepsOps(s: Saver, it: Item, ops: set<string>)
    requires OpsIn(s.temp, ops) && it.op in ops
    ensures OpsIn(StoreRow(s, it).temp, ops)
  {
    var r := StoreRow(s, it);
    forall t, i | t in r.temp && 0 <= i < |r.temp[t]|
      ensures r.temp[t][i].op in ops
    {
      if t == r.title && i == |r.temp[t]| - 1 {
        assert r.temp[t][i] == it;
      } else if t == r.title {
        assert r.temp[t][i] == s.temp[t][i];
      }
    }
  }

  lemma InsertKeepsOps(lst: seq<Item>, k: nat, x: Item, ops: set<string>)
    requires k <= |lst| && x.op in ops
    requires forall i | 0 <= i < |lst| :: lst[i].op in ops
    ensures var out := lst[..k] + [x] + lst[k..]; forall i | 0 <= i < |out| :: out[i].op in ops
  {
    var out := lst[..k] + [x] + lst[k..];
    forall i | 0 <= i < |out|
      ensures out[i].op in ops
    {
      if i < k {
        assert out[i] == lst[i];
      } else if i > k {
        assert out[i] == lst[i - 1];
      }
    }
  }

  lemma CloseKeepsOps(s: Saver, ops: set<string>)
    requires OpsIn(s.temp, ops) && s.title in s.temp && "$PRGM_END" in ops
    ensures OpsIn(CloseSection(s).temp, ops)
  {
    var lst := s.temp[s.title];
    var k := |lst| - HeadingRun(lst);
    var x := PragmaItem("$PRGM_END", s.prgm);
    InsertKeepsOps(lst, k, x, ops);
    assert CloseSection(s).temp == s.temp[s.title := lst[..k] + [x] + lst[k..]];
  }

  lemma PragmaKeepsOps(s: Saver, pragmas: map<string, PragmaPair>, pragSet: bool, mode: MkMode, key: string, ops: set<string>)
    requires OpsIn(s.temp, ops) && "$PRGM_END" in ops && "$PRGM_SET" in ops
    requires PragmaStep(s, pragmas, pragSet, mode, key).Some?
    ensures OpsIn(PragmaStep(s, pragmas, pragSet, mode, key).value.temp, ops)
  {
    if s.prgm in pragmas && s.title in s.temp {
      CloseKeepsOps(s, ops);
    }
  }

  lemma SaveKeepsOps(s: Saver, pragmas: map<string, PragmaPair>, pragSet: bool, mode: MkMode, it: Item, arrType: Option<ArrType>, ops: set<string>)
    requires OpsIn(s.temp, ops) && it.op in ops && "$PRGM_END" in ops && "$PRGM_SET" in ops
    ensures OpsIn(SaveStep(s, pragmas, pragSet, mode, it, arrType).s.temp, ops)
  {
    var s1 := SaveTitle(s, mode, it.key);
    var p := SavePragma(s1, pragmas, pragSet, mode, it.key);
    if p.Some? {
      if mode == VARIABLE || mode == ARRAY || IsTitle(mode) {
        PragmaKeepsOps(s1, pragmas, pragSet, mode, it.key, ops);
      }
      StoreRowKeepsOps(p.value, it, ops);
    }
  }

  /** Rows with an opcode of the table keep every stored opcode known. */
  lemma SaveKeepsKnownOps(s: Saver, pragmas: map<string, PragmaPair>, pragSet: bool, mode: MkMode, it: Item, arrType: Option<ArrType>)
    requires KnownOps(s) && LookupOpCode(it.op).Some?
    ensures KnownOps(SaveStep(s, pragmas, pragSet, mode, it, arrType).s)
  {
    OpCodesLookup(it.op);
    SaveKeepsOps(s, pragmas, pragSet, mode, it, arrType, OpCodes);
  }
}
