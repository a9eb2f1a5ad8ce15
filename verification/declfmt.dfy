/** The text `CalList.writeCalList` produces for one item of each
    declaration opcode on its Python path (code_generator/cal_list.py), the
    lines `writeCode` cuts that text into, and the display columns the
    aligned parts of the text reach once tabs are expanded to the tab size.
    Comments passed to these functions are already decorated: `Comment`
    turns a description cell into `"// " + desc`, as `writeCalList` does
    before it looks at the opcode. */
module DeclFormat {
  import opened PyStr
  import opened Info
  import Pad

  // ------------------------------------------------------------ display columns

  /** The column after writing `c` at column `col`: a tab moves to the next
      tab stop, any other character one column on. */
  function Advance(col: nat, c: char): (r: nat)
    ensures r > col
  {
    if c == '\t' then Pad.TabColumn(col, 1) else col + 1
  }

  /** The column reached after writing `s` from column `col`. */
  function ColumnAfter(col: nat, s: string): (c: nat)
    ensures c >= col + (if |s| > 0 then 1 else 0)
  {
    if |s| == 0 then col else Advance(ColumnAfter(col, s[..|s| - 1]), s[|s| - 1])
  }

  predicate NoTab(s: string) { '\t' !in s }

  lemma {:induction false} ColumnAfterAppend(col: nat, a: string, b: string)
    ensures ColumnAfter(col, a + b) == ColumnAfter(ColumnAfter(col, a), b)
    decreases |b|
  {
    if |b| == 0 {
      assert a + b == a;
    } else {
      assert (a + b)[..|a + b| - 1] == a + b[..|b| - 1];
      ColumnAfterAppend(col, a, b[..|b| - 1]);
    }
  }

  /** Text without tabs advances one column per character. */
  lemma {:induction false} ColumnAfterPlain(col: nat, s: string)
    requires NoTab(s)
    ensures ColumnAfter(col, s) == col + |s|
    decreases |s|
  {
    if |s| > 0 {
      assert forall x :: x in s[..|s| - 1] ==> x in s;
      ColumnAfterPlain(col, s[..|s| - 1]);
    }
  }

  lemma {:induction false} ColumnAfterTabs(col: nat, n: int)
    ensures ColumnAfter(col, Repeat('\t', n)) == Pad.TabColumn(col, n)
    decreases n
  {
    if n > 0 {
      var t := Repeat('\t', n);
      assert t[..|t| - 1] == Repeat('\t', n - 1);
      ColumnAfterTabs(col, n - 1);
      var before := Pad.TabColumn(col, n - 1);
      Pad.TabColumnAt(before, 1);
      Pad.TabColumnAt(col, n);
      if n > 1 {
        Pad.TabColumnAt(col, n - 1);
        assert before / 4 == col / 4 + n - 1;
      }
    }
  }

  /** Division by the tab size distributes over a tab stop. */
  lemma DivShift(start: int, x: int)
    requires start % 4 == 0
    ensures (start + x) / 4 == start / 4 + x / 4
  {
    var q := start / 4;
    var d := x / 4;
    var r := x % 4;
    assert start == 4 * q;
    assert x == 4 * d + r;
    assert start + x == 4 * (q + d) + r;
  }

  /** Tabs written from a tab stop `start` on land `start` further than from 0. */
  lemma TabColumnShift(start: nat, x: nat, k: int)
    requires start % 4 == 0 && k >= 1
    ensures Pad.TabColumn(start + x, k) == start + Pad.TabColumn(x, k)
  {
    Pad.TabColumnAt(start + x, k);
    Pad.TabColumnAt(x, k);
    DivShift(start, x);
  }

  /** Text followed by `k` tabs, written from column `start`. */
  lemma ColumnAfterTabbed(start: nat, s: string, k: int)
    requires NoTab(s)
    ensures ColumnAfter(start, s + Repeat('\t', k)) == Pad.TabColumn(start + |s|, k)
  {
    ColumnAfterAppend(start, s, Repeat('\t', k));
    ColumnAfterPlain(start, s);
    ColumnAfterTabs(start + |s|, k);
  }

  /** From a tab stop, text no longer than `align` padded with tabs to
      `CalculatePad(align, len, false, addTab)` ends on the same stop,
      `BlockStop(align, addTab)` past the start, whatever its length. */
  lemma PaddedEnds(start: nat, s: string, align: int, addTab: int)
    requires start % 4 == 0 && NoTab(s) && |s| <= align
    ensures ColumnAfter(start, LJust(s, Pad.CalculatePad(align, |s|, false, addTab), '\t'))
      == start + Pad.BlockStop(align, addTab)
  {
    var k := Pad.CalculatePad(align, |s|, false, addTab) - |s|;
    Pad.PadAlignsText(align, |s|, addTab);
    assert LJust(s, Pad.CalculatePad(align, |s|, false, addTab), '\t') == s + Repeat('\t', k);
    ColumnAfterTabbed(start, s, k);
    TabColumnShift(start, |s|, k);
  }

  /** From a tab stop, a one-character separator after text no longer than
      `align`, padded with tabs to `CalculatePad(align, len, true, addTab)`,
      ends `BlockStop(align + 1, addTab)` past the start. */
  lemma SeparatorEnds(start: nat, s: string, sep: char, align: int, addTab: int)
    requires start % 4 == 0 && NoTab(s) && sep != '\t' && |s| <= align
    ensures ColumnAfter(start, s + LJust([sep], Pad.CalculatePad(align, |s|, true, addTab), '\t'))
      == start + Pad.BlockStop(align + 1, addTab)
  {
    var k := Pad.CalculatePad(align, |s|, true, addTab) - 1;
    Pad.PadAlignsSeparator(align, |s|, addTab);
    assert s + LJust([sep], k + 1, '\t') == (s + [sep]) + Repeat('\t', k);
    assert NoTab(s + [sep]);
    ColumnAfterTabbed(start, s + [sep], k);
    TabColumnShift(start, |s| + 1, k);
  }

  /** `prefix + s.ljust(width - len(prefix), fill)` is the whole text
      left-justified to `width`. */
  lemma LJustAfterPrefix(prefix: string, s: string, width: int, fill: char)
    ensures prefix + LJust(s, width - |prefix|, fill) == LJust(prefix + s, width, fill)
  {
  }

  // ------------------------------------------------------------ shared pieces

  /** One entry of `ArrAlignList`: the widest keyword, type, name and value
      of a block of items. */
  datatype Widths = Widths(key: int, typ: int, name: int, val: int)

  /** `desc_str = "// " + desc_str` for a non-empty description. */
  function Comment(desc: string): (r: string)
    ensures desc == "" <==> r == ""
    ensures desc != "" ==> StartsWith(r, "// ")
  {
    if desc == "" then "" else "// " + desc
  }

  /** The idiom `if len(t) % TabSize >= 3: t += "\t"` then `t += "\t" + comment`
      used after fixed text. */
  function Trailing(t: string, comment: string): string
  {
    if comment == "" then t
    else t + (if |t| % 4 >= 3 then "\t" else "") + "\t" + comment
  }

  /** The tabs `Trailing` puts between a text and its comment. */
  function TrailingGapTabs(t: string): (r: string)
    ensures r == Repeat('\t', |r|) && 1 <= |r| <= 2
  {
    if |t| % 4 >= 3 then "\t\t" else "\t"
  }

  lemma TrailingShape(t: string, comment: string)
    requires comment != ""
    ensures Trailing(t, comment) == t + TrailingGapTabs(t) + comment
  {
    if |t| % 4 >= 3 {
      assert Trailing(t, comment) == t + "\t" + "\t" + comment;
      assert t + "\t" + "\t" + comment == t + "\t\t" + comment;
    }
  }

  /** After tab-free text the comment starts on a tab stop at least two
      columns after the text. */
  lemma TrailingGap(t: string, comment: string)
    requires NoTab(t) && comment != ""
    ensures Trailing(t, comment) == t + TrailingGapTabs(t) + comment
    ensures ColumnAfter(0, t + TrailingGapTabs(t)) % 4 == 0
    ensures ColumnAfter(0, t + TrailingGapTabs(t)) >= |t| + 2
  {
    TrailingShape(t, comment);
    var gap := TrailingGapTabs(t);
    ColumnAfterTabbed(0, t, |gap|);
    Pad.TabColumnAt(|t|, |gap|);
  }

  /** `"\r\n"` before a block unless the previous line is already empty. */
  function AfterBreak(emptyLine: bool, text: string): (r: string)
    ensures emptyLine ==> r == text
    ensures !emptyLine ==> r == "\r\n" + text
  {
    if emptyLine then text else "\r\n" + text
  }

  /** `key.ljust(key_align + 1)` (or `key + " "` for unpadded keys) when the
      key cell is set and is not the placeholder `Empty`. */
  function KeyPart(key: string, keyAlign: int, padded: bool): (r: string)
    ensures key == "" || key == EmptyKey ==> r == ""
    ensures key != "" && key != EmptyKey && padded ==> r == LJust(key, keyAlign + 1, ' ')
    ensures key != "" && key != EmptyKey && !padded ==> r == key + " "
  {
    if key == "" || key == EmptyKey then ""
    else if padded then LJust(key, keyAlign + 1, ' ')
    else key + " "
  }

  /** `prefix + name.ljust(calculatePad(len(prefix) + name_align,
      len(prefix) + len(name), False, 0) - len(prefix), '\t')`: the name
      after a prefix, tab-padded to the block's initializer column. */
  function NameColumn(prefix: string, name: string, nameAlign: int): string
  {
    prefix + LJust(name, Pad.CalculatePad(|prefix| + nameAlign, |prefix| + |name|, false, 0) - |prefix|, '\t')
  }

  /** Whatever the name, the text after it starts on the stop
      `BlockStop(len(prefix) + name_align, 0)`. */
  lemma NameColumnAligned(prefix: string, name: string, nameAlign: int)
    requires NoTab(prefix) && NoTab(name) && |name| <= nameAlign
    ensures ColumnAfter(0, NameColumn(prefix, name, nameAlign)) == Pad.BlockStop(|prefix| + nameAlign, 0)
  {
    var pn := prefix + name;
    var w := Pad.CalculatePad(|prefix| + nameAlign, |pn|, false, 0);
    LJustAfterPrefix(prefix, name, w, '\t');
    assert NameColumn(prefix, name, nameAlign) == LJust(pn, w, '\t');
    assert NoTab(pn);
    PaddedEnds(0, pn, |prefix| + nameAlign, 0);
  }

  /** The header side of an initialised declaration:
      `hdr + name + ";".ljust(calculatePad(len(hdr) + name_align + 1,
      len(hdr) + len(name) + 1, False, 1) - len(hdr) - len(name), '\t') + comment`,
      or `hdr + name + ";"` without a comment. */
  function HeaderDecl(hdr: string, name: string, comment: string, nameAlign: int): string
  {
    if comment == "" then hdr + name + ";"
    else
      var w := Pad.CalculatePad(|hdr| + nameAlign + 1, |hdr| + |name| + 1, false, 1);
      hdr + name + LJust(";", w - |hdr| - |name|, '\t') + comment
  }

  /** The header comment of every declaration of a block starts on the stop
      `BlockStop(len(hdr) + name_align + 1, 1)`. */
  lemma HeaderDeclAligned(hdr: string, name: string, comment: string, nameAlign: int)
    requires NoTab(hdr) && NoTab(name) && |name| <= nameAlign && comment != ""
    ensures var w := Pad.CalculatePad(|hdr| + nameAlign + 1, |hdr| + |name| + 1, false, 1);
      var text := hdr + name + LJust(";", w - |hdr| - |name|, '\t');
      HeaderDecl(hdr, name, comment, nameAlign) == text + comment &&
      ColumnAfter(0, text) == Pad.BlockStop(|hdr| + nameAlign + 1, 1)
  {
    var w := Pad.CalculatePad(|hdr| + nameAlign + 1, |hdr| + |name| + 1, false, 1);
    HeaderDeclText(hdr, name, w);
    assert ColumnAfter(0, LJust(hdr + name + ";", w, '\t')) == Pad.BlockStop(|hdr| + nameAlign + 1, 1) by {
      assert NoTab(hdr + name + ";");
      PaddedEnds(0, hdr + name + ";", |hdr| + nameAlign + 1, 1);
    }
  }

  lemma HeaderDeclText(hdr: string, name: string, w: int)
    ensures hdr + name + LJust(";", w - |hdr| - |name|, '\t') == LJust(hdr + name + ";", w, '\t')
  {
    LJustAfterPrefix(hdr + name, ";", w, '\t');
  }

  /** `a` is a prefix of `a + b + c`. */
  lemma StartsWithLonger(a: string, b: string, c: string)
    ensures StartsWith(a + b + c, a)
  {
    assert (a + b + c)[..|a|] == a;
  }

  // ------------------------------------------------------------ per opcode

  /** `$SUBTITLE`: a banner comment naming the group. */
  function SubtitleBlock(name: string): string
  {
    StartAnnotation[2] + "\r\n\t@name\t: " + name + "\r\n" + EndAnnotation[2]
  }

  /** `$DESCRIPT`: a one-line block comment. */
  function DescriptLine(name: string): string
  {
    "/* " + name + " */"
  }

  /** `$DEFINE`: `#define`, the name padded to the block's value column and
      the value, padded to the block's comment column when a comment
      follows. */
  function DefineLine(name: string, val: string, comment: string, nameAlign: int, valAlign: int): string
  {
    var head := "#define\t" + LJust(name, Pad.CalculatePad(nameAlign, |name|, false, 1), '\t');
    if comment == "" then head + val
    else head + LJust(val, Pad.CalculatePad(valAlign, |val|, false, 1), '\t') + comment
  }

  /** Every `#define` of a block puts its value on the stop
      `8 + BlockStop(name_align, 1)` and its comment on the stop
      `BlockStop(val_align, 1)` further, for names and values no wider than
      the block's widest. */
  lemma DefineAligned(name: string, val: string, comment: string, nameAlign: int, valAlign: int)
    requires NoTab(name) && |name| <= nameAlign
    ensures var head := "#define\t" + LJust(name, Pad.CalculatePad(nameAlign, |name|, false, 1), '\t');
      StartsWith(DefineLine(name, val, comment, nameAlign, valAlign), head) &&
      ColumnAfter(0, head) == 8 + Pad.BlockStop(nameAlign, 1)
    ensures comment != "" && NoTab(val) && |val| <= valAlign ==>
      var text := "#define\t" + LJust(name, Pad.CalculatePad(nameAlign, |name|, false, 1), '\t')
        + LJust(val, Pad.CalculatePad(valAlign, |val|, false, 1), '\t');
      DefineLine(name, val, comment, nameAlign, valAlign) == text + comment &&
      ColumnAfter(0, text) == 8 + Pad.BlockStop(nameAlign, 1) + Pad.BlockStop(valAlign, 1)
  {
    var head := "#define\t" + LJust(name, Pad.CalculatePad(nameAlign, |name|, false, 1), '\t');
    var vpad := LJust(val, Pad.CalculatePad(valAlign, |val|, false, 1), '\t');
    DefineHeadColumn(name, nameAlign);
    if comment == "" {
      StartsWithConcat(head, val);
    } else {
      StartsWithLonger(head, vpad, comment);
      if NoTab(val) && |val| <= valAlign {
        ColumnAfterAppend(0, head, vpad);
        PaddedEnds(8 + Pad.BlockStop(nameAlign, 1), val, valAlign, 1);
      }
    }
  }

  /** `#define` and its tab end on column 8, the padded name on the block's
      value stop. */
  lemma DefineHeadColumn(name: string, nameAlign: int)
    requires NoTab(name) && |name| <= nameAlign
    ensures ColumnAfter(0, "#define\t" + LJust(name, Pad.CalculatePad(nameAlign, |name|, false, 1), '\t'))
      == 8 + Pad.BlockStop(nameAlign, 1)
  {
    var padded := LJust(name, Pad.CalculatePad(nameAlign, |name|, false, 1), '\t');
    ColumnAfterAppend(0, "#define\t", padded);
    assert ColumnAfter(0, "#define\t") == 8 by {
      assert "#define\t" == "#define" + Repeat('\t', 1);
      ColumnAfterTabbed(0, "#define", 1);
      Pad.TabColumnAt(7, 1);
    }
    PaddedEnds(8, name, nameAlign, 1);
  }

  /** `$TYPEDEF`: the opening line of a structure definition. */
  function TypedefLine(name: string, comment: string): string
  {
    "typedef struct " + (if name != "" then name + " " else "") + "{\t" + comment
  }

  /** `$STR_MEM` as written: a member with neither a bit width nor a comment
      is `"\t" + type.ljust(type_align + 1) + name + ";"`; every other member
      reaches `temp_str.length`, which Python strings do not have, and the
      AttributeError ends the whole generation (None). */
  function StrMemLine(typ: string, name: string, val: string, comment: string, typeAlign: int): (r: Option<string>)
    ensures r.Some? <==> val == "" && comment == ""
  {
    if val == "" && comment == "" then Some("\t" + LJust(typ, typeAlign + 1, ' ') + name + ";")
    else None
  }

  /** A structure member carrying a description never yields a line. */
  lemma StrMemCommentFails(typ: string, name: string, val: string, desc: string, typeAlign: int)
    requires desc != ""
    ensures StrMemLine(typ, name, val, Comment(desc), typeAlign) == None
  {
  }

  /** `$STR_MEM` with `len(temp_str)` where the source writes
      `temp_str.length`: the member name follows the padded type, a bit
      width follows `" : "` on the block's column, and a comment follows. */
  function StrMemLineCorrected(typ: string, name: string, val: string, comment: string, w: Widths): (r: string)
  {
    var t := LJust(typ, w.typ + 1, ' ');
    if val == "" then
      var u := t + name + ";";
      if comment == "" then "\t" + u
      else if w.val == 0 then
        var p := Pad.CalculatePad(|u| + w.name, |u| + |name|, true, 1);
        "\t" + u + LJust("\t", p - 1, '\t') + comment
      else
        var p := Pad.CalculatePad(|u| + w.name, |u| + |name|, true, 0);
        var q := Pad.CalculatePad(w.val + 3, -1, true, 1);
        "\t" + u + LJust("\t", p - 1, '\t') + LJust("\t", q - 1, '\t') + comment
    else
      var head := NameColumn(t, name, w.name) + ": " + val;
      if comment == "" then "\t" + head + ";"
      else "\t" + head + LJust(";", Pad.CalculatePad(w.val + 2, |val| + 2, true, 1), '\t') + comment
  }

  /** The corrected member always yields a line, agrees with the source on
      the members the source can write, and puts the bit width of every
      member of a block after `" : "` on the same stop. */
  lemma StrMemCorrectedAligned(typ: string, name: string, val: string, comment: string, w: Widths)
    ensures val == "" && comment == "" ==>
      Some(StrMemLineCorrected(typ, name, val, comment, w)) == StrMemLine(typ, name, val, comment, w.typ)
    ensures val != "" && NoTab(typ) && NoTab(name) && |typ| <= w.typ && |name| <= w.name ==>
      var head := "\t" + NameColumn(LJust(typ, w.typ + 1, ' '), name, w.name);
      StartsWith(StrMemLineCorrected(typ, name, val, comment, w), head + ": " + val) &&
      ColumnAfter(0, head) == 4 + Pad.BlockStop(w.typ + 1 + w.name, 0)
  {
    var t := LJust(typ, w.typ + 1, ' ');
    if val == "" && comment == "" {
      assert "\t" + (t + name + ";") == "\t" + t + name + ";";
    }
    if val != "" && NoTab(typ) && NoTab(name) && |typ| <= w.typ && |name| <= w.name {
      StrMemWidthPrefix(typ, name, val, comment, w);
      assert NoTab(t);
      StrMemNameColumn(t, name, w.name);
    }
  }

  lemma StrMemWidthPrefix(typ: string, name: string, val: string, comment: string, w: Widths)
    requires val != ""
    ensures var head := "\t" + NameColumn(LJust(typ, w.typ + 1, ' '), name, w.name);
      StartsWith(StrMemLineCorrected(typ, name, val, comment, w), head + ": " + val)
  {
    var nc := NameColumn(LJust(typ, w.typ + 1, ' '), name, w.name);
    var h := nc + ": " + val;
    assert "\t" + nc + ": " + val == "\t" + h;
    if comment == "" {
      assert "\t" + h + ";" == ("\t" + h) + ";";
      StartsWithConcat("\t" + h, ";");
    } else {
      var sep := LJust(";", Pad.CalculatePad(w.val + 2, |val| + 2, true, 1), '\t');
      assert "\t" + h + sep + comment == ("\t" + h) + sep + comment;
      StartsWithLonger("\t" + h, sep, comment);
    }
  }

  lemma StrMemNameColumn(t: string, name: string, nameAlign: int)
    requires NoTab(t) && NoTab(name) && |name| <= nameAlign
    ensures ColumnAfter(0, "\t" + NameColumn(t, name, nameAlign)) == 4 + Pad.BlockStop(|t| + nameAlign, 0)
  {
    var nc := NameColumn(t, name, nameAlign);
    NameColumnAligned(t, name, nameAlign);
    ColumnAfterAppend(0, "\t", nc);
    assert ColumnAfter(0, "\t") == 4 by { Pad.TabColumnAt(0, 1); }
    ColumnAfterShift(nc, 1);
  }

  /** Text written from column `4 * k` ends `4 * k` further than from 0. */
  lemma {:induction false} ColumnAfterShift(s: string, k: nat)
    ensures ColumnAfter(4 * k, s) == 4 * k + ColumnAfter(0, s)
    decreases |s|
  {
    if |s| > 0 {
      ColumnAfterShift(s[..|s| - 1], k);
      var c := ColumnAfter(0, s[..|s| - 1]);
      if s[|s| - 1] == '\t' {
        Pad.TabColumnAt(c, 1);
        Pad.TabColumnAt(4 * k + c, 1);
        assert (4 * k + c) / 4 == k + c / 4;
      }
    }
  }

  /** `$STR_DEF`: the closing line of a structure definition. */
  function StrDefLine(name: string, comment: string): string
  {
    Trailing("} " + name + ";", comment) + "\r\n"
  }

  /** `$ENUM`: the opening line of an enumeration. */
  function EnumLine(name: string, comment: string): string
  {
    if name == "" then "enum {\t" + comment else Trailing("enum " + name + " {", comment)
  }

  /** `$ENUM_MEM`: an enumerator, with its value after `"= "` when the
      value cell is set. */
  function EnumMemLine(name: string, val: string, comment: string, nameAlign: int, valAlign: int): string
  {
    if val == "" then
      var t := name + ",";
      if comment == "" then "\t" + t
      else if valAlign == 0 then
        "\t" + t + LJust("\t", Pad.CalculatePad(nameAlign, |name|, true, 1) - 1, '\t') + comment
      else
        "\t" + t + LJust("\t", Pad.CalculatePad(nameAlign, |name|, true, 0) - 1, '\t')
          + LJust("\t", Pad.CalculatePad(valAlign + 3, -1, true, 1) - 1, '\t') + comment
    else
      EnumValueHead(name, nameAlign) + "= " + val + EnumValueTail(val, comment, valAlign)
  }

  /** The indented enumerator name, padded to the block's `"= "` column. */
  function EnumValueHead(name: string, nameAlign: int): string
  {
    "\t" + LJust(name, Pad.CalculatePad(nameAlign, |name|, false, 0), '\t')
  }

  /** The `,` after a value, padded to the block's comment column when a
      comment follows. */
  function EnumValueTail(val: string, comment: string, valAlign: int): string
  {
    if comment == "" then "," else EnumValueSep(val, valAlign) + comment
  }

  function EnumValueSep(val: string, valAlign: int): string
  {
    LJust(",", Pad.CalculatePad(valAlign + 2, |val| + 2, true, 1), '\t')
  }

  lemma StartsWithConcat(a: string, b: string)
    ensures StartsWith(a + b, a)
  {
    assert (a + b)[..|a|] == a;
  }

  /** A tab and then text padded to a block column, from column 0. */
  lemma TabThenPadded(s: string, align: int, addTab: int)
    requires NoTab(s) && |s| <= align
    ensures ColumnAfter(0, "\t" + LJust(s, Pad.CalculatePad(align, |s|, false, addTab), '\t'))
      == 4 + Pad.BlockStop(align, addTab)
  {
    var padded := LJust(s, Pad.CalculatePad(align, |s|, false, addTab), '\t');
    ColumnAfterAppend(0, "\t", padded);
    assert ColumnAfter(0, "\t") == 4 by { Pad.TabColumnAt(0, 1); }
    PaddedEnds(4, s, align, addTab);
  }

  /** Every enumerator of a block with a value puts `"= "` on the stop
      `4 + BlockStop(name_align, 0)`. */
  lemma EnumMemAligned(name: string, val: string, comment: string, nameAlign: int, valAlign: int)
    requires val != "" && NoTab(name) && |name| <= nameAlign
    ensures StartsWith(EnumMemLine(name, val, comment, nameAlign, valAlign), EnumValueHead(name, nameAlign) + "= " + val)
    ensures ColumnAfter(0, EnumValueHead(name, nameAlign)) == 4 + Pad.BlockStop(nameAlign, 0)
  {
    StartsWithConcat(EnumValueHead(name, nameAlign) + "= " + val, EnumValueTail(val, comment, valAlign));
    TabThenPadded(name, nameAlign, 0);
  }

  /** An enumerator with a value and a comment puts the comment on the stop
      `BlockStop(val_align + 3, 1)` after the `"= "` column, for values no
      wider than the block's widest. */
  lemma EnumMemCommentAligned(name: string, val: string, nameAlign: int, valAlign: int)
    requires NoTab(name) && |name| <= nameAlign
    requires NoTab(val) && |val| <= valAlign
    ensures ColumnAfter(0, EnumValueHead(name, nameAlign) + ("= " + val + EnumValueSep(val, valAlign)))
        == 4 + Pad.BlockStop(nameAlign, 0) + Pad.BlockStop(valAlign + 3, 1)
  {
    var m := 4 + Pad.BlockStop(nameAlign, 0);
    TabThenPadded(name, nameAlign, 0);
    EnumValueSepEnds(m, val, valAlign);
    ColumnAfterAppend(0, EnumValueHead(name, nameAlign), "= " + val + EnumValueSep(val, valAlign));
  }

  lemma EnumValueSepEnds(m: nat, val: string, valAlign: int)
    requires m % 4 == 0 && NoTab(val) && |val| <= valAlign
    ensures ColumnAfter(m, "= " + val + EnumValueSep(val, valAlign)) == m + Pad.BlockStop(valAlign + 3, 1)
  {
    assert NoTab("= " + val);
    SeparatorEnds(m, "= " + val, ',', valAlign + 2, 1);
  }

  lemma BlockStopIsStop(align: int, addTab: int)
    ensures Pad.BlockStop(align, addTab) % 4 == 0
  {
    var q := align / 4 + 1 + (if align % 4 >= 4 - addTab then 1 else 0);
    assert Pad.BlockStop(align, addTab) == q * 4;
  }

  /** `$ENUM_END`: the closing line of an enumeration. */
  function EnumEndLine(comment: string): string
  {
    "};" + (if comment != "" then "\t" + comment else "") + "\r\n"
  }

  /** Both files of a `$VARIABLE` item as the source writes them: the
      definition with its initialiser in the source file and the `extern`
      declaration in the header. With an empty value cell the header gets
      only `extern`, the keyword and the padded type: neither the name nor
      the `;` is written. */
  function VariableLines(key: string, typ: string, name: string, val: string, comment: string, w: Widths): (r: (string, string))
    ensures val == "" ==> r.1 == "extern " + KeyPart(key, w.key, true) + LJust(typ, w.typ + 1, ' ')
  {
    var kp := KeyPart(key, w.key, true);
    var tp := LJust(typ, w.typ + 1, ' ');
    var src := kp + tp;
    var hdr := "extern " + kp + tp;
    var pad := Pad.CalculatePad(|src| + w.name, |src| + |name|, false, 0);
    if val == "" then
      var s := src + name + ";";
      if comment == "" then (s, hdr)
      else (s + LJust("\t", pad - |s| - |name|, '\t') + comment, hdr)
    else
      var s := NameColumn(src, name, w.name) + "= ";
      if comment == "" then (s + val + ";", hdr + name + ";")
      else
        var p := Pad.CalculatePad(w.val - 1, |val| - 1, false, 1);
        (s + val + LJust(";", p - |val| + 2, '\t') + comment, HeaderDecl(hdr, name, comment, w.name))
  }

  /** A variable without an initial value yields a header line that
      declares no name: it is `"extern "` and the type padded with spaces,
      whatever the name, and holds no `;` when the type holds none. */
  lemma VariableHeaderLosesName(typ: string, name: string, comment: string, w: Widths)
    ensures VariableLines("", typ, name, "", comment, w).1 == "extern " + LJust(typ, w.typ + 1, ' ')
    ensures ';' !in typ ==> ';' !in VariableLines("", typ, name, "", comment, w).1
  {
    var t := LJust(typ, w.typ + 1, ' ');
    var h := VariableLines("", typ, name, "", comment, w).1;
    assert h == "extern " + t;
  }

  /** `$VARIABLE` with the header declaring the variable whether or not it
      has an initial value: the header line is the one the source writes
      for an initialised variable. */
  function VariableLinesCorrected(key: string, typ: string, name: string, val: string, comment: string, w: Widths): (r: (string, string))
  {
    var kp := KeyPart(key, w.key, true);
    var tp := LJust(typ, w.typ + 1, ' ');
    (VariableLines(key, typ, name, val, comment, w).0, HeaderDecl("extern " + kp + tp, name, comment, w.name))
  }

  /** The corrected header declares the name, ends in `;` without a
      comment, does not depend on the value, and keeps the source's text
      for initialised variables. */
  lemma VariableCorrectedDeclares(key: string, typ: string, name: string, val: string, comment: string, w: Widths)
    ensures var h := VariableLinesCorrected(key, typ, name, val, comment, w).1;
      StartsWith(h, "extern " + KeyPart(key, w.key, true) + LJust(typ, w.typ + 1, ' ') + name) &&
      (comment == "" ==> EndsWith(h, name + ";"))
    ensures forall v :: VariableLinesCorrected(key, typ, name, v, comment, w).1 == VariableLinesCorrected(key, typ, name, val, comment, w).1
    ensures val != "" ==> VariableLinesCorrected(key, typ, name, val, comment, w) == VariableLines(key, typ, name, val, comment, w)
  {
    var p := "extern " + KeyPart(key, w.key, true) + LJust(typ, w.typ + 1, ' ') + name;
    var h := VariableLinesCorrected(key, typ, name, val, comment, w).1;
    assert h[..|p|] == p;
  }

  /** The initialiser of every variable of a block starts on the stop
      `BlockStop(len(key part + type part) + name_align, 0)`. */
  lemma VariableAligned(key: string, typ: string, name: string, val: string, comment: string, w: Widths)
    requires val != "" && NoTab(key) && NoTab(typ) && NoTab(name) && |name| <= w.name
    ensures var prefix := KeyPart(key, w.key, true) + LJust(typ, w.typ + 1, ' ');
      StartsWith(VariableLines(key, typ, name, val, comment, w).0, NameColumn(prefix, name, w.name) + "= " + val) &&
      ColumnAfter(0, NameColumn(prefix, name, w.name)) == Pad.BlockStop(|prefix| + w.name, 0)
  {
    var prefix := KeyPart(key, w.key, true) + LJust(typ, w.typ + 1, ' ');
    assert NoTab(KeyPart(key, w.key, true));
    assert NoTab(prefix);
    var h := NameColumn(prefix, name, w.name) + "= " + val;
    var s := VariableLines(key, typ, name, val, comment, w).0;
    assert s[..|h|] == h;
    NameColumnAligned(prefix, name, w.name);
  }

  /** Four replacements turn every run of spaces in an array value into tabs. */
  function TabifyValue(val: string): (r: string)
    ensures ' ' !in r
  {
    var v := Replace(Replace(Replace(val, "    ", "\t"), "   ", "\t"), "  ", "\t");
    ReplaceNoPattern(v, " ", "\t");
    AbsentOfNotContained(Replace(v, " ", "\t"), ' ');
    Replace(v, " ", "\t")
  }

  lemma AbsentOfNotContained(s: string, c: char)
    requires !Contains(s, [c])
    ensures c !in s
  {
    if c in s {
      var k :| 0 <= k < |s| && s[k] == c;
      assert s[k..k + 1] == [c];
      assert OccursAt(s, [c], k);
    }
  }

  /** `$ARRAY` of a two-dimensional table written on one line (Type2):
      definition with initialiser and `extern` declaration. */
  function ArrayInlineLines(key: string, typ: string, name: string, val: string, comment: string, w: Widths): (r: (string, string))
  {
    var kp := KeyPart(key, w.key, true);
    var tp := LJust(typ, w.typ + 1, ' ');
    var s := NameColumn(kp + tp, name, w.name) + "= ";
    var hdr := "extern " + kp + tp;
    var p := Pad.CalculatePad(w.val, |val|, true, 1);
    var v := TabifyValue(val);
    if comment == "" then (s + v + ";", hdr + name + ";")
    else (s + v + LJust(";", p, '\t') + comment, HeaderDecl(hdr, name, comment, w.name))
  }

  /** The initialiser of every inline array of a block starts on the same
      stop, and the value it carries has no spaces left. */
  lemma ArrayInlineAligned(key: string, typ: string, name: string, val: string, comment: string, w: Widths)
    requires NoTab(key) && NoTab(typ) && NoTab(name) && |name| <= w.name
    ensures var prefix := KeyPart(key, w.key, true) + LJust(typ, w.typ + 1, ' ');
      StartsWith(ArrayInlineLines(key, typ, name, val, comment, w).0,
                 NameColumn(prefix, name, w.name) + "= " + TabifyValue(val)) &&
      ColumnAfter(0, NameColumn(prefix, name, w.name)) == Pad.BlockStop(|prefix| + w.name, 0)
  {
    var prefix := KeyPart(key, w.key, true) + LJust(typ, w.typ + 1, ' ');
    assert NoTab(prefix) by {
      assert NoTab(KeyPart(key, w.key, true));
    }
    ArrayInlinePrefix(key, typ, name, val, comment, w);
    NameColumnAligned(prefix, name, w.name);
  }

  lemma ArrayInlinePrefix(key: string, typ: string, name: string, val: string, comment: string, w: Widths)
    ensures var prefix := KeyPart(key, w.key, true) + LJust(typ, w.typ + 1, ' ');
      StartsWith(ArrayInlineLines(key, typ, name, val, comment, w).0,
                 NameColumn(prefix, name, w.name) + "= " + TabifyValue(val))
  {
    var prefix := KeyPart(key, w.key, true) + LJust(typ, w.typ + 1, ' ');
    var h := NameColumn(prefix, name, w.name) + "= " + TabifyValue(val);
    if comment == "" {
      StartsWithConcat(h, ";");
    } else {
      StartsWithLonger(h, LJust(";", Pad.CalculatePad(w.val, |val|, true, 1), '\t'), comment);
    }
  }

  /** `$ARRAY` of any other table: `type name =` and its comment, then the
      opening brace on the next line, and the `extern` declaration. */
  function ArrayHeadLines(key: string, typ: string, name: string, comment: string): (r: (string, string))
    ensures EndsWith(r.0, "\r\n{")
    ensures StartsWith(r.1, "extern " + KeyPart(key, 0, false) + typ + " " + name + ";")
  {
    var kp := KeyPart(key, 0, false);
    var s := Trailing(kp + typ + " " + name + " =", comment) + "\r\n{";
    var h := Trailing("extern " + kp + typ + " " + name + ";", comment);
    assert s[|s| - 3..] == "\r\n{";
    assert h[..|"extern " + kp + typ + " " + name + ";"|] == "extern " + kp + typ + " " + name + ";";
    (s, h)
  }

  /** `$CODE`: the cell text with every line break written as CR LF. */
  function CodeText(name: string): string
  {
    Replace(name, "\n", "\r\n")
  }

  /** One `#pragma section` line opening a class. */
  function PragmaSetLine(c: PragInfo): string
  {
    "#pragma section  " + c.className + " \"" + c.setIString + "\" \"" + c.setUString + "\" " + c.setAddrMode + "\r\n"
  }

  /** One `#pragma section` line closing a class. */
  function PragmaEndLine(c: PragInfo): string
  {
    "#pragma section  " + c.className + " \"" + c.endIString + "\" \"" + c.endUString + "\" \r\n"
  }

  /** `writePragma` for a registered keyword: an optional blank line, the
      first class's code before, one directive per class, the first class's
      code after. */
  function PragmaText(opening: bool, p: PragmaPair, emptyLine: bool): string
  {
    var pre := if p.class1.preCode != "" then p.class1.preCode + "\r\n" else "";
    var post := if p.class1.endCode != "" then p.class1.endCode + "\r\n" else "";
    var body := if opening then PragmaSetLine(p.class1) + PragmaSetLine(p.class2)
                else PragmaEndLine(p.class1) + PragmaEndLine(p.class2);
    (if emptyLine then "" else "\r\n") + pre + body + post
  }

  /** `writePragma(mode, key, empty_line)`: nothing for a keyword without a
      pragma entry. */
  function WritePragma(dPragma: map<string, PragmaPair>, opening: bool, key: string, emptyLine: bool): (r: string)
    ensures key !in dPragma ==> r == ""
    ensures key in dPragma ==> r == PragmaText(opening, dPragma[key], emptyLine)
  {
    if key in dPragma then PragmaText(opening, dPragma[key], emptyLine) else ""
  }

  // ------------------------------------------------------------ writeCode

  /** The pieces `writeCode` appends for a text: a text with a CR LF loses
      one trailing CR LF and all its CRs, is split at LF and gets the
      trailing CR LF back on its last piece; any other text is one piece. */
  function CodePieces(code: string): (r: seq<string>)
    ensures |r| >= 1
  {
    if Contains(code, "\r\n") then
      var trailing := EndsWith(code, "\r\n");
      var temp := if trailing then code[..|code| - 2] else code;
      var pieces := Split(Replace(temp, "\r", ""), "\n");
      if trailing then pieces[..|pieces| - 1] + [pieces[|pieces| - 1] + "\r\n"] else pieces
    else [code]
  }

  /** The lines `writeCode` appends, each behind the current indentation. */
  function CodeLines(frontTab: string, code: string): (r: seq<string>)
    ensures |r| == |CodePieces(code)|
    ensures forall i :: 0 <= i < |r| ==> r[i] == frontTab + CodePieces(code)[i]
  {
    Indented(frontTab, CodePieces(code))
  }

  /** Each piece behind the indentation `tab`. */
  function Indented(tab: string, pieces: seq<string>): (r: seq<string>)
    ensures |r| == |pieces|
    ensures forall i :: 0 <= i < |r| ==> r[i] == tab + pieces[i]
  {
    seq(|pieces|, i requires 0 <= i < |pieces| => tab + pieces[i])
  }

  lemma {:induction false} JoinExtendLast(parts: seq<string>, sep: string, x: string)
    requires |parts| >= 1
    ensures Join(parts[..|parts| - 1] + [parts[|parts| - 1] + x], sep) == Join(parts, sep) + x
    decreases |parts|
  {
    if |parts| > 1 {
      var q := parts[..|parts| - 1] + [parts[|parts| - 1] + x];
      assert q[1..] == parts[1..][..|parts[1..]| - 1] + [parts[1..][|parts[1..]| - 1] + x];
      JoinExtendLast(parts[1..], sep, x);
    }
  }

  /** The pieces after the indentation, joined again with LF, give the
      text without CRs, with a trailing CR LF kept as CR LF. */
  lemma CodePiecesJoin(code: string)
    requires Contains(code, "\r\n")
    ensures var trailing := EndsWith(code, "\r\n");
      var temp := if trailing then code[..|code| - 2] else code;
      Join(CodePieces(code), "\n") == Replace(temp, "\r", "") + (if trailing then "\r\n" else "")
  {
    var trailing := EndsWith(code, "\r\n");
    var temp := if trailing then code[..|code| - 2] else code;
    var pieces := Split(Replace(temp, "\r", ""), "\n");
    if trailing {
      assert CodePieces(code) == pieces[..|pieces| - 1] + [pieces[|pieces| - 1] + "\r\n"];
      JoinExtendLast(pieces, "\n", "\r\n");
    } else {
      assert CodePieces(code) == pieces;
    }
  }

  /** Every piece but the last holds no line feed. */
  lemma CodePiecesLines(code: string)
    requires Contains(code, "\r\n")
    ensures forall i :: 0 <= i < |CodePieces(code)| - 1 ==> !Contains(CodePieces(code)[i], "\n")
  {
    var trailing := EndsWith(code, "\r\n");
    var temp := if trailing then code[..|code| - 2] else code;
    var pieces := Split(Replace(temp, "\r", ""), "\n");
    var cp := CodePieces(code);
    assert |cp| == |pieces|;
    forall i | 0 <= i < |cp| - 1 ensures !Contains(cp[i], "\n") {
      assert cp[i] == pieces[i];
    }
  }

  /** A text without CR LF is one line. */
  lemma CodeLinesSingle(frontTab: string, code: string)
    requires !Contains(code, "\r\n")
    ensures CodeLines(frontTab, code) == [frontTab + code]
  {
  }
}
