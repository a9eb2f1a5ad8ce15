/** The project-definition nesting machine of `CalList.writeCalList`:
    `$PRJT_DEF` rows open, continue and close preprocessor conditionals
    (section 6.10.1 of ISO/IEC 9899:2011) and `$TITLE` rows close every
    level still open. The open levels live in a fixed list of five slots
    (`prjtList`) indexed by `prjtDepth`; an index the list does not have
    raises IndexError, which the write loop catches per item. */
module Prjt {
  import opened PyStr
  import opened Info
  import DeclFormat

  /** `prjtList` always holds five slots. */
  const Levels: nat := 5

  /** `prjtList`, `prjtDepth` and `currentPrjtDef`. */
  datatype Nest = Nest(slots: seq<PrjtInfo>, depth: int, current: string)

  /** A `$PRJT_DEF` row either emits its text or raises IndexError, keeping
      whatever state it changed before the error. */
  datatype Step = Emit(nest: Nest, text: string) | Fault(nest: Nest)

  /** The state `CalList.__init__` sets up. */
  function Initial(): (n: Nest)
    ensures Valid(n) && n.depth == -1 && n.current == ""
  {
    Nest(seq(Levels, _ => PrjtInfo("", [])), -1, "")
  }

  /** The shape every sequence of steps from the initial state keeps, as
      long as the names are non-empty and no sixth level is opened: levels
      0 to `depth` each hold at least one value, and the current name is
      the definition of the innermost level. */
  predicate Valid(n: Nest)
  {
    |n.slots| == Levels && -1 <= n.depth < Levels &&
    (forall i :: 0 <= i <= n.depth ==> |n.slots[i].vals| >= 1) &&
    (n.current != "" ==> 0 <= n.depth && n.slots[n.depth].def == n.current)
  }

  /** `i` tabs; none for `i <= 0`, like `for j in range(i)`. */
  function Tabs(i: int): (r: string)
    ensures |r| == Max(i, 0) && AllTabs(r)
  {
    Repeat('\t', i)
  }

  predicate AllTabs(s: string)
  {
    forall k :: 0 <= k < |s| ==> s[k] == '\t'
  }

  /** One more tab is the indentation of the next level. */
  lemma TabsNext(i: nat)
    ensures Tabs(i) + "\t" == Tabs(i + 1)
  {
    var a := Tabs(i) + "\t";
    assert |a| == |Tabs(i + 1)|;
    assert forall k :: 0 <= k < |a| ==> a[k] == Tabs(i + 1)[k];
  }

  /** Slots `lo` to `hi` replaced by the empty entry of `name`, the rest kept. */
  function ResetRange(s: seq<PrjtInfo>, lo: int, hi: int, name: string): (r: seq<PrjtInfo>)
    ensures |r| == |s|
    ensures forall k :: 0 <= k < |s| ==> r[k] == (if lo <= k <= hi then PrjtInfo(name, []) else s[k])
  {
    seq(|s|, k requires 0 <= k < |s| => if lo <= k <= hi then PrjtInfo(name, []) else s[k])
  }

  /** Resetting one more slot below a reset range extends the range. */
  lemma ResetOneMore(s: seq<PrjtInfo>, i: int, hi: int, name: string)
    requires 0 <= i < |s| && i <= hi
    ensures ResetRange(s, i + 1, hi, name)[i := PrjtInfo(name, [])] == ResetRange(s, i, hi, name)
  {
    var a := ResetRange(s, i + 1, hi, name)[i := PrjtInfo(name, [])];
    assert forall k :: 0 <= k < |s| ==> a[k] == ResetRange(s, i, hi, name)[k];
  }

  // ---------------------------------------------------------------- $PRJT_DEF

  datatype Search = Found(level: nat) | Missing | SearchFault

  /** `for i in range(prjtDepth, -1, -1): if prjtList[i].Def == name`: the
      innermost level at or below `i` defining `name`. */
  function FindLevel(s: seq<PrjtInfo>, i: int, name: string): (r: Search)
    ensures r.SearchFault? <==> i >= |s|
    ensures r.Found? ==> i < |s| && r.level <= i && s[r.level].def == name
    ensures r.Found? ==> forall j :: r.level < j <= i ==> s[j].def != name
    ensures r.Missing? ==> i < |s| && forall j :: 0 <= j <= i ==> s[j].def != name
    decreases i + 1
  {
    if i < 0 then Missing
    else if i >= |s| then SearchFault
    else if s[i].def == name then Found(i)
    else FindLevel(s, i - 1, name)
  }

  /** The lines that close one level `t` left without a `DEFAULT` branch. */
  function LevelClose(t: int, def: string): string
  {
    Tabs(t) + "#else\r\n" + Tabs(t) + "\t#error undefined " + def + " MACRO\r\n\r\n" + Tabs(t) + "#endif\r\n\r\n"
  }

  /** The text that closes levels `d` down to `t + 1`, innermost first. */
  function CloseText(s: seq<PrjtInfo>, d: int, t: int): string
    requires 0 <= t && (t < d ==> d < |s|)
    decreases d - t
  {
    if d <= t then "" else CloseText(s, d, t + 1) + LevelClose(t + 1, s[t + 1].def)
  }

  /** The condition opening a new level: `#if 1` and `#if 0` are written
      as they are, any other name is compared with the value. */
  function IfLine(name: string, val: string): (r: string)
    ensures name == "1" || name == "0" ==> r == "#if " + name
    ensures name != "1" && name != "0" ==> r == "#if (" + name + " == " + val + ")"
  {
    if name == "1" || name == "0" then "#if " + name else "#if (" + name + " == " + val + ")"
  }

  /** The line ending the innermost level: a missing `DEFAULT` branch is
      replaced by one that stops compilation. */
  function EndLine(slot: PrjtInfo): string
    requires |slot.vals| >= 1
  {
    if slot.vals[|slot.vals| - 1] != ElsePrjtName then
      "#else\r\n\t#error undefined " + slot.def + " MACRO\r\n\r\n#endif"
    else "#endif"
  }

  /** A name not yet open: one level deeper, holding the value. */
  function Open(n: Nest, name: string, val: string, comment: string): Step
  {
    var text := DeclFormat.Trailing(IfLine(name, val), comment) + "\r\n";
    match PyIndex(|n.slots|, n.depth + 1)
    case None => Fault(n.(depth := n.depth + 1))
    case Some(k) => Emit(Nest(n.slots[k := PrjtInfo(name, [val])], n.depth + 1, name), text)
  }

  /** A name on the innermost level: `DEFAULT` gives `#else`, `END`
      closes the level and anything else gives `#elif`; `pre` is the text
      already produced by closing inner levels. */
  function Continue(n: Nest, pre: string, name: string, val: string, comment: string): Step
  {
    match PyIndex(|n.slots|, n.depth)
    case None => Fault(n)
    case Some(k) =>
      var slot := n.slots[k];
      if val == ElsePrjtName then
        Emit(Nest(n.slots[k := slot.(vals := slot.vals + [val])], n.depth, name),
             DeclFormat.Trailing(pre + "#else", comment) + "\r\n")
      else if val == EndPrjtName then
        if |slot.vals| == 0 then Fault(n)
        else Emit(Nest(n.slots[k := PrjtInfo(name, [])], n.depth - 1, ""),
                  DeclFormat.Trailing(pre + EndLine(slot), comment) + "\r\n")
      else
        Emit(Nest(n.slots[k := slot.(vals := slot.vals + [val])], n.depth, name),
             DeclFormat.Trailing(pre + "#elif (" + name + " == " + val + ")", comment) + "\r\n")
  }

  /** One `$PRJT_DEF` row. A name other than the current one that is open
      on some level closes every level inside it first; a name open nowhere
      opens a new level. */
  function PrjtStep(n: Nest, name: string, val: string, comment: string): Step
  {
    if name == n.current then Continue(n, "", name, val, comment)
    else match FindLevel(n.slots, n.depth, name)
      case SearchFault => Fault(n)
      case Found(i) =>
        Continue(Nest(ResetRange(n.slots, i + 1, n.depth, name), i, n.current),
                 CloseText(n.slots, n.depth, i), name, val, comment)
      case Missing => Open(n, name, val, comment)
  }

  /** From a valid state and with a non-empty name, a row fails exactly
      when it would open a sixth level, and every other row leads to a
      valid state again. */
  lemma PrjtStepKeepsValid(n: Nest, name: string, val: string, comment: string)
    requires Valid(n) && name != ""
    ensures PrjtStep(n, name, val, comment).Fault? <==>
      name != n.current && FindLevel(n.slots, n.depth, name).Missing? && n.depth == Levels - 1
    ensures PrjtStep(n, name, val, comment).Emit? ==> Valid(PrjtStep(n, name, val, comment).nest)
  {
    if name == n.current {
      ContinueKeepsValid(n, "", name, val, comment);
    } else {
      match FindLevel(n.slots, n.depth, name)
      case Found(i) => FoundKeepsValid(n, i, name, val, comment);
      case Missing => MissingKeepsValid(n, name, val, comment);
    }
  }

  /** A name found on an outer level continues that level. */
  lemma FoundKeepsValid(n: Nest, i: nat, name: string, val: string, comment: string)
    requires Valid(n) && name != "" && name != n.current
    requires FindLevel(n.slots, n.depth, name) == Found(i)
    ensures PrjtStep(n, name, val, comment).Emit?
    ensures Valid(PrjtStep(n, name, val, comment).nest)
  {
    assert 0 <= i <= n.depth;
    var pre := CloseText(n.slots, n.depth, i);
    var m := Nest(ResetRange(n.slots, i + 1, n.depth, name), i, n.current);
    assert PrjtStep(n, name, val, comment) == Continue(m, pre, name, val, comment);
    assert Valid(m.(current := name));
    ContinueKeepsValid(m.(current := name), pre, name, val, comment);
    ContinueIgnoresCurrent(m, pre, name, val, comment);
  }

  /** `Continue` reads the current name only to hand back a failed state. */
  lemma ContinueIgnoresCurrent(m: Nest, pre: string, name: string, val: string, comment: string)
    ensures Continue(m.(current := name), pre, name, val, comment).Emit? ==>
      Continue(m, pre, name, val, comment) == Continue(m.(current := name), pre, name, val, comment)
  {
  }

  /** A name on no level opens a new one, unless five are open. */
  lemma MissingKeepsValid(n: Nest, name: string, val: string, comment: string)
    requires Valid(n) && name != "" && name != n.current
    requires FindLevel(n.slots, n.depth, name) == Missing
    ensures PrjtStep(n, name, val, comment).Fault? <==> n.depth == Levels - 1
    ensures PrjtStep(n, name, val, comment).Emit? ==> Valid(PrjtStep(n, name, val, comment).nest)
  {
    assert PrjtStep(n, name, val, comment) == Open(n, name, val, comment);
  }

  lemma ContinueKeepsValid(n: Nest, pre: string, name: string, val: string, comment: string)
    requires Valid(n) && name != "" && n.current == name
    ensures Continue(n, pre, name, val, comment).Emit?
    ensures Valid(Continue(n, pre, name, val, comment).nest)
  {
  }

  /** Once a sixth level has been opened the depth stays at five: every
      later `$PRJT_DEF` row fails without changing anything. */
  lemma OverflowSticks(n: Nest, name: string, val: string, comment: string)
    requires |n.slots| == Levels && n.depth == Levels
    ensures PrjtStep(n, name, val, comment) == Fault(n)
  {
  }

  /** Opening a sixth level fails with the depth already raised to five. */
  lemma SixthLevelOverflows(n: Nest, name: string, val: string, comment: string)
    requires Valid(n) && n.depth == Levels - 1 && name != "" && name != n.current
    requires forall j :: 0 <= j < Levels ==> n.slots[j].def != name
    ensures PrjtStep(n, name, val, comment) == Fault(n.(depth := Levels))
  {
  }

  /** A new name opens a level with `#if (name == val)`; `END` on it
      closes it again with a branch that stops compilation, since it never
      saw `DEFAULT`, and the depth is back where it was. */
  lemma OpenThenEnd(n: Nest, name: string, val: string)
    requires Valid(n) && n.depth < Levels - 1 && name != "" && name != n.current
    requires name != "1" && name != "0" && val != ElsePrjtName
    requires forall j :: 0 <= j <= n.depth ==> n.slots[j].def != name
    ensures var s1 := PrjtStep(n, name, val, "");
      s1 == Emit(Nest(n.slots[n.depth + 1 := PrjtInfo(name, [val])], n.depth + 1, name),
                 "#if (" + name + " == " + val + ")\r\n") &&
      var s2 := PrjtStep(s1.nest, name, EndPrjtName, "");
      s2 == Emit(Nest(n.slots[n.depth + 1 := PrjtInfo(name, [])], n.depth, ""),
                 "#else\r\n\t#error undefined " + name + " MACRO\r\n\r\n#endif\r\n")
  {
    OpenFresh(n, name, val);
    var m := PrjtStep(n, name, val, "").nest;
    EndFresh(m, name);
    assert m.slots[m.depth := PrjtInfo(name, [])] == n.slots[n.depth + 1 := PrjtInfo(name, [])];
  }

  lemma OpenFresh(n: Nest, name: string, val: string)
    requires -1 <= n.depth < |n.slots| - 1 && name != n.current
    requires name != "1" && name != "0"
    requires FindLevel(n.slots, n.depth, name) == Missing
    ensures PrjtStep(n, name, val, "") ==
      Emit(Nest(n.slots[n.depth + 1 := PrjtInfo(name, [val])], n.depth + 1, name),
           "#if (" + name + " == " + val + ")\r\n")
  {
    OpenAt(n, name, val, "");
  }

  lemma EndFresh(m: Nest, name: string)
    requires 0 <= m.depth < |m.slots| && m.current == name
    requires m.slots[m.depth].def == name && |m.slots[m.depth].vals| == 1
    requires m.slots[m.depth].vals[0] != ElsePrjtName
    ensures PrjtStep(m, name, EndPrjtName, "") ==
      Emit(Nest(m.slots[m.depth := PrjtInfo(name, [])], m.depth - 1, ""),
           "#else\r\n\t#error undefined " + name + " MACRO\r\n\r\n#endif\r\n")
  {
    EndAt(m, "", name, "");
    assert "" + EndLine(m.slots[m.depth]) == "#else\r\n\t#error undefined " + name + " MACRO\r\n\r\n#endif";
  }

  /** A new name below the fifth level opens the next slot. */
  lemma OpenAt(n: Nest, name: string, val: string, comment: string)
    requires -1 <= n.depth < |n.slots| - 1
    ensures Open(n, name, val, comment)
      == Emit(Nest(n.slots[n.depth + 1 := PrjtInfo(name, [val])], n.depth + 1, name),
              DeclFormat.Trailing(IfLine(name, val), comment) + "\r\n")
  {
  }

  /** `END` on an existing level holding a value. */
  lemma EndAt(n: Nest, pre: string, name: string, comment: string)
    requires 0 <= n.depth < |n.slots| && |n.slots[n.depth].vals| >= 1
    ensures Continue(n, pre, name, EndPrjtName, comment)
      == Emit(Nest(n.slots[n.depth := PrjtInfo(name, [])], n.depth - 1, ""),
              DeclFormat.Trailing(pre + EndLine(n.slots[n.depth]), comment) + "\r\n")
  {
  }

  /** `DEFAULT` on an existing level is appended to it. */
  lemma DefaultAt(n: Nest, pre: string, name: string, comment: string)
    requires 0 <= n.depth < |n.slots|
    ensures var slot := n.slots[n.depth];
      Continue(n, pre, name, ElsePrjtName, comment)
      == Emit(Nest(n.slots[n.depth := slot.(vals := slot.vals + [ElsePrjtName])], n.depth, name),
              DeclFormat.Trailing(pre + "#else", comment) + "\r\n")
  {
  }

  /** Any other value on an existing level is appended to it. */
  lemma ElifAt(n: Nest, pre: string, name: string, val: string, comment: string)
    requires 0 <= n.depth < |n.slots| && val != EndPrjtName && val != ElsePrjtName
    ensures var slot := n.slots[n.depth];
      Continue(n, pre, name, val, comment)
      == Emit(Nest(n.slots[n.depth := slot.(vals := slot.vals + [val])], n.depth, name),
              DeclFormat.Trailing(pre + "#elif (" + name + " == " + val + ")", comment) + "\r\n")
  {
  }

  /** `#if`, `DEFAULT` and `END` on one name give `#if`, `#else` and a
      plain `#endif`. */
  lemma OpenDefaultEnd(n: Nest, name: string, val: string)
    requires Valid(n) && n.depth < Levels - 1 && name != "" && name != n.current
    requires name != "1" && name != "0"
    requires forall j :: 0 <= j <= n.depth ==> n.slots[j].def != name
    ensures var s1 := PrjtStep(n, name, val, "");
      s1.Emit? && s1.text == "#if (" + name + " == " + val + ")\r\n" &&
      var s2 := PrjtStep(s1.nest, name, ElsePrjtName, "");
      s2.Emit? && s2.text == "#else\r\n" && s2.nest.depth == n.depth + 1 &&
      var s3 := PrjtStep(s2.nest, name, EndPrjtName, "");
      s3.Emit? && s3.text == "#endif\r\n" && s3.nest.depth == n.depth && s3.nest.current == ""
  {
    var s1 := PrjtStep(n, name, val, "");
    assert s1 == Open(n, name, val, "") by {
      assert FindLevel(n.slots, n.depth, name) == Missing;
    }
    OpenAt(n, name, val, "");
    var s2 := PrjtStep(s1.nest, name, ElsePrjtName, "");
    DefaultAt(s1.nest, "", name, "");
    assert "" + "#else" == "#else";
    var s3 := PrjtStep(s2.nest, name, EndPrjtName, "");
    assert s2.nest.slots[n.depth + 1].vals == [val, ElsePrjtName];
    EndAt(s2.nest, "", name, "");
    assert "" + EndLine(s2.nest.slots[n.depth + 1]) == "#endif";
  }

  /** Another value of the current name adds an `#elif` on the same level. */
  lemma ElifStaysOnLevel(n: Nest, name: string, val: string)
    requires 0 <= n.depth < |n.slots| && name == n.current
    requires val != ElsePrjtName && val != EndPrjtName
    ensures var s := PrjtStep(n, name, val, "");
      s.Emit? && s.nest.depth == n.depth && s.nest.current == name &&
      s.nest.slots[n.depth].vals == n.slots[n.depth].vals + [val] &&
      s.text == "#elif (" + name + " == " + val + ")\r\n"
  {
    var line := "#elif (" + name + " == " + val + ")";
    assert PrjtStep(n, name, val, "") == Continue(n, "", name, val, "");
    ElifAt(n, "", name, val, "");
    assert "" + line == line;
  }

  /** A name open on an outer level closes every level inside it, each with
      its own `#else`/`#error`/`#endif` lines, and the row then continues on
      that outer level. */
  lemma ReselectOuter(n: Nest, i: nat, name: string, val: string)
    requires Valid(n) && name != "" && name != n.current && i <= n.depth
    requires n.slots[i].def == name && forall j :: i < j <= n.depth ==> n.slots[j].def != name
    requires val != ElsePrjtName && val != EndPrjtName
    ensures var s := PrjtStep(n, name, val, "");
      s.Emit? && s.nest.depth == i && s.nest.current == name &&
      (forall k :: i < k <= n.depth ==> s.nest.slots[k] == PrjtInfo(name, [])) &&
      s.text == CloseText(n.slots, n.depth, i) + "#elif (" + name + " == " + val + ")\r\n"
  {
    FindLevelFindsInnermost(n.slots, n.depth, i, name);
    var m := Nest(ResetRange(n.slots, i + 1, n.depth, name), i, n.current);
    assert PrjtStep(n, name, val, "") == Continue(m, CloseText(n.slots, n.depth, i), name, val, "");
    ElifAt(m, CloseText(n.slots, n.depth, i), name, val, "");
    ElifLineText(CloseText(n.slots, n.depth, i), name, val);
    var slots := PrjtStep(n, name, val, "").nest.slots;
    assert slots == m.slots[i := m.slots[i].(vals := m.slots[i].vals + [val])];
    forall k | i < k <= n.depth ensures slots[k] == PrjtInfo(name, []) {
      assert slots[k] == m.slots[k];
    }
  }

  lemma ElifLineText(pre: string, name: string, val: string)
    ensures DeclFormat.Trailing(pre + "#elif (" + name + " == " + val + ")", "") + "\r\n"
      == pre + "#elif (" + name + " == " + val + ")\r\n"
  {
    var a := pre + "#elif (" + name + " == " + val;
    assert a + ")" + "\r\n" == a + ")\r\n";
  }

  lemma {:induction false} FindLevelFindsInnermost(s: seq<PrjtInfo>, d: int, i: nat, name: string)
    requires i <= d < |s| && s[i].def == name && forall j :: i < j <= d ==> s[j].def != name
    ensures FindLevel(s, d, name) == Found(i)
    decreases d
  {
    if d > i {
      FindLevelFindsInnermost(s, d - 1, i, name);
    }
  }

  /** Closing levels `d` down to `t + 1` writes one `#endif` line for each,
      indented by its own depth. */
  lemma {:induction false} CloseTextEndifs(s: seq<PrjtInfo>, d: int, t: int, k: int)
    requires 0 <= t < k <= d < |s|
    ensures Contains(CloseText(s, d, t), Tabs(k) + "#endif\r\n\r\n")
    decreases k - t
  {
    var tail := LevelClose(t + 1, s[t + 1].def);
    if k == t + 1 {
      var e := Tabs(k) + "#endif\r\n\r\n";
      var front := Tabs(k) + "#else\r\n" + Tabs(k) + "\t#error undefined " + s[k].def + " MACRO\r\n\r\n";
      assert tail == front + e;
      ContainsSuffix(CloseText(s, d, t + 1) + front, e);
      assert CloseText(s, d, t) == (CloseText(s, d, t + 1) + front) + e;
    } else {
      CloseTextEndifs(s, d, t + 1, k);
      ContainsPrefix(CloseText(s, d, t + 1), tail, Tabs(k) + "#endif\r\n\r\n");
    }
  }

  lemma ContainsSuffix(a: string, e: string)
    ensures Contains(a + e, e)
  {
    assert OccursAt(a + e, e, |a|) by {
      assert (a + e)[|a|..|a| + |e|] == e;
    }
  }

  lemma ContainsPrefix(a: string, b: string, e: string)
    requires Contains(a, e)
    ensures Contains(a + b, e)
  {
    var k :| 0 <= k <= |a| - |e| && OccursAt(a, e, k);
    assert OccursAt(a + b, e, k) by {
      assert (a + b)[k..k + |e|] == a[k..k + |e|];
    }
  }

  // ---------------------------------------------------------------- $TITLE

  /** Levels `t + 1` to `d` all exist and each holds a value. */
  predicate Closable(s: seq<PrjtInfo>, d: int, t: int)
  {
    forall k :: t < k <= d ==> Valued(s, k)
  }

  /** Level `k` exists and holds a value. */
  predicate Valued(s: seq<PrjtInfo>, k: int)
  {
    0 <= k < |s| && |s[k].vals| >= 1
  }

  /** One level inside a closable range has a slot with a value. */
  lemma ClosableAt(s: seq<PrjtInfo>, d: int, t: int, k: int)
    requires Closable(s, d, t) && t < k <= d
    ensures 0 <= k < |s| && |s[k].vals| >= 1
  {
    assert Valued(s, k);
  }

  /** The innermost level at or below `d` a `$TITLE` row cannot close
      (one past the list or without a value), or -1. */
  function TitleFaultLevel(s: seq<PrjtInfo>, d: int): (k: int)
    ensures -1 <= k <= Max(d, -1)
    ensures k >= 0 ==> k >= |s| || |s[k].vals| == 0
    ensures Closable(s, d, k)
    decreases d + 1
  {
    if d < 0 then -1
    else if d >= |s| || |s[d].vals| == 0 then d
    else TitleFaultLevel(s, d - 1)
  }

  /** The lines closing level `i`: the compilation-stopping `#else` when
      the level's last value is not `DEFAULT`, the indented `#endif`, and
      a blank line between levels. */
  function TitleLevelLines(i: int, slot: PrjtInfo): seq<string>
    requires |slot.vals| >= 1
  {
    (if slot.vals[|slot.vals| - 1] != ElsePrjtName
     then [Tabs(i) + "#else", Tabs(i) + "\t#error undefined " + slot.def + " MACRO", ""]
     else [])
    + [Tabs(i) + "#endif"] + (if i > 0 then [""] else [])
  }

  /** The lines closing levels `d` down to `t + 1`, innermost first. */
  function TitleLines(s: seq<PrjtInfo>, d: int, t: int): seq<string>
    requires -1 <= t && Closable(s, d, t)
    decreases d - t
  {
    if d <= t then []
    else
      assert Valued(s, t + 1);
      TitleLines(s, d, t + 1) + TitleLevelLines(t + 1, s[t + 1])
  }

  datatype TitleClose = Closed(slots: seq<PrjtInfo>, lines: seq<string>) | TitleFault(slots: seq<PrjtInfo>)

  /** The levels a `$TITLE` row closes, from `prjtDepth` down to 0, each
      slot reset to the title's name; a level that cannot be closed raises
      IndexError with the levels inside it already reset. */
  function CloseForTitle(s: seq<PrjtInfo>, d: int, name: string): TitleClose
  {
    var k := TitleFaultLevel(s, d);
    if k >= 0 then TitleFault(ResetRange(s, k + 1, d, name))
    else Closed(ResetRange(s, 0, d, name), TitleLines(s, d, -1))
  }

  /** From a valid state a `$TITLE` row always closes every open level. */
  lemma TitleClosesValid(n: Nest, name: string)
    requires Valid(n)
    ensures CloseForTitle(n.slots, n.depth, name).Closed?
    ensures Valid(Nest(CloseForTitle(n.slots, n.depth, name).slots, -1, ""))
  {
    ClosableNoFault(n.slots, n.depth);
  }

  lemma {:induction false} ClosableNoFault(s: seq<PrjtInfo>, d: int)
    requires Closable(s, d, -1)
    ensures TitleFaultLevel(s, d) == -1
    decreases d + 1
  {
    if d >= 0 {
      ClosableAt(s, d, -1, d);
      ClosableNoFault(s, d - 1);
    }
  }

  /** The first level, counted from `d` down, that cannot be closed is the
      one `TitleFaultLevel` names. */
  lemma {:induction false} TitleFaultAt(s: seq<PrjtInfo>, d: int, i: int)
    requires 0 <= i <= d && Closable(s, d, i) && (i >= |s| || |s[i].vals| == 0)
    ensures TitleFaultLevel(s, d) == i
    decreases d - i
  {
    if d > i {
      ClosableAt(s, d, i, d);
      TitleFaultAt(s, d - 1, i);
    }
  }

  /** Every closed level gets its own `#endif`, indented by its depth. */
  lemma {:induction false} TitleLinesEndifs(s: seq<PrjtInfo>, d: int, t: int, k: int)
    requires -1 <= t < k <= d && Closable(s, d, t)
    ensures Tabs(k) + "#endif" in TitleLines(s, d, t)
    decreases k - t
  {
    if k == t + 1 {
      ClosableAt(s, d, t, k);
      assert Tabs(k) + "#endif" in TitleLevelLines(k, s[k]);
    } else {
      TitleLinesEndifs(s, d, t + 1, k);
    }
  }
}
