/** Tab-padding arithmetic of the generator (`CalList.calculatePad`).
    Every aligned column of the generated C text is produced as
    `text.ljust(width, '\t')`; `CalculatePad` computes that width so that the
    text after the tabs starts on the same tab stop for every entry of a
    block, given the block's widest entry `align`. The tab size is 4. */
module Pad {

  const TabSize: int := 4

  /** `calculatePad(align, str_len, type_flag, add_tab)` without its memo. */
  function CalculatePad(align: int, strLen: int, typeFlag: bool, addTab: int): int
  {
    var a := if typeFlag then align + 1 else align;
    var n := if typeFlag then strLen + 1 else strLen;
    var rt := a / TabSize - n / TabSize + 1;
    var rt' := if typeFlag then rt + 1 else rt + n;
    if a % TabSize >= TabSize - addTab then rt' + 1 else rt'
  }

  /** The column reached after writing `tabs` tab characters from column
      `col` (a tab advances to the next multiple of the tab size). */
  function TabColumn(col: int, tabs: int): (c: int)
    requires col >= 0
    ensures tabs <= 0 ==> c == col
    ensures tabs > 0 ==> c % TabSize == 0 && col < c <= col + TabSize * tabs
    decreases tabs
  {
    if tabs <= 0 then col
    else TabColumn((col / TabSize + 1) * TabSize, tabs - 1)
  }

  /** The tab stop every entry of a block reaches: the stop after `align`,
      one stop further when `align` already sits within `addTab` columns of
      the next stop. */
  function BlockStop(align: int, addTab: int): int
  {
    (align / TabSize + 1 + (if align % TabSize >= TabSize - addTab then 1 else 0)) * TabSize
  }

  lemma {:induction false} TabColumnFromStop(k: int, tabs: int)
    requires k >= 0
    ensures TabColumn(k * TabSize, tabs) == (k + (if tabs > 0 then tabs else 0)) * TabSize
    decreases tabs
  {
    if tabs > 0 {
      assert (k * TabSize / TabSize + 1) * TabSize == (k + 1) * TabSize;
      TabColumnFromStop(k + 1, tabs - 1);
    }
  }

  lemma {:induction false} TabColumnAt(col: int, tabs: int)
    requires col >= 0 && tabs >= 1
    ensures TabColumn(col, tabs) == (col / TabSize + tabs) * TabSize
  {
    TabColumnFromStop(col / TabSize + 1, tabs - 1);
  }

  /** Padding a text of length `strLen` (no longer than `align`) to the width
      `CalculatePad(align, strLen, false, addTab)` with tabs always writes at
      least one tab and lands on `BlockStop(align, addTab)`, whatever the
      text's length: this is what lines the entries of a block up. */
  lemma PadAlignsText(align: int, strLen: int, addTab: int)
    requires 0 <= strLen <= align
    ensures CalculatePad(align, strLen, false, addTab) - strLen >= 1
    ensures TabColumn(strLen, CalculatePad(align, strLen, false, addTab) - strLen) == BlockStop(align, addTab)
  {
    assert strLen / TabSize <= align / TabSize;
    TabColumnAt(strLen, CalculatePad(align, strLen, false, addTab) - strLen);
  }

  /** With `type_flag` the width is meant for a one-character separator
      written right after a text of length `strLen`; the tabs after that
      separator land on `BlockStop(align + 1, addTab)` for every text no
      longer than `align`. */
  lemma PadAlignsSeparator(align: int, strLen: int, addTab: int)
    requires 0 <= strLen <= align
    ensures CalculatePad(align, strLen, true, addTab) >= 2
    ensures TabColumn(strLen + 1, CalculatePad(align, strLen, true, addTab) - 1) == BlockStop(align + 1, addTab)
  {
    assert (strLen + 1) / TabSize <= (align + 1) / TabSize;
    TabColumnAt(strLen + 1, CalculatePad(align, strLen, true, addTab) - 1);
  }

  /** The memo dictionary `pad_cache` that `calculatePad` keeps on the
      generator object: a lookup either finds an earlier result or computes
      and stores one. */
  class PadCache {
    var memo: map<(int, int, bool, int), int>

    ghost predicate Valid()
      reads this
    {
      forall k | k in memo :: memo[k] == CalculatePad(k.0, k.1, k.2, k.3)
    }

    constructor ()
      ensures Valid() && memo == map[]
    {
      memo := map[];
    }

    /** The memoised path never returns anything but the direct computation. */
    method Calculate(align: int, strLen: int, typeFlag: bool, addTab: int) returns (rt: int)
      requires Valid()
      modifies this
      ensures Valid()
      ensures rt == CalculatePad(align, strLen, typeFlag, addTab)
      ensures memo == old(memo)[(align, strLen, typeFlag, addTab) := rt]
    {
      var key := (align, strLen, typeFlag, addTab);
      if key in memo {
        rt := memo[key];
      } else {
        rt := CalculatePad(align, strLen, typeFlag, addTab);
        memo := memo[key := rt];
      }
    }
  }
}
