/** The float-suffix rewriter `CalList._apply_float_suffix` (Python path,
    with the suffix feature switched on). Every decimal numeral of a cell
    becomes a C floating constant of type `float` (section 6.4.4.2 of
    ISO/IEC 9899:2011): `1` becomes `1.f`, `3.` becomes `3.f` and `1.5`
    becomes `1.5f`; everything else in the cell is kept as it is.

    The source splits the cell with `re.split(r'(\s+|[^\w\.])', cell)`,
    which keeps the separators: the pieces alternate between runs of
    word characters (`[\w.]`, possibly empty) and separators (a maximal
    whitespace run, or one other character). */
module FloatSuffix {
  import opened PyStr

  /** `\w` for a text pattern: ASCII letters and digits, `_`, and (as an
      approximation of Unicode's letters and digits) every non-ASCII
      character that is not whitespace. */
  predicate IsWordChar(c: char)
  {
    IsAsciiLetter(c) || IsAsciiDigit(c) || c == '_' || ((c as int) >= 0x80 && !IsSpace(c))
  }

  /** `[\w.]` */
  predicate IsTokenChar(c: char) { IsWordChar(c) || c == '.' }

  predicate AllTokenChars(s: string) { forall i :: 0 <= i < |s| ==> IsTokenChar(s[i]) }

  predicate AllSpace(s: string) { forall i :: 0 <= i < |s| ==> IsSpace(s[i]) }

  /** Length of the longest prefix of `[\w.]` characters. */
  function WordLen(s: string): (n: nat)
    ensures n <= |s|
    ensures AllTokenChars(s[..n])
    ensures n < |s| ==> !IsTokenChar(s[n])
  {
    if |s| > 0 && IsTokenChar(s[0]) then
      var n := 1 + WordLen(s[1..]);
      assert s[..n] == [s[0]] + s[1..][..n - 1];
      n
    else 0
  }

  /** Length of the longest whitespace prefix. */
  function SpaceLen(s: string): (n: nat)
    ensures n <= |s|
    ensures AllSpace(s[..n])
    ensures n < |s| ==> !IsSpace(s[n])
  {
    if |s| > 0 && IsSpace(s[0]) then
      var n := 1 + SpaceLen(s[1..]);
      assert s[..n] == [s[0]] + s[1..][..n - 1];
      n
    else 0
  }

  /** Where the separator that starts at `n` ends: a whitespace run is taken
      whole (the `\s+` alternative), any other character alone. */
  function SeparatorEnd(s: string, n: nat): (m: nat)
    requires n < |s|
    ensures n < m <= |s|
  {
    if IsSpace(s[n]) then
      var k := SpaceLen(s[n..]);
      assert s[n..][0] == s[n];
      n + k
    else n + 1
  }

  /** `re.split(r'(\s+|[^\w\.])', s)`: words at even positions, separators
      at odd positions. */
  function Tokens(s: string): (r: seq<string>)
    ensures |r| % 2 == 1
    ensures Concat(r) == s
    decreases |s|
  {
    var n := WordLen(s);
    if n == |s| then [s]
    else
      var m := SeparatorEnd(s, n);
      var rest := Tokens(s[m..]);
      TokensStep(s, n, m, rest);
      [s[..n], s[n..m]] + rest
  }

  lemma TokensStep(s: string, n: nat, m: nat, rest: seq<string>)
    requires n < m <= |s| && Concat(rest) == s[m..] && |rest| % 2 == 1
    ensures Concat([s[..n], s[n..m]] + rest) == s
    ensures |[s[..n], s[n..m]] + rest| % 2 == 1
  {
    ConcatCons2(s[..n], s[n..m], rest);
    assert s == s[..n] + s[n..m] + s[m..];
  }

  /** `''.join(parts)` */
  function Concat(parts: seq<string>): string
  {
    if |parts| == 0 then [] else parts[0] + Concat(parts[1..])
  }

  lemma ConcatSingle(a: string)
    ensures Concat([a]) == a
  {
    assert [a][1..] == [];
  }

  lemma ConcatCons2(a: string, b: string, rest: seq<string>)
    ensures Concat([a, b] + rest) == a + b + Concat(rest)
  {
    assert ([a, b] + rest)[1..] == [b] + rest;
    assert ([b] + rest)[1..] == rest;
  }

  /** The numerals `^\d+\.?\d*$`: a digit, then digits with at most one `.`. */
  predicate IsNumeral(w: string)
  {
    |w| > 0 && IsAsciiDigit(w[0])
    && (forall i :: 0 <= i < |w| ==> IsAsciiDigit(w[i]) || w[i] == '.')
    && (forall i, j :: 0 <= i < j < |w| && w[i] == '.' ==> w[j] != '.')
  }

  /** The rewrite of one piece: a numeral gains `f` when it has a point and
      `.f` when it has none; every other piece is kept. */
  function SuffixToken(w: string): (r: string)
    ensures IsNumeral(w) && !EndsWith(w, "f") && !EndsWith(w, "F") ==>
      r == w + (if Contains(w, ".") then "f" else ".f")
    ensures !IsNumeral(w) ==> r == w
  {
    if !IsNumeral(w) then w
    else if EndsWith(w, "f") || EndsWith(w, "F") then w
    else if Contains(w, ".") then w + "f"
    else w + ".f"
  }

  function SuffixAll(ts: seq<string>): (r: seq<string>)
    ensures |r| == |ts|
    ensures forall i :: 0 <= i < |ts| ==> r[i] == SuffixToken(ts[i])
  {
    seq(|ts|, i requires 0 <= i < |ts| => SuffixToken(ts[i]))
  }

  /** The token-wise rewrite of a whole cell. */
  function Rewrite(s: string): string
  {
    Concat(SuffixAll(Tokens(s)))
  }

  /** `_apply_float_suffix(cell)` */
  function ApplyFloatSuffix(cell: string): (r: string)
    ensures (cell == [] || EndsWith(cell, "f") || EndsWith(cell, "F")
             || Contains(cell, "/*") || Contains(cell, "//")) ==> r == cell
  {
    if cell == [] then cell
    else if EndsWith(cell, "f") || EndsWith(cell, "F") then cell
    else if Contains(cell, "/*") || Contains(cell, "//") then cell
    else Rewrite(cell)
  }

  // ------------------------------------------------------------ properties

  /** A separator of the split: a maximal whitespace run or one character
      outside `[\w.]`. */
  predicate IsSeparator(t: string)
  {
    t != [] && !IsTokenChar(t[0]) && (AllSpace(t) || |t| == 1)
  }

  /** Words at even positions, separators at odd positions. */
  predicate Alternates(ts: seq<string>)
  {
    forall i :: 0 <= i < |ts| ==> if i % 2 == 0 then AllTokenChars(ts[i]) else IsSeparator(ts[i])
  }

  lemma AlternatesCons2(w: string, sep: string, rest: seq<string>)
    requires AllTokenChars(w) && IsSeparator(sep) && Alternates(rest)
    ensures Alternates([w, sep] + rest)
  {
    var ts := [w, sep] + rest;
    forall i | 0 <= i < |ts|
      ensures if i % 2 == 0 then AllTokenChars(ts[i]) else IsSeparator(ts[i])
    {
      if i >= 2 {
        assert ts[i] == rest[i - 2];
        assert (i - 2) % 2 == i % 2;
      }
    }
  }

  lemma SeparatorShape(s: string, n: nat)
    requires n < |s| && !IsTokenChar(s[n])
    ensures IsSeparator(s[n..SeparatorEnd(s, n)])
  {
    var m := SeparatorEnd(s, n);
    if IsSpace(s[n]) {
      assert s[n..m] == s[n..][..m - n];
    }
  }

  /** The split loses nothing: joining the pieces gives the cell back, the
      words are maximal runs of `[\w.]` and every separator is a maximal
      whitespace run or one other character. */
  lemma {:induction false} TokensShape(s: string)
    ensures Concat(Tokens(s)) == s
    ensures Alternates(Tokens(s))
    decreases |s|
  {
    var n := WordLen(s);
    if n < |s| {
      var m := SeparatorEnd(s, n);
      TokensShape(s[m..]);
      SeparatorShape(s, n);
      AlternatesCons2(s[..n], s[n..m], Tokens(s[m..]));
    }
  }

  lemma SuffixTokenIdempotent(w: string)
    ensures SuffixToken(SuffixToken(w)) == SuffixToken(w)
  {
    var r := SuffixToken(w);
    if r != w {
      assert r[|r| - 1] == 'f';
      assert !IsAsciiDigit(r[|r| - 1]);
    }
  }

  lemma SuffixTokenChars(w: string)
    requires AllTokenChars(w)
    ensures AllTokenChars(SuffixToken(w))
    ensures |SuffixToken(w)| >= |w| && SuffixToken(w)[..|w|] == w
  {
    var r := SuffixToken(w);
    assert IsTokenChar('f') && IsTokenChar('.');
    if r != w {
      forall i | 0 <= i < |r| ensures IsTokenChar(r[i]) {
        if i >= |w| { assert r[i] == 'f' || r[i] == '.'; }
      }
    }
  }

  lemma WordLenOf(a: string, b: string)
    requires AllTokenChars(a)
    requires b == [] || !IsTokenChar(b[0])
    ensures WordLen(a + b) == |a|
    decreases |a|
  {
    if |a| > 0 {
      assert (a + b)[1..] == a[1..] + b;
      WordLenOf(a[1..], b);
    }
  }

  lemma SpaceLenOf(a: string, b: string)
    requires AllSpace(a)
    requires b == [] || !IsSpace(b[0])
    ensures SpaceLen(a + b) == |a|
    decreases |a|
  {
    if |a| > 0 {
      assert (a + b)[1..] == a[1..] + b;
      SpaceLenOf(a[1..], b);
    }
  }

  lemma RewriteWord(s: string)
    requires WordLen(s) == |s|
    ensures Rewrite(s) == SuffixToken(s)
  {
    assert Tokens(s) == [s];
    assert SuffixAll([s]) == [SuffixToken(s)];
    ConcatSingle(SuffixToken(s));
  }

  lemma RewriteStep(s: string)
    requires WordLen(s) < |s|
    ensures Rewrite(s) == SuffixToken(s[..WordLen(s)])
      + s[WordLen(s)..SeparatorEnd(s, WordLen(s))] + Rewrite(s[SeparatorEnd(s, WordLen(s))..])
  {
    var n := WordLen(s);
    var m := SeparatorEnd(s, n);
    var w, sep, ts := s[..n], s[n..m], Tokens(s[m..]);
    var fw := SuffixToken(w);
    TokensAt(s, n, m);
    assert sep[0] == s[n];
    SeparatorKept(sep);
    SuffixAllCons2(w, sep, ts);
    assert SuffixAll(Tokens(s)) == [fw, sep] + SuffixAll(ts);
    ConcatCons2(fw, sep, SuffixAll(ts));
  }

  lemma SeparatorKept(sep: string)
    requires sep != [] && !IsTokenChar(sep[0])
    ensures SuffixToken(sep) == sep
  {
    assert !IsAsciiDigit(sep[0]);
  }

  lemma SuffixAllCons2(a: string, b: string, rest: seq<string>)
    ensures SuffixAll([a, b] + rest) == [SuffixToken(a), SuffixToken(b)] + SuffixAll(rest)
  {
    var l, r := SuffixAll([a, b] + rest), [SuffixToken(a), SuffixToken(b)] + SuffixAll(rest);
    assert |l| == |r|;
    forall i | 0 <= i < |l| ensures l[i] == r[i] {
      if i >= 2 { assert ([a, b] + rest)[i] == rest[i - 2]; }
    }
  }

  /** The rewrite keeps the first character and empties only the empty cell. */
  lemma RewriteHead(s: string)
    ensures Rewrite(s) == [] <==> s == []
    ensures s != [] ==> Rewrite(s)[0] == s[0]
  {
    var n := WordLen(s);
    if n == |s| {
      RewriteWord(s);
      SuffixTokenChars(s);
    } else {
      var m := SeparatorEnd(s, n);
      RewriteStep(s);
      SuffixTokenChars(s[..n]);
      if n > 0 {
        assert s[..n][0] == s[0];
      } else {
        assert s[n..m][0] == s[0];
      }
    }
  }

  /** Splitting the rewritten cell gives the rewritten pieces: the rewrite
      never merges or splits a piece. */
  lemma {:induction false} TokensOfRewrite(s: string)
    ensures Tokens(Rewrite(s)) == SuffixAll(Tokens(s))
    decreases |s|
  {
    var n := WordLen(s);
    var ts := Tokens(s);
    if n == |s| {
      RewriteWord(s);
      SuffixTokenChars(s);
      WordLenOf(SuffixToken(s), []);
      assert SuffixToken(s) + [] == SuffixToken(s);
    } else {
      var m := SeparatorEnd(s, n);
      var w, sep, rest := s[..n], s[n..m], s[m..];
      TokensAt(s, n, m);
      var fw := SuffixToken(w);
      SeparatorKept(sep);
      SeparatorShape(s, n);
      SuffixAllCons2(w, sep, Tokens(rest));
      var g := Rewrite(rest);
      RewriteStep(s);
      TokensOfRewrite(rest);
      RewriteHead(rest);
      SuffixTokenChars(w);
      if IsSpace(s[n]) {
        SeparatorMaximal(s, n);
      }
      TokensOfJoined(fw, sep, g);
    }
  }

  /** A word, a separator and text that does not continue the separator's
      run split back into the word, the separator and the text's pieces. */
  lemma TokensOfJoined(fw: string, sep: string, g: string)
    requires AllTokenChars(fw) && IsSeparator(sep)
    requires g == [] || !IsSpace(sep[0]) || !IsSpace(g[0])
    ensures Tokens(fw + sep + g) == [fw, sep] + Tokens(g)
  {
    assert (sep + g)[0] == sep[0];
    WordLenOf(fw, sep + g);
    SeparatorEndOf(fw, sep, g);
    var t := fw + sep + g;
    AppendAssoc(fw, sep, g);
    TokensAt(t, |fw|, |fw| + |sep|);
    assert t[..|fw|] == fw;
    assert t[|fw|..|fw| + |sep|] == sep;
    assert t[|fw| + |sep|..] == g;
  }

  lemma AppendAssoc(a: string, b: string, c: string)
    ensures a + b + c == a + (b + c)
  {
  }

  /** One step of the split: the word at the front, then the separator. */
  lemma TokensAt(t: string, a: nat, b: nat)
    requires WordLen(t) == a < |t| && SeparatorEnd(t, a) == b
    ensures Tokens(t) == [t[..a], t[a..b]] + Tokens(t[b..])
  {
  }

  /** A whitespace separator runs up to the next visible character. */
  lemma SeparatorMaximal(s: string, n: nat)
    requires n < |s| && IsSpace(s[n])
    ensures SeparatorEnd(s, n) == |s| || !IsSpace(s[SeparatorEnd(s, n)])
  {
    var k := SpaceLen(s[n..]);
    if n + k < |s| {
      assert s[n..][k] == s[n + k];
    }
  }

  /** A separator followed by text that does not continue its run is
      recognised whole after any word. */
  lemma SeparatorEndOf(fw: string, sep: string, g: string)
    requires IsSeparator(sep)
    requires g == [] || !IsSpace(sep[0]) || !IsSpace(g[0])
    ensures SeparatorEnd(fw + sep + g, |fw|) == |fw| + |sep|
  {
    var t := fw + sep + g;
    assert t[|fw|] == sep[0];
    if IsSpace(sep[0]) {
      assert t[|fw|..] == sep + g;
      SpaceLenOf(sep, g);
    }
  }

  lemma SuffixAllIdempotent(ts: seq<string>)
    ensures SuffixAll(SuffixAll(ts)) == SuffixAll(ts)
  {
    forall i | 0 <= i < |ts| ensures SuffixAll(SuffixAll(ts))[i] == SuffixAll(ts)[i] {
      SuffixTokenIdempotent(ts[i]);
    }
  }

  /** Rewriting a rewritten cell changes nothing more. */
  lemma RewriteIdempotent(s: string)
    ensures Rewrite(Rewrite(s)) == Rewrite(s)
  {
    TokensOfRewrite(s);
    SuffixAllIdempotent(Tokens(s));
  }

  /** Applying the suffix twice equals applying it once. */
  lemma ApplyFloatSuffixIdempotent(cell: string)
    ensures ApplyFloatSuffix(ApplyFloatSuffix(cell)) == ApplyFloatSuffix(cell)
  {
    var r := ApplyFloatSuffix(cell);
    if r != cell {
      assert r == Rewrite(cell);
      RewriteIdempotent(cell);
    }
  }
}
