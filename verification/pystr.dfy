/** Python string semantics used throughout the generator: whitespace and
    `strip`, `ljust`, `startswith`/`endswith`/`in`, `split`/`join`/`replace`,
    decimal rendering of naturals, ASCII case mapping and the UTF-8 length
    of a string (RFC 3629, section 3). Strings are sequences of Unicode
    scalar values, as Python 3 strings are. */
module PyStr {

  datatype Option<T> = None | Some(value: T)

  function Max(a: int, b: int): (r: int)
    ensures r >= a && r >= b && (r == a || r == b)
  {
    if a >= b then a else b
  }

  /** The characters for which Python's `str.isspace()` holds; `re`'s `\s`
      on text patterns matches the same set. */
  const Whitespace: set<char> := {
    ' ', '\t', '\n', '\r', '\U{000B}', '\U{000C}',
    '\U{001C}', '\U{001D}', '\U{001E}', '\U{001F}', '\U{0085}', '\U{00A0}',
    '\U{1680}', '\U{2000}', '\U{2001}', '\U{2002}', '\U{2003}', '\U{2004}',
    '\U{2005}', '\U{2006}', '\U{2007}', '\U{2008}', '\U{2009}', '\U{200A}',
    '\U{2028}', '\U{2029}', '\U{202F}', '\U{205F}', '\U{3000}'
  }

  predicate IsSpace(c: char) { c in Whitespace }

  predicate IsAsciiDigit(c: char) { '0' <= c <= '9' }

  predicate IsAsciiLetter(c: char) { 'a' <= c <= 'z' || 'A' <= c <= 'Z' }

  // ---------------------------------------------------------------- strip

  /** The end of the run of members of `cs` that starts at `i`. */
  function LeadEnd(s: string, cs: set<char>, i: nat): (k: nat)
    requires i <= |s|
    ensures i <= k <= |s|
    ensures forall j :: i <= j < k ==> s[j] in cs
    ensures k == |s| || s[k] !in cs
    decreases |s| - i
  {
    if i < |s| && s[i] in cs then LeadEnd(s, cs, i + 1) else i
  }

  /** The start of the run of members of `cs` that ends just before `k`. */
  function TrailStart(s: string, cs: set<char>, k: nat): (i: nat)
    requires k <= |s|
    ensures i <= k
    ensures forall j :: i <= j < k ==> s[j] in cs
    ensures i == 0 || s[i - 1] !in cs
  {
    if k > 0 && s[k - 1] in cs then TrailStart(s, cs, k - 1) else k
  }

  /** `s.rstrip(chars)` for the character set `cs`. */
  function RStripSet(s: string, cs: set<char>): (r: string)
    ensures |r| <= |s| && r == s[..|r|]
    ensures forall i :: |r| <= i < |s| ==> s[i] in cs
    ensures r == [] || r[|r| - 1] !in cs
  {
    s[..TrailStart(s, cs, |s|)]
  }

  /** `s.strip(chars)`: the longest infix with no member of `cs` at either end. */
  function StripSet(s: string, cs: set<char>): (r: string)
    ensures |r| <= |s| && Contains(s, r)
    ensures r == [] || (r[0] !in cs && r[|r| - 1] !in cs)
    ensures r == [] <==> forall i :: 0 <= i < |s| ==> s[i] in cs
  {
    var i := LeadEnd(s, cs, 0);
    if i == |s| then
      assert OccursAt(s, [], 0);
      []
    else
      var j := TrailStart(s, cs, |s|);
      assert s[i] !in cs;
      assert OccursAt(s, s[i..j], i);
      s[i..j]
  }

  /** Whatever lies between the first and the last non-member of `cs` is
      the strip. */
  lemma StripSetBetween(s: string, cs: set<char>, i: nat, j: nat)
    requires i < j <= |s| && s[i] !in cs && s[j - 1] !in cs
    requires forall k :: 0 <= k < i ==> s[k] in cs
    requires forall k :: j <= k < |s| ==> s[k] in cs
    ensures StripSet(s, cs) == s[i..j]
  {
    assert LeadEnd(s, cs, 0) == i;
    assert TrailStart(s, cs, |s|) == j;
  }

  /** Python's `s.strip()`. */
  function Strip(s: string): (r: string)
    ensures |r| <= |s|
    ensures r == [] || (!IsSpace(r[0]) && !IsSpace(r[|r| - 1]))
    ensures r == [] <==> forall i :: 0 <= i < |s| ==> IsSpace(s[i])
  {
    StripSet(s, Whitespace)
  }

  /** Python's `s.rstrip()`. */
  function RStrip(s: string): (r: string)
    ensures |r| <= |s| && r == s[..|r|]
    ensures r == [] || !IsSpace(r[|r| - 1])
    ensures forall i :: |r| <= i < |s| ==> IsSpace(s[i])
  {
    RStripSet(s, Whitespace)
  }

  /** A string is blank for Python when `s.strip()` is empty. */
  predicate IsBlank(s: string) { forall i :: 0 <= i < |s| ==> IsSpace(s[i]) }

  // ---------------------------------------------------------------- padding

  /** `c * n` */
  function Repeat(c: char, n: int): (r: string)
    ensures |r| == Max(n, 0)
    ensures forall i :: 0 <= i < |r| ==> r[i] == c
    decreases n
  {
    if n <= 0 then [] else [c] + Repeat(c, n - 1)
  }

  /** `s.ljust(width, fill)`: `s` followed by as many `fill` characters as
      are needed to reach `width`, and nothing when `s` is already as wide. */
  function LJust(s: string, width: int, fill: char): (r: string)
    ensures |r| == Max(|s|, width)
    ensures r[..|s|] == s
    ensures forall i :: |s| <= i < |r| ==> r[i] == fill
  {
    s + Repeat(fill, width - |s|)
  }

  // ---------------------------------------------------------------- search

  predicate StartsWith(s: string, p: string) { |p| <= |s| && s[..|p|] == p }

  predicate EndsWith(s: string, p: string) { |p| <= |s| && s[|s| - |p|..] == p }

  predicate OccursAt(s: string, p: string, k: int)
  {
    0 <= k && k + |p| <= |s| && s[k..k + |p|] == p
  }

  /** Python's `p in s` for strings. */
  predicate Contains(s: string, p: string) { exists k | 0 <= k <= |s| - |p| :: OccursAt(s, p, k) }

  /** The first index at which `p` occurs in `s`, or `|s|` when it does not occur. */
  function Find(s: string, p: string): (k: nat)
    requires |p| > 0
    ensures k <= |s|
    ensures k < |s| ==> OccursAt(s, p, k)
    ensures forall j :: 0 <= j < k ==> !OccursAt(s, p, j)
    ensures k == |s| ==> !Contains(s, p)
  {
    FindFrom(s, p, 0)
  }

  /** The first index from `i` on at which `p` occurs in `s`, or `|s|`. */
  function FindFrom(s: string, p: string, i: nat): (k: nat)
    requires |p| > 0 && i <= |s|
    ensures i <= k <= |s|
    ensures k < |s| ==> OccursAt(s, p, k)
    ensures forall j :: i <= j < k ==> !OccursAt(s, p, j)
    ensures k == |s| ==> forall j :: i <= j ==> !OccursAt(s, p, j)
    decreases |s| - i
  {
    if i + |p| > |s| then |s|
    else if s[i..i + |p|] == p then i
    else FindFrom(s, p, i + 1)
  }

  // ---------------------------------------------------------------- split / join

  /** `sep.join(parts)` */
  function Join(parts: seq<string>, sep: string): (r: string)
    ensures |parts| == 1 ==> r == parts[0]
    ensures |parts| == 0 ==> r == []
  {
    if |parts| == 0 then []
    else if |parts| == 1 then parts[0]
    else parts[0] + sep + Join(parts[1..], sep)
  }

  /** `s.split(sep)` for a non-empty separator: the pieces between the
      occurrences of `sep`, scanned from the left without overlap. */
  function Split(s: string, sep: string): (r: seq<string>)
    requires |sep| > 0
    ensures |r| >= 1
    ensures Join(r, sep) == s
    ensures forall i :: 0 <= i < |r| ==> !Contains(r[i], sep)
    ensures !Contains(s, sep) ==> r == [s]
    decreases |s|
  {
    var k := Find(s, sep);
    if k == |s| then [s]
    else
      var rest := Split(s[k + |sep|..], sep);
      SplitStep(s, sep, k, rest);
      [s[..k]] + rest
  }

  /** The first piece, up to the first occurrence of the separator, and the
      pieces of what follows it split `s`. */
  lemma SplitStep(s: string, sep: string, k: nat, rest: seq<string>)
    requires |sep| > 0 && k == Find(s, sep) && k < |s|
    requires |rest| >= 1 && Join(rest, sep) == s[k + |sep|..]
    requires forall i :: 0 <= i < |rest| ==> !Contains(rest[i], sep)
    ensures Contains(s, sep)
    ensures Join([s[..k]] + rest, sep) == s
    ensures forall i :: 0 <= i < |[s[..k]] + rest| ==> !Contains(([s[..k]] + rest)[i], sep)
  {
    assert OccursAt(s, sep, k);
    PrefixBeforeFind(s, sep);
    JoinCons(s[..k], rest, sep);
    SliceAround(s, k, |sep|);
    PiecesCons(s[..k], rest, sep);
  }

  lemma JoinCons(x: string, rest: seq<string>, sep: string)
    requires |rest| >= 1
    ensures Join([x] + rest, sep) == x + sep + Join(rest, sep)
  {
    assert ([x] + rest)[1..] == rest;
  }

  lemma SliceAround(s: string, k: nat, n: nat)
    requires k + n <= |s|
    ensures s == s[..k] + s[k..k + n] + s[k + n..]
  {
  }

  lemma PiecesCons(x: string, rest: seq<string>, sep: string)
    requires !Contains(x, sep)
    requires forall i :: 0 <= i < |rest| ==> !Contains(rest[i], sep)
    ensures forall i :: 0 <= i < |[x] + rest| ==> !Contains(([x] + rest)[i], sep)
  {
    var r := [x] + rest;
    forall i | 0 <= i < |r| ensures !Contains(r[i], sep) {
      if i > 0 {
        assert r[i] == rest[i - 1];
      }
    }
  }

  /** The text before the first occurrence of `p` does not contain `p`. */
  lemma PrefixBeforeFind(s: string, p: string)
    requires |p| > 0
    ensures !Contains(s[..Find(s, p)], p)
  {
    var head := s[..Find(s, p)];
    forall j | 0 <= j && j + |p| <= |head| ensures !OccursAt(head, p, j) {
      assert head[j..j + |p|] == s[j..j + |p|];
      assert !OccursAt(s, p, j);
    }
  }

  /** `s.replace(pat, rep)`: every non-overlapping occurrence of `pat`,
      from the left, replaced by `rep`. */
  function Replace(s: string, pat: string, rep: string): (r: string)
    requires |pat| > 0
    ensures !Contains(s, pat) ==> r == s
  {
    Join(Split(s, pat), rep)
  }

  /** Replacing a pattern by a text that does not contain its first
      character leaves no occurrence of a one-character pattern. */
  lemma ReplaceNoPattern(s: string, pat: string, rep: string)
    requires |pat| == 1 && pat[0] !in rep
    ensures !Contains(Replace(s, pat, rep), pat)
  {
    var parts := Split(s, pat);
    assert pat == [pat[0]];
    JoinNoChar(parts, rep, pat[0]);
  }

  lemma {:induction false} JoinNoChar(parts: seq<string>, sep: string, c: char)
    requires c !in sep
    requires forall i :: 0 <= i < |parts| ==> !Contains(parts[i], [c])
    ensures c !in Join(parts, sep)
  {
    forall i | 0 <= i < |parts| ensures c !in parts[i] {
      if c in parts[i] {
        var k :| 0 <= k < |parts[i]| && parts[i][k] == c;
        assert OccursAt(parts[i], [c], k);
      }
    }
    if |parts| > 1 {
      JoinNoChar(parts[1..], sep, c);
    }
  }

  /** Splitting `a + sep + b` at a one-character separator that occurs in
      neither part gives back the two parts. */
  lemma SplitAtSeparator(a: string, b: string, sep: char)
    requires sep !in a && sep !in b
    ensures Split(a + [sep] + b, [sep]) == [a, b]
  {
    var s := a + [sep] + b;
    var k := Find(s, [sep]);
    assert OccursAt(s, [sep], |a|);
    forall j | 0 <= j < |a| ensures !OccursAt(s, [sep], j) {
      assert s[j] == a[j];
    }
    assert k == |a|;
    assert s[..k] == a;
    assert s[k + 1..] == b;
    AbsentCharNotContained(b, sep);
  }

  /** A first piece free of a one-character separator comes off first, and
      the rest splits on its own. */
  lemma SplitFirstPiece(a: string, b: string, sep: char)
    requires sep !in a
    ensures Split(a + [sep] + b, [sep]) == [a] + Split(b, [sep])
  {
    var s := a + [sep] + b;
    var k := Find(s, [sep]);
    assert OccursAt(s, [sep], |a|);
    forall j | 0 <= j < |a| ensures !OccursAt(s, [sep], j) {
      assert s[j] == a[j];
    }
    assert k == |a|;
    assert s[..k] == a;
    assert s[k + 1..] == b;
  }

  /** A character that does not occur is not contained as a one-character text. */
  lemma AbsentCharNotContained(s: string, c: char)
    requires c !in s
    ensures !Contains(s, [c])
  {
    forall j | 0 <= j < |s| ensures !OccursAt(s, [c], j) {
      assert s[j..j + 1] == [s[j]];
    }
  }

  /** ... and conversely. */
  lemma NotContainedCharFree(s: string, c: char)
    requires !Contains(s, [c])
    ensures forall i | 0 <= i < |s| :: s[i] != c
  {
    forall i | 0 <= i < |s| ensures s[i] != c {
      assert s[i..i + 1] == [s[i]];
      assert !OccursAt(s, [c], i);
    }
  }

  // ---------------------------------------------------------------- numbers

  function DigitChar(d: nat): (c: char)
    requires d < 10
    ensures IsAsciiDigit(c) && c as int - '0' as int == d
  {
    ['0', '1', '2', '3', '4', '5', '6', '7', '8', '9'][d]
  }

  /** The value of a non-empty string of ASCII digits. */
  function DigitsValue(s: string): nat
    requires forall i :: 0 <= i < |s| ==> IsAsciiDigit(s[i])
  {
    if |s| == 0 then 0
    else
      var d := s[|s| - 1] as int - '0' as int;
      assert IsAsciiDigit(s[|s| - 1]);
      10 * DigitsValue(s[..|s| - 1]) + d
  }

  /** `str(n)` for a natural number. */
  function NatToString(n: nat): (r: string)
    ensures |r| >= 1
    ensures forall i :: 0 <= i < |r| ==> IsAsciiDigit(r[i])
    ensures DigitsValue(r) == n
  {
    if n < 10 then [DigitChar(n)]
    else
      var r := NatToString(n / 10) + [DigitChar(n % 10)];
      assert r[..|r| - 1] == NatToString(n / 10);
      r
  }

  lemma NatToStringInjective(m: nat, n: nat)
    requires NatToString(m) == NatToString(n)
    ensures m == n
  {
  }
  predicate AllDigits(s: string) { forall i :: 0 <= i < |s| ==> IsAsciiDigit(s[i]) }

  /** Python's `int(s)` on ASCII text: surrounding whitespace, an optional
      sign and at least one digit; `None` stands for the ValueError. */
  function PyInt(s: string): (r: Option<int>)
    ensures r.Some? ==> |Strip(s)| >= 1
    ensures r.None? && AllDigits(Strip(s)) ==> Strip(s) == []
  {
    SignedDigits(Strip(s))
  }

  /** An optional sign followed by at least one ASCII digit. */
  function SignedDigits(t: string): (r: Option<int>)
    ensures r.Some? ==> |t| >= 1
    ensures r.None? && AllDigits(t) ==> t == []
  {
    if |t| > 0 && t[0] == '-' then
      if |t| > 1 && AllDigits(t[1..]) then Some(-(DigitsValue(t[1..]) as int)) else None
    else if |t| > 0 && t[0] == '+' then
      if |t| > 1 && AllDigits(t[1..]) then Some(DigitsValue(t[1..])) else None
    else if |t| > 0 && AllDigits(t) then Some(DigitsValue(t))
    else None
  }

  lemma DigitNotSpace(c: char)
    requires IsAsciiDigit(c)
    ensures !IsSpace(c)
  {
  }

  /** `int(str(n)) == n` */
  lemma PyIntOfNatToString(n: nat)
    ensures PyInt(NatToString(n)) == Some(n)
  {
    var s := NatToString(n);
    DigitNotSpace(s[0]);
    DigitNotSpace(s[|s| - 1]);
    PyIntOfDigits(s);
  }

  lemma PyIntOfDigits(s: string)
    requires |s| > 0 && AllDigits(s) && !IsSpace(s[0]) && !IsSpace(s[|s| - 1])
    ensures PyInt(s) == Some(DigitsValue(s) as int)
  {
    StripUnchanged(s);
    assert s[0] != '-' && s[0] != '+';
  }

  /** `int("-" + digits)` is the negated value of the digits. */
  lemma PyIntOfNegatedDigits(s: string)
    requires |s| > 0 && AllDigits(s) && !IsSpace(s[|s| - 1])
    ensures PyInt("-" + s) == Some(-(DigitsValue(s) as int))
  {
    var m := "-" + s;
    StripSigned(s);
    SignedDigitsNegative(s);
    assert SignedDigits(Strip(m)) == Some(-(DigitsValue(s) as int));
    assert PyInt(m) == SignedDigits(Strip(m));
  }

  lemma SignNotSpace()
    ensures !IsSpace('-') && !IsSpace('+')
  {
  }

  lemma SignedDigitsNegative(s: string)
    requires |s| > 0 && AllDigits(s)
    ensures SignedDigits("-" + s) == Some(-(DigitsValue(s) as int))
  {
    var m := "-" + s;
    assert m[1..] == s;
    assert m[0] == '-';
  }

  lemma StripSigned(s: string)
    requires |s| > 0 && !IsSpace(s[|s| - 1])
    ensures Strip("-" + s) == "-" + s
  {
    var m := "-" + s;
    assert m[|m| - 1] == s[|s| - 1];
    SignNotSpace();
    StripUnchanged(m);
  }

  /** Text with visible characters at both ends is its own strip. */
  lemma StripUnchanged(s: string)
    requires |s| > 0 && !IsSpace(s[0]) && !IsSpace(s[|s| - 1])
    ensures Strip(s) == s
  {
    StripSetBetween(s, Whitespace, 0, |s|);
  }


  // ---------------------------------------------------------------- case

  function UpperChar(c: char): (u: char)
    ensures 'a' <= c <= 'z' ==> 'A' <= u <= 'Z'
    ensures !('a' <= c <= 'z') ==> u == c
  {
    if 'a' <= c <= 'z' then (c as int - 32) as char else c
  }

  function LowerChar(c: char): (l: char)
    ensures 'A' <= c <= 'Z' ==> 'a' <= l <= 'z'
    ensures !('A' <= c <= 'Z') ==> l == c
  {
    if 'A' <= c <= 'Z' then (c as int + 32) as char else c
  }

  /** `s.upper()`, restricted to ASCII letters. */
  function Upper(s: string): (r: string)
    ensures |r| == |s|
    ensures forall i :: 0 <= i < |s| ==> r[i] == UpperChar(s[i])
  {
    seq(|s|, i requires 0 <= i < |s| => UpperChar(s[i]))
  }

  /** `s.lower()`, restricted to ASCII letters. */
  function Lower(s: string): (r: string)
    ensures |r| == |s|
    ensures forall i :: 0 <= i < |s| ==> r[i] == LowerChar(s[i])
  {
    seq(|s|, i requires 0 <= i < |s| => LowerChar(s[i]))
  }

  /** Case folding: upper-casing leaves no lower-case ASCII letter and
      lower-casing no upper-case one, each is idempotent, and each undoes
      the other up to case, so two texts equal up to ASCII case have the
      same upper-case and the same lower-case form. */
  lemma CaseFolding(s: string)
    ensures forall i | 0 <= i < |s| :: !('a' <= Upper(s)[i] <= 'z') && !('A' <= Lower(s)[i] <= 'Z')
    ensures Upper(Upper(s)) == Upper(s) && Lower(Lower(s)) == Lower(s)
    ensures Upper(Lower(s)) == Upper(s) && Lower(Upper(s)) == Lower(s)
  {
    forall i | 0 <= i < |s|
      ensures UpperChar(UpperChar(s[i])) == UpperChar(s[i]) && LowerChar(LowerChar(s[i])) == LowerChar(s[i])
      ensures UpperChar(LowerChar(s[i])) == UpperChar(s[i]) && LowerChar(UpperChar(s[i])) == LowerChar(s[i])
    {
      CharFolding(s[i]);
    }
  }

  lemma CharFolding(c: char)
    ensures UpperChar(UpperChar(c)) == UpperChar(c) && LowerChar(LowerChar(c)) == LowerChar(c)
    ensures UpperChar(LowerChar(c)) == UpperChar(c) && LowerChar(UpperChar(c)) == LowerChar(c)
  {
  }

  // ---------------------------------------------------------------- UTF-8

  /** Number of bytes UTF-8 uses for one scalar value (RFC 3629, section 3). */
  function Utf8CharLen(c: char): (n: nat)
    ensures 1 <= n <= 4
    ensures n == 1 <==> (c as int) < 0x80
  {
    if (c as int) < 0x80 then 1
    else if (c as int) < 0x800 then 2
    else if (c as int) < 0x10000 then 3
    else 4
  }

  /** `len(s.encode('utf-8'))` */
  function Utf8Len(s: string): (n: nat)
    ensures |s| <= n <= 4 * |s|
  {
    if |s| == 0 then 0 else Utf8Len(s[..|s| - 1]) + Utf8CharLen(s[|s| - 1])
  }
}
