/**
 * The string and path operations of the .NET base library that the setup tool relies on:
 * ordinal case-insensitive comparison, suffix tests, String.Replace, LastIndexOf and the
 * Windows flavour of Path.Combine.
 */
module Text {

  /** Windows directory separator, Path.DirectorySeparatorChar. */
  const DirectorySeparator: char := '\\'

  /** Upper-cases an ASCII letter; this is the case mapping of StringComparer.OrdinalIgnoreCase on ASCII. */
  function FoldChar(c: char): char {
    if 'a' <= c <= 'z' then (c as int - 32) as char else c
  }

  function FoldCase(s: string): string {
    seq(|s|, i requires 0 <= i < |s| => FoldChar(s[i]))
  }

  /** StringComparer.OrdinalIgnoreCase.Equals. */
  predicate EqualsIgnoreCase(a: string, b: string) {
    FoldCase(a) == FoldCase(b)
  }

  predicate EndsWith(s: string, suffix: string) {
    |suffix| <= |s| && s[|s| - |suffix|..] == suffix
  }

  /** True when `pat` occurs in `s` at position `i`. */
  predicate OccursAt(s: string, pat: string, i: int) {
    0 <= i && i + |pat| <= |s| && s[i..i + |pat|] == pat
  }

  /** String.Replace(pat, rep): every non-overlapping occurrence of `pat`, scanning left to right. */
  function ReplaceAll(s: string, pat: string, rep: string): string
    requires pat != []
    decreases |s|
  {
    if |s| < |pat| then s
    else if s[..|pat|] == pat then rep + ReplaceAll(s[|pat|..], pat, rep)
    else [s[0]] + ReplaceAll(s[1..], pat, rep)
  }

  /** Text in which the pattern does not occur is left as it is. */
  lemma {:induction false} ReplaceAllUnchanged(s: string, pat: string, rep: string)
    requires pat != []
    requires forall i :: 0 <= i <= |s| - |pat| ==> !OccursAt(s, pat, i)
    ensures ReplaceAll(s, pat, rep) == s
    decreases |s|
  {
    if |s| >= |pat| {
      assert !OccursAt(s, pat, 0);
      ReplaceAllSkip(s, pat, rep);
      forall i | 0 <= i <= |s[1..]| - |pat| ensures !OccursAt(s[1..], pat, i) {
        assert !OccursAt(s, pat, i + 1);
        OccursShift(s, pat, i);
      }
      ReplaceAllUnchanged(s[1..], pat, rep);
      assert [s[0]] + s[1..] == s;
    }
  }

  /**
   * String.Replace scans left to right: text before the first occurrence is kept, that occurrence
   * becomes `rep`, and the scan resumes after it.
   */
  lemma {:induction false} ReplaceAllAtFirst(p: string, pat: string, s: string, rep: string)
    requires pat != []
    requires forall i :: 0 <= i < |p| ==> !OccursAt(p + pat + s, pat, i)
    ensures ReplaceAll(p + pat + s, pat, rep) == p + rep + ReplaceAll(s, pat, rep)
    decreases |p|
  {
    var w := p + pat + s;
    if p == [] {
      assert w == pat + s && w[..|pat|] == pat && w[|pat|..] == s;
      ReplaceAllHit(w, pat, rep);
    } else {
      var w' := p[1..] + pat + s;
      assert w[1..] == w';
      forall i | 0 <= i < |p[1..]| ensures !OccursAt(w', pat, i) {
        assert !OccursAt(w, pat, i + 1);
        OccursShift(w, pat, i);
      }
      ReplaceAllAtFirst(p[1..], pat, s, rep);
      ReplaceAllKeepsFront(p, pat, s, rep);
    }
  }

  /** The step of ReplaceAllAtFirst: a first character that starts no occurrence is kept in front. */
  lemma ReplaceAllKeepsFront(p: string, pat: string, s: string, rep: string)
    requires pat != [] && p != [] && !OccursAt(p + pat + s, pat, 0)
    requires ReplaceAll(p[1..] + pat + s, pat, rep) == p[1..] + rep + ReplaceAll(s, pat, rep)
    ensures ReplaceAll(p + pat + s, pat, rep) == p + rep + ReplaceAll(s, pat, rep)
  {
    var w := p + pat + s;
    var t := p[1..] + pat + s;
    assert w[1..] == t && w[0] == p[0];
    assert w[..|pat|] != pat;
    ReplaceAllSkip(w, pat, rep);
    ConsFront(p, rep, ReplaceAll(s, pat, rep));
  }

  lemma ConsFront<T>(p: seq<T>, a: seq<T>, b: seq<T>)
    requires p != []
    ensures [p[0]] + (p[1..] + a + b) == p + a + b
  {
    assert [p[0]] + p[1..] == p;
  }

  /** An occurrence at the front is replaced and the scan resumes after it. */
  lemma ReplaceAllHit(w: string, pat: string, rep: string)
    requires pat != [] && |pat| <= |w| && w[..|pat|] == pat
    ensures ReplaceAll(w, pat, rep) == rep + ReplaceAll(w[|pat|..], pat, rep)
  {
  }

  /** Without an occurrence at the front, the first character is kept. */
  lemma ReplaceAllSkip(w: string, pat: string, rep: string)
    requires pat != [] && |pat| <= |w| && w[..|pat|] != pat
    ensures ReplaceAll(w, pat, rep) == [w[0]] + ReplaceAll(w[1..], pat, rep)
  {
  }

  lemma OccursShift(w: string, pat: string, i: nat)
    requires w != []
    ensures OccursAt(w[1..], pat, i) ==> OccursAt(w, pat, i + 1)
  {
    if OccursAt(w[1..], pat, i) {
      assert w[1..][i..i + |pat|] == w[i + 1..i + 1 + |pat|];
    }
  }

  /** String.LastIndexOf(char): the last position holding `c`, or -1. */
  function LastIndexOf(s: string, c: char): (r: int)
    ensures -1 <= r < |s|
    ensures r >= 0 ==> s[r] == c
    ensures forall j :: r < j < |s| ==> s[j] != c
  {
    if s == [] then -1
    else if s[|s| - 1] == c then |s| - 1
    else LastIndexOf(s[..|s| - 1], c)
  }

  /** Path.IsPathRooted on Windows: a leading separator or a drive letter. */
  predicate IsPathRooted(p: string) {
    (|p| >= 1 && (p[0] == '\\' || p[0] == '/')) || (|p| >= 2 && p[1] == ':')
  }

  /** Path.Combine(a, b) on Windows. */
  function PathCombine(a: string, b: string): string {
    if b == [] then a
    else if a == [] then b
    else if IsPathRooted(b) then b
    else if a[|a| - 1] in {'\\', '/', ':'} then a + b
    else a + [DirectorySeparator] + b
  }

  /**
   * Path.Combine keeps `a` when `b` is empty and takes `b` alone when `a` is empty or `b` is rooted;
   * otherwise the result starts with `a`, ends with `b`, and holds one separator between them exactly
   * when `a` does not already end in one.
   */
  lemma PathCombineParts(a: string, b: string)
    ensures b == [] ==> PathCombine(a, b) == a
    ensures b != [] && (a == [] || IsPathRooted(b)) ==> PathCombine(a, b) == b
    ensures a != [] && b != [] && !IsPathRooted(b) ==>
      var r := PathCombine(a, b);
      && |a| + |b| <= |r| <= |a| + |b| + 1
      && r[..|a|] == a && r[|r| - |b|..] == b
      && (|r| == |a| + |b| + 1 <==> a[|a| - 1] !in {'\\', '/', ':'})
  {
  }

  /** Ordinal lexicographic order on strings (a prefix comes first). */
  predicate LexLe(a: string, b: string)
    decreases |a|
  {
    a == [] || (b != [] && (a[0] < b[0] || (a[0] == b[0] && LexLe(a[1..], b[1..]))))
  }

  lemma {:induction false} LexLeTotal(a: string, b: string)
    ensures LexLe(a, b) || LexLe(b, a)
    decreases |a|
  {
    if a != [] && b != [] && a[0] == b[0] {
      LexLeTotal(a[1..], b[1..]);
    }
  }

  lemma {:induction false} LexLeTransitive(a: string, b: string, c: string)
    requires LexLe(a, b) && LexLe(b, c)
    ensures LexLe(a, c)
    decreases |a|
  {
    if a != [] && a[0] == b[0] && b[0] == c[0] {
      LexLeTransitive(a[1..], b[1..], c[1..]);
    }
  }

  /** The order of StringComparer.InvariantCultureIgnoreCase, approximated by the ordinal order of upper-cased text. */
  predicate LessOrEqualIgnoreCase(a: string, b: string) {
    LexLe(FoldCase(a), FoldCase(b))
  }

  predicate Distinct<T(==)>(s: seq<T>) {
    forall i, j :: 0 <= i < j < |s| ==> s[i] != s[j]
  }

  /** Splitting the head off the suffix of a concatenation. */
  lemma SplitSuffix<T>(prefix: seq<T>, head: seq<T>, rest: seq<T>, suffix: seq<T>, whole: seq<T>)
    requires suffix == head + rest && prefix + suffix == whole
    ensures prefix + head + rest == whole
  {
    assert prefix + head + rest == prefix + (head + rest);
  }

  predicate DistinctIgnoreCase(s: seq<string>) {
    forall i, j :: 0 <= i < j < |s| ==> !EqualsIgnoreCase(s[i], s[j])
  }

  function Digit(d: int): char
    requires 0 <= d < 10
  {
    "0123456789"[d]
  }

  /** Int32.ToString: the decimal text of an integer. */
  function Decimal(n: int): (r: string)
    ensures r != []
    decreases if n < 0 then -n + 1 else n
  {
    if n < 0 then "-" + Decimal(-n)
    else if n < 10 then [Digit(n)]
    else Decimal(n / 10) + [Digit(n % 10)]
  }

  predicate AllDigits(s: string) {
    forall i :: 0 <= i < |s| ==> '0' <= s[i] <= '9'
  }

  /** Int32.Parse of plain decimal digits, most significant first. */
  function DigitsValue(s: string): int {
    if s == [] then 0 else DigitsValue(s[..|s| - 1]) * 10 + (s[|s| - 1] as int - '0' as int)
  }

  /** Int32.Parse of decimal text with an optional leading '-'. */
  function DecimalValue(s: string): int {
    if s != [] && s[0] == '-' then -DigitsValue(s[1..]) else DigitsValue(s)
  }

  lemma DigitValue(d: int)
    requires 0 <= d < 10
    ensures '0' <= Digit(d) <= '9' && Digit(d) as int - '0' as int == d
  {
  }

  /** The text of a non-negative number is all digits and reads back to the number. */
  lemma {:induction false} DecimalOfNat(n: nat)
    ensures AllDigits(Decimal(n)) && DigitsValue(Decimal(n)) == n
    decreases n
  {
    if n < 10 {
      DigitValue(n);
    } else {
      DecimalOfNat(n / 10);
      DigitValue(n % 10);
      var d := Decimal(n);
      assert d == Decimal(n / 10) + [Digit(n % 10)];
      assert d[..|d| - 1] == Decimal(n / 10);
    }
  }

  /**
   * Int32.ToString reads back: a non-negative number prints as digits only, a negative one as '-'
   * followed by digits, and parsing the text gives the number.
   */
  lemma DecimalRoundTrip(n: int)
    ensures DecimalValue(Decimal(n)) == n
    ensures n >= 0 ==> AllDigits(Decimal(n))
    ensures n < 0 ==> Decimal(n)[0] == '-' && AllDigits(Decimal(n)[1..])
  {
    var d := Decimal(n);
    if n < 0 {
      DecimalOfNat(-n);
      assert d == "-" + Decimal(-n);
      assert d[0] == '-' && d[1..] == Decimal(-n);
    } else {
      DecimalOfNat(n);
      assert '0' <= d[0] <= '9';
    }
  }
}
