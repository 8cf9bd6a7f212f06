// String helpers shared by the models: whitespace trimming, ASCII case folding,
// prefix tests, searching and character replacement, each stated by its meaning.
module Text {

  /** .NET's `Char.IsWhiteSpace`, the characters `string.Trim()` removes: the Unicode
      White_Space characters (tab to carriage return, the space separators, the next-line,
      line- and paragraph-separator characters). */
  predicate IsWhitespace(c: char) {
    ('\t' <= c <= '\r') || c == ' ' || c == '\U{85}' || c == '\U{A0}' || c == '\U{1680}' ||
    ('\U{2000}' <= c <= '\U{200A}') || c == '\U{2028}' || c == '\U{2029}' ||
    c == '\U{202F}' || c == '\U{205F}' || c == '\U{3000}'
  }

  predicate AllWhitespace(s: string) {
    forall i :: 0 <= i < |s| ==> IsWhitespace(s[i])
  }

  /** The first index from `k` on that holds no whitespace, or `|s|`. */
  function NonBlankFrom(s: string, k: nat): (r: nat)
    requires k <= |s|
    ensures k <= r <= |s|
    ensures r == |s| || !IsWhitespace(s[r])
    decreases |s| - k
  {
    if k == |s| || !IsWhitespace(s[k]) then k else NonBlankFrom(s, k + 1)
  }

  /** Everything skipped on the way to the first non-whitespace index is whitespace. */
  lemma {:induction false} NonBlankFromSkipsBlanks(s: string, k: nat)
    requires k <= |s|
    ensures forall j :: k <= j < NonBlankFrom(s, k) ==> IsWhitespace(s[j])
    decreases |s| - k
  {
    if k < |s| && IsWhitespace(s[k]) {
      NonBlankFromSkipsBlanks(s, k + 1);
    }
  }

  /** A whitespace run from `k` up to a non-whitespace index `m` (or the end) ends the
      search at `m`. */
  lemma {:induction false} NonBlankFromAt(s: string, k: nat, m: nat)
    requires k <= m <= |s|
    requires forall j :: k <= j < m ==> IsWhitespace(s[j])
    requires m == |s| || !IsWhitespace(s[m])
    ensures NonBlankFrom(s, k) == m
    decreases m - k
  {
    if k < m {
      NonBlankFromAt(s, k + 1, m);
    }
  }

  /** The number of leading whitespace characters. */
  function LeadingBlanks(s: string): (n: nat)
    ensures n <= |s|
    ensures n == |s| || !IsWhitespace(s[n])
  {
    NonBlankFrom(s, 0)
  }

  lemma LeadingAreBlanks(s: string)
    ensures forall i :: 0 <= i < LeadingBlanks(s) ==> IsWhitespace(s[i])
  {
    NonBlankFromSkipsBlanks(s, 0);
  }

  /** The length of the run of whitespace that ends just before index `e`. */
  function BlankRunBefore(s: string, e: nat): (r: nat)
    requires e <= |s|
    ensures r <= e
    ensures r == e || !IsWhitespace(s[e - r - 1])
  {
    if e == 0 || !IsWhitespace(s[e - 1]) then 0 else BlankRunBefore(s, e - 1) + 1
  }

  /** The run counted before `e` is whitespace. */
  lemma {:induction false} BlankRunIsBlank(s: string, e: nat)
    requires e <= |s|
    ensures forall i :: e - BlankRunBefore(s, e) <= i < e ==> IsWhitespace(s[i])
  {
    if e > 0 && IsWhitespace(s[e - 1]) {
      BlankRunIsBlank(s, e - 1);
    }
  }

  /** A whitespace run from `m` up to `e`, after a non-whitespace character or the start,
      is the run counted before `e`. */
  lemma {:induction false} BlankRunAt(s: string, e: nat, m: nat)
    requires m <= e <= |s|
    requires forall i :: m <= i < e ==> IsWhitespace(s[i])
    requires m == 0 || !IsWhitespace(s[m - 1])
    ensures BlankRunBefore(s, e) == e - m
    decreases e - m
  {
    if m < e {
      BlankRunAt(s, e - 1, m);
    }
  }

  /** The number of trailing whitespace characters. */
  function TrailingBlanks(s: string): (n: nat)
    ensures n <= |s|
    ensures n == |s| || !IsWhitespace(s[|s| - n - 1])
  {
    BlankRunBefore(s, |s|)
  }

  lemma TrailingAreBlanks(s: string)
    ensures forall i :: |s| - TrailingBlanks(s) <= i < |s| ==> IsWhitespace(s[i])
  {
    BlankRunIsBlank(s, |s|);
  }

  /** `s` with its leading whitespace removed. */
  function TrimStart(s: string): string {
    s[LeadingBlanks(s)..]
  }

  /** `s` with its trailing whitespace removed. */
  function TrimEnd(s: string): string {
    s[..|s| - TrailingBlanks(s)]
  }

  /** `string.Trim()`. */
  function Trim(s: string): string {
    TrimEnd(TrimStart(s))
  }

  /** True for `string.IsNullOrWhiteSpace` on a non-null string. */
  predicate IsBlank(s: string) {
    Trim(s) == []
  }

  lemma {:induction false} TrimStartOfClean(s: string)
    requires s == [] || !IsWhitespace(s[0])
    ensures TrimStart(s) == s
  {
  }

  lemma {:induction false} TrimEndOfClean(s: string)
    requires s == [] || !IsWhitespace(s[|s| - 1])
    ensures TrimEnd(s) == s
  {
  }

  /** A string with no whitespace at either end is its own trim. */
  lemma TrimOfClean(s: string)
    requires s == [] || (!IsWhitespace(s[0]) && !IsWhitespace(s[|s| - 1]))
    ensures Trim(s) == s
  {
    TrimStartOfClean(s);
    TrimEndOfClean(s);
  }

  lemma TrimStartSkips(w: string, x: string)
    requires AllWhitespace(w)
    requires x == [] || !IsWhitespace(x[0])
    ensures TrimStart(w + x) == x
  {
    var s := w + x;
    assert forall j :: 0 <= j < |w| ==> s[j] == w[j];
    NonBlankFromAt(s, 0, |w|);
    assert s[|w|..] == x;
  }

  lemma TrimEndSkips(x: string, w: string)
    requires AllWhitespace(w)
    requires x == [] || !IsWhitespace(x[|x| - 1])
    ensures TrimEnd(x + w) == x
  {
    var s := x + w;
    assert forall i :: |x| <= i < |s| ==> s[i] == w[i - |x|];
    BlankRunAt(s, |s|, |x|);
    assert s[..|x|] == x;
  }

  /** Trimming removes exactly the blank padding around a clean core. */
  lemma TrimPadded(w1: string, x: string, w2: string)
    requires AllWhitespace(w1) && AllWhitespace(w2)
    requires x == [] || (!IsWhitespace(x[0]) && !IsWhitespace(x[|x| - 1]))
    ensures Trim(w1 + x + w2) == x
  {
    if x == [] {
      assert w1 + x + w2 == w1 + w2;
      assert AllWhitespace(w1 + w2);
      TrimStartSkips(w1 + w2, []);
      assert w1 + w2 + [] == w1 + w2;
    } else {
      assert w1 + x + w2 == w1 + (x + w2);
      TrimStartSkips(w1, x + w2);
      TrimEndSkips(x, w2);
    }
  }

  /** Trimming leaves nothing to trim: it is idempotent. */
  lemma TrimIdempotent(s: string)
    ensures Trim(Trim(s)) == Trim(s)
  {
    var a := TrimStart(s);
    var b := TrimEnd(a);
    if b != [] {
      assert b[0] == a[0];
      TrimStartOfClean(b);
      TrimEndOfClean(b);
    }
  }

  /** A non-empty trim starts and ends with a non-whitespace character. */
  lemma TrimEdges(s: string)
    ensures Trim(s) != [] ==> !IsWhitespace(Trim(s)[0]) && !IsWhitespace(Trim(s)[|Trim(s)| - 1])
  {
    var a := TrimStart(s);
    var b := TrimEnd(a);
    if b != [] {
      assert b[0] == a[0];
    }
  }

  /** Trimming only removes characters: the trim is a slice of the text. */
  lemma TrimWithin(s: string)
    ensures exists i, j :: 0 <= i <= j <= |s| && Trim(s) == s[i..j]
  {
    var n := LeadingBlanks(s);
    var a := s[n..];
    var m := TrailingBlanks(a);
    assert Trim(s) == s[n..|s| - m];
  }

  /** A string is blank exactly when every character is whitespace. */
  lemma {:induction false} BlankIffAllWhitespace(s: string)
    ensures IsBlank(s) <==> AllWhitespace(s)
  {
    var a := TrimStart(s);
    LeadingAreBlanks(s);
    TrailingAreBlanks(a);
    if a != [] {
      assert a[0] == s[|s| - |a|];
      assert a[0..] == a;
    } else {
      assert s[..|s|] == s;
    }
  }

  /** ASCII case folding, as used for `ToLower()` and `OrdinalIgnoreCase` on the
      identifiers these programs handle. */
  function LowerChar(c: char): (r: char)
    ensures 'A' <= c <= 'Z' ==> r as int == c as int + 32
    ensures !('A' <= c <= 'Z') ==> r == c
    ensures !('A' <= r <= 'Z')
  {
    if 'A' <= c <= 'Z' then (c as int + 32) as char else c
  }

  function ToLower(s: string): (r: string)
    ensures |r| == |s|
    ensures forall i :: 0 <= i < |s| ==> r[i] == LowerChar(s[i])
  {
    seq(|s|, i requires 0 <= i < |s| => LowerChar(s[i]))
  }

  predicate HasUpper(s: string) {
    exists i :: 0 <= i < |s| && 'A' <= s[i] <= 'Z'
  }

  /** Lowering twice is lowering once. */
  lemma ToLowerIdempotent(s: string)
    ensures ToLower(ToLower(s)) == ToLower(s)
  {
  }

  /** A lowered string has no upper-case letter, so it differs from any string that has one. */
  lemma {:induction false} ToLowerDiffersFromUpper(s: string, t: string)
    requires HasUpper(t)
    ensures ToLower(s) != t
  {
    var i :| 0 <= i < |t| && 'A' <= t[i] <= 'Z';
    if |s| == |t| {
      assert !('A' <= ToLower(s)[i] <= 'Z');
    }
  }

  /** Case-insensitive equality: the comparison of OrdinalIgnoreCase dictionaries. */
  predicate EqualsIgnoreCase(a: string, b: string) {
    ToLower(a) == ToLower(b)
  }

  predicate IsPrefix(p: string, s: string) {
    |p| <= |s| && s[..|p|] == p
  }

  lemma PrefixOfConcat(p: string, q: string)
    ensures IsPrefix(p, p + q)
  {
    assert (p + q)[..|p|] == p;
  }

  lemma PrefixFirstChar(p: string, s: string)
    requires IsPrefix(p, s) && p != []
    ensures s[0] == p[0]
  {
    assert s[..|p|][0] == s[0];
  }

  predicate IsSuffix(p: string, s: string) {
    |p| <= |s| && s[|s| - |p|..] == p
  }

  /** The first index from `k` on holding a character of `cs`, or -1. */
  function FindFrom(s: string, cs: set<char>, k: nat): (r: int)
    requires k <= |s|
    ensures r == -1 || k <= r < |s|
    ensures r == -1 <==> forall i :: k <= i < |s| ==> s[i] !in cs
    ensures r >= 0 ==> s[r] in cs && forall i :: k <= i < r ==> s[i] !in cs
    decreases |s| - k
  {
    if k == |s| then -1 else if s[k] in cs then k else FindFrom(s, cs, k + 1)
  }

  /** Index of the first `c` in `s`, or -1 when `c` does not occur (C#'s `IndexOf(char)`). */
  function IndexOf(s: string, c: char): (r: int)
    ensures -1 <= r < |s|
    ensures r == -1 <==> c !in s
    ensures r >= 0 ==> s[r] == c && c !in s[..r]
  {
    var r := FindFrom(s, {c}, 0);
    assert r >= 0 ==> forall i :: 0 <= i < r ==> s[..r][i] == s[i];
    r
  }

  /** Index of the first character of `s` that is in `cs`, or -1 (C#'s `IndexOfAny`). */
  function IndexOfAny(s: string, cs: set<char>): (r: int)
    ensures -1 <= r < |s|
    ensures r == -1 <==> forall i :: 0 <= i < |s| ==> s[i] !in cs
    ensures r >= 0 ==> s[r] in cs && forall i :: 0 <= i < r ==> s[i] !in cs
  {
    FindFrom(s, cs, 0)
  }

  /** Every occurrence of `a` replaced by `b` (Python's `str.replace` on single characters). */
  function ReplaceChar(s: string, a: char, b: char): (r: string)
    ensures |r| == |s|
    ensures forall i :: 0 <= i < |s| ==> r[i] == (if s[i] == a then b else s[i])
  {
    seq(|s|, i requires 0 <= i < |s| => if s[i] == a then b else s[i])
  }

  /** Replacing `a` by `b` and then `b` by `a` restores `s` when `b` did not occur in it. */
  lemma ReplaceCharBack(s: string, a: char, b: char)
    requires b !in s
    ensures ReplaceChar(ReplaceChar(s, a, b), b, a) == s
  {
    var r := ReplaceChar(ReplaceChar(s, a, b), b, a);
    assert forall i :: 0 <= i < |s| ==> r[i] == s[i];
  }

  /** Decimal text of an integer, with a leading "-" when negative. */
  function IntToString(n: int): (r: string)
    ensures r != []
    decreases if n < 0 then 1 - n else n
  {
    if n < 0 then "-" + IntToString(-n)
    else if n < 10 then [(48 + n) as char]
    else IntToString(n / 10) + [(48 + n % 10) as char]
  }
}
