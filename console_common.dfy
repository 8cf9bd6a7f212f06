// What the two debug-console command parsers share: the typed values a data block
// holds, the parsed command, 32-bit integer text, the joining of split pieces, the
// bounded history and log lists, history navigation, and the last-wins folding of
// key/value pairs into a dictionary.
module ConsoleCommon {
  import opened Wrappers
  import opened Text

  /** A data-block value: a list of strings, a string, an int, a float or a bool. */
  datatype Value =
    | ListValue(items: seq<string>)
    | StringValue(text: string)
    | IntValue(n: int)
    | FloatValue(x: real)
    | BoolValue(b: bool)

  /** A parsed command line: its lower-case name, positional arguments and data block. */
  datatype ParsedCommand = ParsedCommand(commandName: string, positionalArgs: seq<string>, dataBlock: map<string, Value>)

  const EmptyCommand: ParsedCommand := ParsedCommand("", [], map[])

  /** `StartsWith("[") && EndsWith("]")`: a list value. */
  predicate Bracketed(v: string) {
    |v| >= 2 && v[0] == '[' && v[|v| - 1] == ']'
  }

  /** "true" or "false" in any case: `bool.TryParse`, and `ToLower() == "true"` or
      `"false"`. */
  function ParseBool(v: string): (r: Option<bool>)
    ensures r == Some(true) <==> EqualsIgnoreCase(v, "true")
    ensures r == Some(false) <==> EqualsIgnoreCase(v, "false")
  {
    if EqualsIgnoreCase(v, "true") then Some(true)
    else if EqualsIgnoreCase(v, "false") then Some(false)
    else None
  }

  const MinInt32: int := -0x8000_0000
  const MaxInt32: int := 0x7FFF_FFFF

  predicate IsDigit(c: char) {
    '0' <= c <= '9'
  }

  predicate AllDigits(s: string) {
    forall i :: 0 <= i < |s| ==> IsDigit(s[i])
  }

  /** The number a run of decimal digits denotes. */
  function DigitsValue(s: string): nat
    requires AllDigits(s)
  {
    if s == [] then 0 else DigitsValue(s[..|s| - 1]) * 10 + (s[|s| - 1] as int - '0' as int)
  }

  /** `int.TryParse` on trimmed text: an optional sign and at least one digit, denoting a
      number that fits in 32 bits. */
  function ParseInt32(s: string): (r: Option<int>)
    ensures r.Some? ==> MinInt32 <= r.value <= MaxInt32
    ensures r.Some? ==> s != [] && (IsDigit(s[0]) || s[0] == '-' || s[0] == '+')
    ensures s == [] || !(IsDigit(s[0]) || s[0] == '-' || s[0] == '+') ==> r.None?
  {
    if s == [] then None
    else
      var body := if s[0] == '-' || s[0] == '+' then s[1..] else s;
      if body == [] || !AllDigits(body) then None
      else
        var d: int := DigitsValue(body);
        var v := if s[0] == '-' then -d else d;
        if MinInt32 <= v <= MaxInt32 then Some(v) else None
  }

  lemma {:induction false} DigitsOfNatural(m: nat)
    ensures AllDigits(IntToString(m)) && DigitsValue(IntToString(m)) == m
    ensures IsDigit(IntToString(m)[0])
    decreases m
  {
    if m >= 10 {
      DigitsOfNatural(m / 10);
      var s := IntToString(m / 10);
      var t := s + [(48 + m % 10) as char];
      assert IntToString(m) == t;
      assert t[..|t| - 1] == s;
    }
  }

  /** The decimal text of every 32-bit integer parses back to it. */
  lemma IntTextRoundTrip(n: int)
    requires MinInt32 <= n <= MaxInt32
    ensures ParseInt32(IntToString(n)) == Some(n)
  {
    var s := IntToString(n);
    if n < 0 {
      var t := IntToString(-n);
      DigitsOfNatural(-n);
      assert s == "-" + t;
      assert s[0] == '-' && s[1..] == t;
    } else {
      DigitsOfNatural(n);
    }
  }

  /** The decimal text of an int starts with a digit or '-' and ends with a digit. */
  lemma IntTextEdges(n: int)
    ensures var s := IntToString(n); s != [] && (IsDigit(s[0]) || s[0] == '-') && IsDigit(s[|s| - 1])
  {
    var s := IntToString(n);
    if n < 0 {
      var t := IntToString(-n);
      DigitsOfNatural(-n);
      assert s == "-" + t;
      assert s[|s| - 1] == t[|t| - 1];
    } else {
      DigitsOfNatural(n);
    }
  }

  /** `string.Join` of the pieces with a one-character separator. */
  function Join(parts: seq<string>, d: char): string {
    if |parts| == 0 then ""
    else if |parts| == 1 then parts[0]
    else Join(parts[..|parts| - 1], d) + [d] + parts[|parts| - 1]
  }

  /** Growing the last piece by a character grows the joined text by it. */
  lemma JoinGrowLast(ps: seq<string>, x: string, c: char, d: char)
    ensures Join(ps + [x + [c]], d) == Join(ps + [x], d) + [c]
  {
    if ps != [] {
      assert (ps + [x + [c]])[..|ps|] == ps;
      assert (ps + [x])[..|ps|] == ps;
    }
  }

  /** Starting a new, empty last piece adds a separator to the joined text. */
  lemma JoinNewPiece(ps: seq<string>, x: string, d: char)
    ensures Join(ps + [x] + [""], d) == Join(ps + [x], d) + [d]
  {
    assert (ps + [x] + [""])[..|ps| + 1] == ps + [x];
  }

  /** `list.Add(x)`, then dropping the oldest entry once the list is longer than `max`.
      The result is what was there plus `x`, less at most the oldest entry, and a list
      within the bound stays within it. */
  function Capped<T>(s: seq<T>, x: T, max: int): (r: seq<T>)
    ensures |r| == if |s| + 1 > max then |s| else |s| + 1
    ensures r == (s + [x])[|s| + 1 - |r|..]
    ensures 0 <= |s| <= max ==> |r| <= max
    ensures max >= 1 ==> r[|r| - 1] == x
  {
    var added := s + [x];
    if |added| > max then added[1..] else added
  }

  /** No entry repeats the one before it. */
  predicate NoStutter(h: seq<string>) {
    forall i :: 0 < i < |h| ==> h[i - 1] != h[i]
  }

  /** The command history after executing `command`: it is added unless it repeats the
      last entry, and the oldest entry goes once the history outgrows `max`. */
  function Appended(history: seq<string>, command: string, max: int): (h: seq<string>)
    ensures 0 <= |history| <= max ==> |h| <= max
    ensures max >= 1 ==> h != [] && h[|h| - 1] == command
  {
    if history == [] || history[|history| - 1] != command then Capped(history, command, max)
    else history
  }

  /** A history without repeated neighbours keeps none after a command is executed. */
  lemma AppendedNoStutter(history: seq<string>, command: string, max: int)
    requires NoStutter(history)
    ensures NoStutter(Appended(history, command, max))
  {
    if history == [] || history[|history| - 1] != command {
      var added := history + [command];
      forall i | 0 < i < |added|
        ensures added[i - 1] != added[i]
      {
        if i < |history| {
          assert added[i - 1] == history[i - 1] && added[i] == history[i];
        }
      }
      if |added| > max {
        var h := added[1..];
        forall i | 0 < i < |h|
          ensures h[i - 1] != h[i]
        {
          assert h[i - 1] == added[i] && h[i] == added[i + 1];
        }
      }
    }
  }

  /** Executing the same command twice records it once. */
  lemma AppendedIdempotent(history: seq<string>, command: string, max: int)
    requires max >= 1
    ensures Appended(Appended(history, command, max), command, max) == Appended(history, command, max)
  {
  }

  /** `Mathf.Clamp` on ints. */
  function ClampIndex(v: int, lo: int, hi: int): (r: int)
    ensures lo <= hi ==> lo <= r <= hi
    ensures lo <= v <= hi ==> r == v
  {
    if v < lo then lo else if v > hi then hi else v
  }

  /** The history index after an arrow key: nothing on an empty history, otherwise moved
      by `direction` and held between -1 (the fresh input) and the last entry. */
  function Navigated(count: int, index: int, direction: int): (i: int)
    ensures count <= 0 ==> i == index
    ensures count > 0 ==> -1 <= i < count
    ensures count > 0 && -1 <= index + direction < count ==> i == index + direction
  {
    if count <= 0 then index else ClampIndex(index + direction, -1, count - 1)
  }

  /** The input shown for a history index: the entry, or "" for the fresh input. */
  function Recalled(history: seq<string>, index: int): (s: string)
    requires -1 <= index < |history|
    ensures index >= 0 ==> s == history[index]
    ensures index == -1 ==> s == ""
  {
    if index >= 0 then history[index] else ""
  }

  /** Stepping back through the history and forward again returns to the same entry. */
  lemma NavigateBackAndForth(count: int, index: int)
    requires 0 <= index < count
    ensures Navigated(count, Navigated(count, index, -1), 1) == index
  {
  }

  /** `foreach (p in pairs)` adding each pair's entry, when it has one, to a dictionary
      that starts empty: `data[key] = value`. */
  function FoldPairs<P, K(==), V>(pairs: seq<P>, entry: P -> Option<(K, V)>): (r: map<K, V>)
    ensures |r.Keys| <= |pairs|
  {
    if pairs == [] then map[]
    else
      var data := FoldPairs(pairs[..|pairs| - 1], entry);
      var e := entry(pairs[|pairs| - 1]);
      if e.Some? then
        assert data[e.value.0 := e.value.1].Keys == data.Keys + {e.value.0};
        data[e.value.0 := e.value.1]
      else data
  }

  /** One more pair adds its entry, when it has one, on top of the earlier ones. */
  lemma FoldStep<P, K, V>(pairs: seq<P>, i: int, entry: P -> Option<(K, V)>)
    requires 0 <= i < |pairs|
    ensures entry(pairs[i]).Some? ==>
      FoldPairs(pairs[..i + 1], entry) == FoldPairs(pairs[..i], entry)[entry(pairs[i]).value.0 := entry(pairs[i]).value.1]
    ensures entry(pairs[i]).None? ==> FoldPairs(pairs[..i + 1], entry) == FoldPairs(pairs[..i], entry)
  {
    assert pairs[..i + 1][..i] == pairs[..i];
  }

  /** The keys are exactly those of the pairs that have an entry. */
  lemma {:induction false} FoldKeys<P, K, V>(pairs: seq<P>, entry: P -> Option<(K, V)>, k: K)
    ensures k in FoldPairs(pairs, entry) <==>
      exists i :: 0 <= i < |pairs| && entry(pairs[i]).Some? && entry(pairs[i]).value.0 == k
    decreases |pairs|
  {
    if pairs != [] {
      var init := pairs[..|pairs| - 1];
      FoldKeys(init, entry, k);
      if exists i :: 0 <= i < |init| && entry(init[i]).Some? && entry(init[i]).value.0 == k {
        var i :| 0 <= i < |init| && entry(init[i]).Some? && entry(init[i]).value.0 == k;
        assert pairs[i] == init[i];
      }
      if exists i :: 0 <= i < |pairs| && entry(pairs[i]).Some? && entry(pairs[i]).value.0 == k {
        var i :| 0 <= i < |pairs| && entry(pairs[i]).Some? && entry(pairs[i]).value.0 == k;
        if i < |init| {
          assert init[i] == pairs[i];
        }
      }
    }
  }

  /** A pair's value is the one kept unless a later pair has the same key: later
      duplicates overwrite earlier ones. */
  lemma {:induction false} FoldLastWins<P, K, V>(pairs: seq<P>, entry: P -> Option<(K, V)>, i: int)
    requires 0 <= i < |pairs| && entry(pairs[i]).Some?
    requires forall j :: i < j < |pairs| && entry(pairs[j]).Some? ==> entry(pairs[j]).value.0 != entry(pairs[i]).value.0
    ensures entry(pairs[i]).value.0 in FoldPairs(pairs, entry)
    ensures FoldPairs(pairs, entry)[entry(pairs[i]).value.0] == entry(pairs[i]).value.1
    decreases |pairs|
  {
    var init := pairs[..|pairs| - 1];
    if i < |pairs| - 1 {
      assert forall j :: i < j < |init| ==> init[j] == pairs[j];
      FoldLastWins(init, entry, i);
    }
  }
}
