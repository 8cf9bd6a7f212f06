// The command-line parser and history of the earlier debug console. A line is a command
// name, positional arguments in `[...]` and a data block in `{...}`; both are found by a
// quote- and bracket-aware matcher and cut at top-level commas by a quote- and
// bracket-aware splitter. Arguments, keys and list items lose one pair of outer quotes,
// and data values are typed by trying, in order, a list, a quoted string, an int, a
// float, a bool and the raw text.
module ScrappedConsole {
  import opened Wrappers
  import opened Text
  import opened ConsoleCommon
  import opened Seqs

  predicate IsQuote(c: char) {
    c == '"' || c == '\''
  }

  /** The scanner's state: bracket depth, whether inside a quotation, and the character
      that opened it. */
  datatype Scan = Scan(depth: int, inQuotes: bool, quoteChar: char)

  const Fresh: Scan := Scan(0, false, '\0')

  /** The brackets a scan counts: one given pair (the matcher), or all of `[`, `{` and
      `(` against `]`, `}` and `)` (the splitter). */
  datatype Brackets = Pair(open: char, close: char) | AnyBracket

  predicate Opens(b: Brackets, c: char) {
    match b
    case Pair(o, _) => c == o
    case AnyBracket => c == '[' || c == '{' || c == '('
  }

  predicate Closes(b: Brackets, c: char) {
    match b
    case Pair(_, k) => c == k
    case AnyBracket => c == ']' || c == '}' || c == ')'
  }

  /** One character of the scan: outside a quotation a quote character opens one, the
      opening character closes it, and outside quotations an opening or closing bracket
      moves the depth. */
  function Step(st: Scan, c: char, b: Brackets): Scan {
    if IsQuote(c) && !st.inQuotes then st.(inQuotes := true, quoteChar := c)
    else if c == st.quoteChar && st.inQuotes then st.(inQuotes := false)
    else if !st.inQuotes && Opens(b, c) then st.(depth := st.depth + 1)
    else if !st.inQuotes && Closes(b, c) then st.(depth := st.depth - 1)
    else st
  }

  /** The state after scanning `text[from..i]`. */
  function ScanState(text: string, from: nat, i: nat, b: Brackets): Scan
    requires from <= i <= |text|
    decreases i - from
  {
    if i == from then Fresh else Step(ScanState(text, from, i - 1, b), text[i - 1], b)
  }

  // ---------------------------------------------------------------- bracket matching

  /** The character at `i` is a closing bracket, outside quotations, that brings the
      depth counted from `start` back to 0. */
  predicate ClosesAt(text: string, start: nat, i: nat, open: char, close: char)
    requires start <= i < |text|
  {
    var st := ScanState(text, start, i, Pair(open, close));
    !st.inQuotes && !IsQuote(text[i]) && text[i] != open && text[i] == close && st.depth == 1
  }

  /** The first index from `i` on where the bracket opened at `start` closes, or -1. */
  function FirstClose(text: string, start: nat, i: nat, open: char, close: char): (r: int)
    requires start <= i <= |text|
    ensures r == -1 || (i <= r < |text| && start < r)
    decreases |text| - i
  {
    if i == |text| then -1
    else if ClosesAt(text, start, i, open, close) then i
    else FirstClose(text, start, i + 1, open, close)
  }

  lemma {:induction false} FirstCloseIsFirst(text: string, start: nat, i: nat, open: char, close: char)
    requires start <= i <= |text|
    ensures var r := FirstClose(text, start, i, open, close);
      (r != -1 ==> ClosesAt(text, start, r, open, close) && forall j :: i <= j < r ==> !ClosesAt(text, start, j, open, close))
      && (r == -1 ==> forall j :: i <= j < |text| ==> !ClosesAt(text, start, j, open, close))
    decreases |text| - i
  {
    if i < |text| && !ClosesAt(text, start, i, open, close) {
      FirstCloseIsFirst(text, start, i + 1, open, close);
    }
  }

  /** `FindMatchingBracket`'s answer: -1, or an index after `start`. */
  function MatchingBracket(text: string, start: nat, open: char, close: char): (r: int)
    ensures r == -1 || start < r < |text|
  {
    if start > |text| then -1 else FirstClose(text, start, start, open, close)
  }

  /** The matching bracket holds `close`, outside quotations, and is the first place where
      the depth counted from `start` returns to 0; -1 means no place does. */
  lemma BracketMatched(text: string, start: nat, open: char, close: char)
    ensures var r := MatchingBracket(text, start, open, close);
      r != -1 ==> (text[r] == close && ScanState(text, start, r + 1, Pair(open, close)).depth == 0
        && !ScanState(text, start, r + 1, Pair(open, close)).inQuotes
        && forall j :: start <= j < r ==> !ClosesAt(text, start, j, open, close))
    ensures MatchingBracket(text, start, open, close) == -1 && start <= |text| ==>
      forall j :: start <= j < |text| ==> !ClosesAt(text, start, j, open, close)
  {
    if start <= |text| {
      FirstCloseIsFirst(text, start, start, open, close);
    }
  }

  method FindMatchingBracket(text: string, startIndex: nat, openChar: char, closeChar: char) returns (r: int)
    ensures r == MatchingBracket(text, startIndex, openChar, closeChar)
  {
    if startIndex > |text| {
      return -1;
    }
    var depth := 0;
    var inQuotes := false;
    var quoteChar := '\0';
    var i := startIndex;
    while i < |text|
      invariant startIndex <= i <= |text|
      invariant Scan(depth, inQuotes, quoteChar) == ScanState(text, startIndex, i, Pair(openChar, closeChar))
      invariant FirstClose(text, startIndex, startIndex, openChar, closeChar) == FirstClose(text, startIndex, i, openChar, closeChar)
    {
      var c := text[i];
      if IsQuote(c) && !inQuotes {
        inQuotes := true;
        quoteChar := c;
      } else if c == quoteChar && inQuotes {
        inQuotes := false;
      } else if !inQuotes {
        if c == openChar {
          depth := depth + 1;
        } else if c == closeChar {
          depth := depth - 1;
          if depth == 0 {
            return i;
          }
        }
      }
      i := i + 1;
    }
    return -1;
  }

  // ---------------------------------------------------------------- splitting


  /** The character at `i` is the delimiter at the top level: outside quotations and at
      bracket depth 0. */
  predicate SplitsAt(text: string, d: char, i: nat)
    requires i < |text|
  {
    var st := ScanState(text, 0, i, AnyBracket);
    !st.inQuotes && !IsQuote(text[i]) && !Opens(AnyBracket, text[i]) && !Closes(AnyBracket, text[i]) && text[i] == d && st.depth == 0
  }

  /** Cut positions below `n`, strictly increasing: the last is below `n` and the others
      are cut positions below it. */
  predicate ValidCuts(cs: seq<int>, n: int)
    decreases |cs|
  {
    cs == [] || (0 <= cs[|cs| - 1] < n && ValidCuts(cs[..|cs| - 1], cs[|cs| - 1]))
  }

  lemma ValidCutsWeaken(cs: seq<int>, m: int, n: int)
    requires ValidCuts(cs, m) && m <= n
    ensures ValidCuts(cs, n)
  {
  }

  /** Every cut lies in `0..n`, and the cuts strictly increase. */
  lemma {:induction false} CutsInRange(cs: seq<int>, n: int)
    requires ValidCuts(cs, n)
    ensures forall a :: 0 <= a < |cs| ==> 0 <= cs[a] < n
    ensures forall a, b :: 0 <= a < b < |cs| ==> cs[a] < cs[b]
    decreases |cs|
  {
    if cs != [] {
      var init := cs[..|cs| - 1];
      CutsInRange(init, cs[|cs| - 1]);
      assert forall a :: 0 <= a < |init| ==> init[a] == cs[a];
    }
  }

  /** The top-level delimiters among the first `n` characters, in order. */
  function Cuts(text: string, d: char, n: nat): (r: seq<int>)
    requires n <= |text|
    ensures ValidCuts(r, n)
  {
    if n == 0 then []
    else
      var c := Cuts(text, d, n - 1);
      if SplitsAt(text, d, n - 1) then
        assert (c + [n - 1])[..|c|] == c;
        c + [n - 1]
      else c
  }

  /** The splitter cuts at the top-level delimiters and nowhere else, so never inside
      quotations or brackets. */
  lemma {:induction false} CutsAreSplits(text: string, d: char, n: nat, k: int)
    requires n <= |text|
    ensures k in Cuts(text, d, n) <==> 0 <= k < n && SplitsAt(text, d, k)
  {
    if n > 0 {
      CutsAreSplits(text, d, n - 1, k);
    }
  }

  lemma CutsStep(text: string, d: char, i: nat)
    requires i < |text|
    ensures SplitsAt(text, d, i) ==> Cuts(text, d, i + 1) == Cuts(text, d, i) + [i]
    ensures !SplitsAt(text, d, i) ==> Cuts(text, d, i + 1) == Cuts(text, d, i)
  {
  }

  function NextStart(cs: seq<int>): int {
    if cs == [] then 0 else cs[|cs| - 1] + 1
  }

  /** The pieces ending at each cut. */
  function Pieces(text: string, cs: seq<int>): (r: seq<string>)
    requires ValidCuts(cs, |text|)
    ensures |r| == |cs|
  {
    if cs == [] then []
    else
      var init := cs[..|cs| - 1];
      ValidCutsWeaken(init, cs[|cs| - 1], |text|);
      Pieces(text, init) + [text[NextStart(init)..cs[|cs| - 1]]]
  }

  lemma PiecesSnoc(text: string, cs: seq<int>, k: int)
    requires ValidCuts(cs, k) && 0 <= k < |text|
    ensures Pieces(text, cs + [k]) == Pieces(text, cs) + [text[NextStart(cs)..k]]
  {
    assert (cs + [k])[..|cs|] == cs;
  }

  /** `SplitRespectingDelimiters`'s answer: the pieces between top-level delimiters, and
      the remainder after the last one when it is not empty. */
  function Tokens(text: string, d: char): seq<string> {
    var cs := Cuts(text, d, |text|);
    var s := NextStart(cs);
    Pieces(text, cs) + (if s < |text| then [text[s..]] else [])
  }

  /** One character of the splitter's loop: the new scan state, and whether the character
      is a delimiter at the top level, where the current piece ends. */
  method SplitterStep(depth: int, inQuotes: bool, quoteChar: char, c: char, delimiter: char)
    returns (depth': int, inQuotes': bool, quoteChar': char, cut: bool)
    ensures Scan(depth', inQuotes', quoteChar') == Step(Scan(depth, inQuotes, quoteChar), c, AnyBracket)
    ensures cut <==> !inQuotes && !IsQuote(c) && !Opens(AnyBracket, c) && !Closes(AnyBracket, c) && c == delimiter && depth == 0
  {
    depth', inQuotes', quoteChar', cut := depth, inQuotes, quoteChar, false;
    if IsQuote(c) && !inQuotes {
      inQuotes' := true;
      quoteChar' := c;
    } else if c == quoteChar && inQuotes {
      inQuotes' := false;
    } else if !inQuotes {
      if c == '[' || c == '{' || c == '(' {
        depth' := depth + 1;
      } else if c == ']' || c == '}' || c == ')' {
        depth' := depth - 1;
      } else if c == delimiter && depth == 0 {
        cut := true;
      }
    }
  }

  method SplitRespectingDelimiters(text: string, delimiter: char) returns (result: seq<string>)
    ensures result == Tokens(text, delimiter)
  {
    result := [];
    var start := 0;
    var depth := 0;
    var inQuotes := false;
    var quoteChar := '\0';
    ghost var cuts: seq<int> := [];
    var i := 0;
    while i < |text|
      invariant 0 <= i <= |text|
      invariant Scan(depth, inQuotes, quoteChar) == ScanState(text, 0, i, AnyBracket)
      invariant cuts == Cuts(text, delimiter, i)
      invariant result == Pieces(text, cuts) && start == NextStart(cuts) <= i
    {
      CutsStep(text, delimiter, i);
      var cut;
      depth, inQuotes, quoteChar, cut := SplitterStep(depth, inQuotes, quoteChar, text[i], delimiter);
      assert cut <==> SplitsAt(text, delimiter, i);
      assert Scan(depth, inQuotes, quoteChar) == ScanState(text, 0, i + 1, AnyBracket);
      if cut {
        PiecesSnoc(text, cuts, i);
        result := result + [text[start..i]];
        start := i + 1;
        cuts := cuts + [i];
      }
      i := i + 1;
    }
    if start < |text| {
      result := result + [text[start..]];
    }
  }

  lemma {:induction false} JoinPieces(text: string, d: char, cs: seq<int>)
    requires ValidCuts(cs, |text|) && forall a :: 0 <= a < |cs| ==> 0 <= cs[a] < |text| && text[cs[a]] == d
    requires cs != []
    ensures Join(Pieces(text, cs), d) + [d] == text[..cs[|cs| - 1] + 1]
    decreases |cs|
  {
    var init := cs[..|cs| - 1];
    var last := cs[|cs| - 1];
    var p := Pieces(text, cs);
    assert text[..last + 1] == text[..last] + [d];
    if init != [] {
      ValidCutsWeaken(init, last, |text|);
      assert forall a :: 0 <= a < |init| ==> init[a] == cs[a];
      JoinPieces(text, d, init);
      assert p[..|p| - 1] == Pieces(text, init);
      assert text[..last] == text[..NextStart(init)] + text[NextStart(init)..last];
    }
  }

  /** Every cut is a position of the text holding the delimiter. */
  lemma CutsHoldDelimiter(text: string, d: char)
    ensures forall a :: 0 <= a < |Cuts(text, d, |text|)| ==>
      0 <= Cuts(text, d, |text|)[a] < |text| && text[Cuts(text, d, |text|)[a]] == d
  {
    var cs := Cuts(text, d, |text|);
    CutsInRange(cs, |text|);
    forall a | 0 <= a < |cs|
      ensures text[cs[a]] == d
    {
      assert cs[a] in cs;
      CutsAreSplits(text, d, |text|, cs[a]);
    }
  }

  lemma RoundTripWithRemainder(text: string, d: char)
    requires Cuts(text, d, |text|) != [] && NextStart(Cuts(text, d, |text|)) < |text|
    ensures !SplitsAt(text, d, |text| - 1) && Join(Tokens(text, d), d) == text
  {
    var cs := Cuts(text, d, |text|);
    var s := NextStart(cs);
    var p := Pieces(text, cs);
    var t := Tokens(text, d);
    CutsHoldDelimiter(text, d);
    JoinPieces(text, d, cs);
    CutsAreSplits(text, d, |text|, |text| - 1);
    CutsInRange(cs, |text|);
    assert forall a :: 0 <= a < |cs| ==> cs[a] < s;
    assert t == p + [text[s..]] && t[..|t| - 1] == p;
    assert text == text[..s] + text[s..];
  }

  lemma RoundTripWithoutRemainder(text: string, d: char)
    requires Cuts(text, d, |text|) != [] && NextStart(Cuts(text, d, |text|)) >= |text|
    ensures SplitsAt(text, d, |text| - 1) && Join(Tokens(text, d), d) + [d] == text
  {
    var cs := Cuts(text, d, |text|);
    var last := cs[|cs| - 1];
    assert last == |text| - 1 && last in cs;
    assert Tokens(text, d) == Pieces(text, cs);
    CutsAreSplits(text, d, |text|, last);
    CutsHoldDelimiter(text, d);
    JoinPieces(text, d, cs);
    assert text[..last + 1] == text;
  }

  /** Joining the tokens with the delimiter gives the text back, less a final top-level
      delimiter when there is one. */
  lemma SplitRoundTrip(text: string, d: char)
    ensures text != [] && SplitsAt(text, d, |text| - 1) ==> Join(Tokens(text, d), d) + [d] == text
    ensures !(text != [] && SplitsAt(text, d, |text| - 1)) ==> Join(Tokens(text, d), d) == text
  {
    var cs := Cuts(text, d, |text|);
    if cs == [] {
      if text != [] {
        CutsAreSplits(text, d, |text|, |text| - 1);
        assert text[0..] == text;
      }
    } else if NextStart(cs) < |text| {
      RoundTripWithRemainder(text, d);
    } else {
      RoundTripWithoutRemainder(text, d);
    }
  }

  // ---------------------------------------------------------------- arguments and values

  /** One pair of matching outer quotes, when the text is at least two characters long. */
  predicate IsQuoted(t: string) {
    |t| >= 2 && IsQuote(t[0]) && t[|t| - 1] == t[0]
  }

  /** The outer quotes removed. The source's test lets a lone quote character through to
      `Substring(1, -1)`, which throws; this is the intended, guarded removal. */
  function Unquote(t: string): (r: string)
    ensures IsQuoted(t) ==> t == [t[0]] + r + [t[0]]
    ensures !IsQuoted(t) ==> r == t
  {
    if IsQuoted(t) then t[1..|t| - 1] else t
  }

  /** The removal as written: `None` where `Substring` throws. */
  function UnquoteAsWritten(t: string): (r: Option<string>)
    ensures r.None? <==> |t| == 1 && IsQuote(t[0])
    ensures r.Some? ==> r.value == Unquote(t)
  {
    if |t| >= 1 && IsQuote(t[0]) && t[|t| - 1] == t[0] then
      if |t| >= 2 then Some(t[1..|t| - 1]) else None
    else Some(t)
  }

  /** Each token trimmed and unquoted. */
  function Cleaned(ts: seq<string>): (r: seq<string>)
    ensures |r| == |ts|
  {
    if ts == [] then [] else Cleaned(ts[..|ts| - 1]) + [Unquote(Trim(ts[|ts| - 1]))]
  }

  lemma {:induction false} CleanedTokens(ts: seq<string>, i: int)
    requires 0 <= i < |ts|
    ensures Cleaned(ts)[i] == Unquote(Trim(ts[i]))
    decreases |ts|
  {
    if i < |ts| - 1 {
      CleanedTokens(ts[..|ts| - 1], i);
    }
  }

  /** `ParsePositionalArguments`'s answer. */
  function PositionalArgs(argsString: string): seq<string> {
    if IsBlank(argsString) then [] else Cleaned(Tokens(argsString, ','))
  }

  /** Blank text has no arguments; otherwise there is one argument per top-level token,
      trimmed and stripped of one pair of matching outer quotes. */
  lemma PositionalArgsShape(argsString: string)
    ensures IsBlank(argsString) ==> PositionalArgs(argsString) == []
    ensures !IsBlank(argsString) ==> (|PositionalArgs(argsString)| == |Tokens(argsString, ',')|
      && forall i :: 0 <= i < |Tokens(argsString, ',')| ==>
        PositionalArgs(argsString)[i] == Unquote(Trim(Tokens(argsString, ',')[i])))
  {
    if !IsBlank(argsString) {
      var ts := Tokens(argsString, ',');
      forall i | 0 <= i < |ts|
        ensures PositionalArgs(argsString)[i] == Unquote(Trim(ts[i]))
      {
        CleanedTokens(ts, i);
      }
    }
  }

  method ParsePositionalArguments(argsString: string) returns (args: seq<string>)
    ensures args == PositionalArgs(argsString)
  {
    args := [];
    if IsBlank(argsString) {
      return;
    }
    var tokens := SplitRespectingDelimiters(argsString, ',');
    var i := 0;
    while i < |tokens|
      invariant 0 <= i <= |tokens|
      invariant args == Cleaned(tokens[..i])
    {
      PrefixOfPrefix(tokens, i);
      var trimmed := Trim(tokens[i]);
      trimmed := Unquote(trimmed);
      args := args + [trimmed];
      i := i + 1;
    }
    Whole(tokens);
  }

  /** The value of trimmed text, `parseFloat` standing for `float.TryParse`. */
  function TypedValue(v: string, parseFloat: string -> Option<real>): (r: Value)
    ensures r.ListValue? <==> Bracketed(v)
    ensures r.IntValue? ==> !IsQuoted(v) && ParseInt32(v) == Some(r.n)
    ensures r.FloatValue? ==> ParseInt32(v).None?
    ensures r.BoolValue? ==> ParseInt32(v).None? && parseFloat(v).None?
  {
    if Bracketed(v) then ListValue(Cleaned(Tokens(v[1..|v| - 1], ',')))
    else if IsQuoted(v) then StringValue(Unquote(v))
    else if ParseInt32(v).Some? then IntValue(ParseInt32(v).value)
    else if parseFloat(v).Some? then FloatValue(parseFloat(v).value)
    else if ParseBool(v).Some? then BoolValue(ParseBool(v).value)
    else StringValue(v)
  }

  /** The readings are tried in order, each taken only when every earlier one fails: a
      bracketed list, a quoted string, an int, a float, a bool, and otherwise the text
      itself. So text that reads as an int never becomes a float, and "true" becomes a
      bool only because it is no number. */
  lemma ReadingsInOrder(v: string, parseFloat: string -> Option<real>)
    ensures TypedValue(v, parseFloat).ListValue? <==> Bracketed(v)
    ensures Bracketed(v) ==> TypedValue(v, parseFloat).items == Cleaned(Tokens(v[1..|v| - 1], ','))
    ensures !Bracketed(v) && IsQuoted(v) ==> TypedValue(v, parseFloat) == StringValue(Unquote(v))
    ensures !Bracketed(v) && !IsQuoted(v) && ParseInt32(v).Some? ==> TypedValue(v, parseFloat) == IntValue(ParseInt32(v).value)
    ensures TypedValue(v, parseFloat).FloatValue? ==> !IsQuoted(v) && ParseInt32(v).None? && parseFloat(v) == Some(TypedValue(v, parseFloat).x)
    ensures TypedValue(v, parseFloat).BoolValue? ==>
      !IsQuoted(v) && ParseInt32(v).None? && parseFloat(v).None? && ParseBool(v) == Some(TypedValue(v, parseFloat).b)
    ensures !Bracketed(v) && !IsQuoted(v) && ParseInt32(v).None? && parseFloat(v).None? && ParseBool(v).None? ==>
      TypedValue(v, parseFloat) == StringValue(v)
  {
  }

  /** `ParseDataValue`'s answer: the value of the trimmed text. */
  function DataValue(valueStr: string, parseFloat: string -> Option<real>): Value {
    TypedValue(Trim(valueStr), parseFloat)
  }

  method ParseDataValue(valueStr: string, parseFloat: string -> Option<real>) returns (value: Value)
    ensures value == DataValue(valueStr, parseFloat)
  {
    var v := Trim(valueStr);
    value := ReadValue(v, parseFloat);
  }

  /** The body of `ParseDataValue` after the trim: each reading tried in turn. */
  method ReadValue(v: string, parseFloat: string -> Option<real>) returns (value: Value)
    ensures value == TypedValue(v, parseFloat)
  {
    if Bracketed(v) {
      var arrayItems := SplitRespectingDelimiters(v[1..|v| - 1], ',');
      return ListValue(Cleaned(arrayItems));
    }
    if IsQuoted(v) {
      return StringValue(Unquote(v));
    }
    var n := ParseInt32(v);
    if n.Some? {
      return IntValue(n.value);
    }
    var x := parseFloat(v);
    if x.Some? {
      return FloatValue(x.value);
    }
    var b := ParseBool(v);
    if b.Some? {
      return BoolValue(b.value);
    }
    return StringValue(v);
  }

  // ---------------------------------------------------------------- data block

  /** A pair's entry: none without a ':', otherwise the unquoted key before the first
      ':' and the value after it. */
  function PairEntry(pair: string, parseFloat: string -> Option<real>): (e: Option<(string, Value)>)
    ensures e.None? <==> ':' !in pair
    ensures e.Some? ==> e.value.0 == Unquote(Trim(pair[..IndexOf(pair, ':')]))
  {
    var colon := IndexOf(pair, ':');
    if colon == -1 then None
    else Some((Unquote(Trim(pair[..colon])), DataValue(Trim(pair[colon + 1..]), parseFloat)))
  }

  function Entries(parseFloat: string -> Option<real>): string -> Option<(string, Value)> {
    pair => PairEntry(pair, parseFloat)
  }

  /** `ParseDataBlock`'s answer. */
  function DataBlock(dataString: string, parseFloat: string -> Option<real>): (r: map<string, Value>)
    ensures IsBlank(dataString) ==> r == map[]
    ensures |r.Keys| <= |Tokens(dataString, ',')|
  {
    if IsBlank(dataString) then map[] else FoldPairs(Tokens(dataString, ','), Entries(parseFloat))
  }

  /** The keys of a data block are the unquoted keys of its top-level pairs that have a
      ':'; blank text has none. */
  lemma DataBlockKeys(dataString: string, parseFloat: string -> Option<real>, k: string)
    ensures k in DataBlock(dataString, parseFloat) <==> (!IsBlank(dataString) &&
      exists i :: 0 <= i < |Tokens(dataString, ',')| && PairEntry(Tokens(dataString, ',')[i], parseFloat).Some?
        && PairEntry(Tokens(dataString, ',')[i], parseFloat).value.0 == k)
  {
    if !IsBlank(dataString) {
      var ts := Tokens(dataString, ',');
      assert forall j :: 0 <= j < |ts| ==> Entries(parseFloat)(ts[j]) == PairEntry(ts[j], parseFloat);
      FoldKeys(ts, Entries(parseFloat), k);
    }
  }

  /** A pair whose key no later pair repeats gives the key its value: later duplicates
      overwrite earlier ones. */
  lemma DataBlockLastWins(dataString: string, parseFloat: string -> Option<real>, i: int)
    requires !IsBlank(dataString) && 0 <= i < |Tokens(dataString, ',')| && ':' in Tokens(dataString, ',')[i]
    requires forall j :: i < j < |Tokens(dataString, ',')| && ':' in Tokens(dataString, ',')[j] ==>
      PairEntry(Tokens(dataString, ',')[j], parseFloat).value.0 != PairEntry(Tokens(dataString, ',')[i], parseFloat).value.0
    ensures PairEntry(Tokens(dataString, ',')[i], parseFloat).value.0 in DataBlock(dataString, parseFloat)
    ensures DataBlock(dataString, parseFloat)[PairEntry(Tokens(dataString, ',')[i], parseFloat).value.0] ==
      PairEntry(Tokens(dataString, ',')[i], parseFloat).value.1
  {
    var ts := Tokens(dataString, ',');
    assert forall j :: 0 <= j < |ts| ==> Entries(parseFloat)(ts[j]) == PairEntry(ts[j], parseFloat);
    FoldLastWins(ts, Entries(parseFloat), i);
  }

  /** The body of `ParseDataBlock`'s loop for one pair: nothing without a ':', otherwise
      the unquoted key and the typed value. */
  method ReadPair(pair: string, parseFloat: string -> Option<real>) returns (entry: Option<(string, Value)>)
    ensures entry == PairEntry(pair, parseFloat)
  {
    var colonIndex := IndexOf(pair, ':');
    if colonIndex == -1 {
      return None;
    }
    var key := Trim(pair[..colonIndex]);
    var valueStr := Trim(pair[colonIndex + 1..]);
    key := Unquote(key);
    var value := ParseDataValue(valueStr, parseFloat);
    return Some((key, value));
  }

  method ParseDataBlock(dataString: string, parseFloat: string -> Option<real>) returns (data: map<string, Value>)
    ensures data == DataBlock(dataString, parseFloat)
  {
    data := map[];
    if IsBlank(dataString) {
      return;
    }
    var pairs := SplitRespectingDelimiters(dataString, ',');
    var i := 0;
    while i < |pairs|
      invariant 0 <= i <= |pairs|
      invariant data == FoldPairs(pairs[..i], Entries(parseFloat))
    {
      FoldStep(pairs, i, Entries(parseFloat));
      var entry := ReadPair(pairs[i], parseFloat);
      if entry.Some? {
        data := data[entry.value.0 := entry.value.1];
      }
      i := i + 1;
    }
    Whole(pairs);
  }

  // ---------------------------------------------------------------- command line

  /** The text between the first `open` of a trimmed line and its matching `close`, or
      nothing when either is missing. */
  function Enclosed(t: string, open: char, close: char): (r: Option<string>)
    ensures r.Some? ==> |r.value| < |t|
  {
    var s := IndexOf(t, open);
    if s == -1 then None
    else
      var e := MatchingBracket(t, s, open, close);
      if e == -1 then None else Some(t[s + 1..e])
  }

  lemma EnclosedAt(t: string, open: char, close: char, s: int, e: int)
    requires s == IndexOf(t, open) && s != -1 && e == MatchingBracket(t, s, open, close) && e != -1
    ensures Enclosed(t, open, close) == Some(t[s + 1..e])
  {
  }

  /** The positional arguments of a trimmed line: those inside the first `[` and its
      matching `]`, or none. */
  function ArgumentsOf(t: string): seq<string> {
    match Enclosed(t, '[', ']')
    case None => []
    case Some(a) => PositionalArgs(a)
  }

  /** The data block of a trimmed line: the one inside the first `{` and its matching
      `}`, or an empty one. */
  function DataOf(t: string, parseFloat: string -> Option<real>): map<string, Value> {
    match Enclosed(t, '{', '}')
    case None => map[]
    case Some(d) => DataBlock(d, parseFloat)
  }

  /** `ParseCommandLine`'s answer. */
  function Parsed(commandLine: string, parseFloat: string -> Option<real>): (r: ParsedCommand)
    ensures '[' !in Trim(commandLine) && '{' !in Trim(commandLine) ==>
      r == ParsedCommand(ToLower(Trim(commandLine)), [], map[])
    ensures var t := Trim(commandLine); var b := IndexOfAny(t, {'[', '{'});
      b >= 0 ==> r.commandName == ToLower(Trim(t[..b]))
  {
    if commandLine == [] then EmptyCommand
    else
      var t := Trim(commandLine);
      var b := IndexOfAny(t, {'[', '{'});
      if b == -1 then ParsedCommand(ToLower(t), [], map[])
      else ParsedCommand(ToLower(Trim(t[..b])), ArgumentsOf(t), DataOf(t, parseFloat))
  }

  method ParseCommandLine(commandLine: string, parseFloat: string -> Option<real>) returns (parsed: ParsedCommand)
    ensures parsed == Parsed(commandLine, parseFloat)
  {
    parsed := EmptyCommand;
    if commandLine == [] {
      return;
    }
    var trimmedLine := Trim(commandLine);
    var bracketIndex := IndexOfAny(trimmedLine, {'[', '{'});
    if bracketIndex == -1 {
      parsed := parsed.(commandName := ToLower(trimmedLine));
      return;
    }
    parsed := parsed.(commandName := ToLower(Trim(trimmedLine[..bracketIndex])));
    var startBracket := IndexOf(trimmedLine, '[');
    if startBracket != -1 {
      var endBracket := FindMatchingBracket(trimmedLine, startBracket, '[', ']');
      if endBracket != -1 {
        EnclosedAt(trimmedLine, '[', ']', startBracket, endBracket);
        var args := ParsePositionalArguments(trimmedLine[startBracket + 1..endBracket]);
        parsed := parsed.(positionalArgs := args);
      }
    }
    assert parsed.positionalArgs == ArgumentsOf(trimmedLine);
    var startBrace := IndexOf(trimmedLine, '{');
    if startBrace != -1 {
      var endBrace := FindMatchingBracket(trimmedLine, startBrace, '{', '}');
      if endBrace != -1 {
        EnclosedAt(trimmedLine, '{', '}', startBrace, endBrace);
        var data := ParseDataBlock(trimmedLine[startBrace + 1..endBrace], parseFloat);
        parsed := parsed.(dataBlock := data);
      }
    }
  }

  // ---------------------------------------------------------------- the parse as written

  /** A single quote character: the text on which `Substring(1, Length - 2)` throws. */
  predicate LoneQuote(t: string) {
    |t| == 1 && IsQuote(t[0])
  }

  /** Some trimmed token of a list is a lone quote. */
  predicate SomeLoneQuote(ts: seq<string>) {
    exists i :: 0 <= i < |ts| && LoneQuote(Trim(ts[i]))
  }

  /** `ParseDataValue` throws on the trimmed value `v`: a list item that trims to a lone
      quote, or a value that is itself a lone quote. */
  predicate ValueThrows(v: string) {
    if Bracketed(v) then SomeLoneQuote(Tokens(v[1..|v| - 1], ','))
    else LoneQuote(v)
  }

  /** One pair of `ParseDataBlock` throws: its key or its value is a lone quote. */
  predicate PairThrows(pair: string) {
    var colon := IndexOf(pair, ':');
    colon != -1 &&
    (LoneQuote(Trim(pair[..colon])) || ValueThrows(Trim(Trim(pair[colon + 1..]))))
  }

  /** `ParseCommandLine` throws: a positional argument, a key, a value or a list item of
      its input trims to a lone quote. */
  predicate ParseThrows(commandLine: string) {
    var t := Trim(commandLine);
    commandLine != [] && IndexOfAny(t, {'[', '{'}) != -1 &&
    ((Enclosed(t, '[', ']').Some? && !IsBlank(Enclosed(t, '[', ']').value) &&
      SomeLoneQuote(Tokens(Enclosed(t, '[', ']').value, ','))) ||
     (Enclosed(t, '{', '}').Some? && !IsBlank(Enclosed(t, '{', '}').value) &&
      exists i :: 0 <= i < |Tokens(Enclosed(t, '{', '}').value, ',')| &&
        PairThrows(Tokens(Enclosed(t, '{', '}').value, ',')[i])))
  }

  /** `ParseCommandLine` as written: nothing where it throws, the parse otherwise. The
      unquoting it applies agrees with `Unquote` wherever it does not throw. */
  function ParsedAsWritten(commandLine: string, parseFloat: string -> Option<real>): (r: Option<ParsedCommand>)
    ensures r.None? <==> ParseThrows(commandLine)
    ensures r.Some? ==> r.value == Parsed(commandLine, parseFloat)
    ensures '[' !in Trim(commandLine) && '{' !in Trim(commandLine) ==> r.Some?
  {
    if ParseThrows(commandLine) then None else Some(Parsed(commandLine, parseFloat))
  }

  /** A value that is a lone quote throws, where the corrected reading keeps it as text. */
  lemma LoneQuoteValue(parseFloat: string -> Option<real>)
    ensures ValueThrows("\"")
    ensures TypedValue("\"", parseFloat).StringValue? || TypedValue("\"", parseFloat).FloatValue?
    ensures UnquoteAsWritten("\"") == None
  {
  }

  /** The scan of `c {x":"}` from its `{`: the quotation opens and closes, and the depth
      is back to 0 at the last `}`. */
  lemma LoneQuoteValueScan(line: string)
    requires line == "c {x\":\"}"
    ensures MatchingBracket(line, 2, '{', '}') == 7
  {
    var b := Pair('{', '}');
    assert ScanState(line, 2, 3, b) == Scan(1, false, '\0');
    assert ScanState(line, 2, 4, b) == Scan(1, false, '\0');
    assert ScanState(line, 2, 5, b) == Scan(1, true, '"');
    assert ScanState(line, 2, 6, b) == Scan(1, true, '"');
    assert ScanState(line, 2, 7, b) == Scan(1, false, '"');
    assert forall j :: 2 <= j < 7 ==> !ClosesAt(line, 2, j, '{', '}');
    assert ClosesAt(line, 2, 7, '{', '}');
    FirstCloseIsFirst(line, 2, 2, '{', '}');
  }

  /** A line whose data block is a single throwing pair throws. */
  lemma ThrowsByPair(line: string, d: string, pair: string, parseFloat: string -> Option<real>)
    requires line != [] && Trim(line) == line && IndexOfAny(line, {'[', '{'}) != -1
    requires Enclosed(line, '{', '}') == Some(d) && !IsBlank(d)
    requires Tokens(d, ',') == [pair] && PairThrows(pair)
    ensures ParseThrows(line)
    ensures ParsedAsWritten(line, parseFloat) == None
  {
    assert Tokens(d, ',')[0] == pair;
  }

  /** The pair `x":"` has its first ':' inside the quotation, so its value is a lone `"`;
      it is one non-blank token. */
  lemma LoneQuoteValuePair(pair: string)
    requires pair == "x\":\""
    ensures PairThrows(pair) && !IsBlank(pair) && Tokens(pair, ',') == [pair]
  {
    LoneQuoteValueColon(pair);
    assert ValueThrows(Trim(Trim(pair[3..])));
    assert ',' !in pair;
    SingleToken(pair, ',');
    BlankIffAllWhitespace(pair);
    assert !IsWhitespace(pair[0]);
  }

  /** The first ':' of `x":"` is at index 2, and what follows it trims to a lone `"`. */
  lemma LoneQuoteValueColon(pair: string)
    requires pair == "x\":\""
    ensures IndexOf(pair, ':') == 2 && Trim(Trim(pair[3..])) == "\""
  {
    assert pair[2] == ':' && pair[..2] == "x\"";
    assert pair[3..] == "\"";
    TrimOfClean("\"");
  }

  /** `c {x":"}` is its own trim, and its braces enclose `x":"`. */
  lemma LoneQuoteValueLine(line: string)
    requires line == "c {x\":\"}"
    ensures line != [] && Trim(line) == line && IndexOfAny(line, {'[', '{'}) != -1
    ensures Enclosed(line, '{', '}') == Some("x\":\"")
  {
    TrimOfClean(line);
    assert line[2] in {'[', '{'};
    assert IndexOf(line, '{') == 2 by {
      assert line[2] == '{' && line[..2] == "c ";
    }
    LoneQuoteValueScan(line);
    assert line[3..7] == "x\":\"";
  }

  /** The line `c {x":"}`: its one pair `x":"` has its first ':' inside the quotation, so
      its value is a lone `"` and the parse as written throws. */
  lemma LoneQuoteValueThrows(line: string, parseFloat: string -> Option<real>)
    requires line == "c {x\":\"}"
    ensures Enclosed(line, '{', '}') == Some("x\":\"")
    ensures ParseThrows(line)
    ensures ParsedAsWritten(line, parseFloat) == None
  {
    LoneQuoteValueLine(line);
    LoneQuoteValuePair("x\":\"");
    ThrowsByPair(line, "x\":\"", "x\":\"", parseFloat);
  }

  /** The pair `": "x` is one non-blank token whose key is a lone quote. */
  lemma LoneQuoteKeyPair(pair: string)
    requires pair == "\": \"x"
    ensures PairThrows(pair) && !IsBlank(pair) && Tokens(pair, ',') == [pair]
  {
    LoneQuoteKeyColon(pair);
    assert LoneQuote(Trim(pair[..1]));
    assert ',' !in pair;
    SingleToken(pair, ',');
    BlankIffAllWhitespace(pair);
    assert !IsWhitespace(pair[1]);
  }

  /** `c {": "x}` is its own trim, and its braces enclose `": "x`. */
  lemma LoneQuoteKeyLine(line: string)
    requires line == "c {\": \"x}"
    ensures line != [] && Trim(line) == line && IndexOfAny(line, {'[', '{'}) != -1
    ensures Enclosed(line, '{', '}') == Some("\": \"x")
  {
    TrimOfClean(line);
    assert line[2] in {'[', '{'};
    LoneQuoteBlock(line);
  }

  /** The line `c {": "x}` throws as written as well: its key is a lone quote. */
  lemma LoneQuoteKeyParseThrows(line: string, parseFloat: string -> Option<real>)
    requires line == "c {\": \"x}"
    ensures ParseThrows(line)
    ensures ParsedAsWritten(line, parseFloat) == None
  {
    LoneQuoteKeyLine(line);
    LoneQuoteKeyPair("\": \"x");
    ThrowsByPair(line, "\": \"x", "\": \"x", parseFloat);
  }

  // ---------------------------------------------------------------- the console

  class DebugConsoleManager {
    const maxHistoryCount: int
    var commandHistory: seq<string>
    var historyIndex: int
    var currentInput: string
    var showSuggestions: bool
    var selectedSuggestionIndex: int

    /** The history is within its bound, never repeats an entry back to back, and the
        index is the fresh input (-1) or an entry. */
    predicate HistoryValid()
      reads this
    {
      NoStutter(commandHistory) && |commandHistory| <= maxHistoryCount && -1 <= historyIndex < |commandHistory|
    }

    /** The serialized defaults: fifty history entries, nothing typed. */
    constructor()
      ensures maxHistoryCount == 50 && commandHistory == [] && historyIndex == -1
      ensures currentInput == "" && !showSuggestions && selectedSuggestionIndex == -1
      ensures HistoryValid()
    {
      maxHistoryCount := 50;
      commandHistory, historyIndex := [], -1;
      currentInput, showSuggestions, selectedSuggestionIndex := "", false, -1;
    }

    /** `NavigateHistory`: nothing on an empty history; otherwise the index moves by
        `direction`, held to the fresh input and the entries, and the input shows it. */
    method NavigateHistory(direction: int)
      modifies this`historyIndex, this`currentInput
      ensures commandHistory == [] ==> historyIndex == old(historyIndex) && currentInput == old(currentInput)
      ensures commandHistory != [] ==> historyIndex == Navigated(|commandHistory|, old(historyIndex), direction)
      ensures commandHistory != [] ==> -1 <= historyIndex < |commandHistory| && currentInput == Recalled(commandHistory, historyIndex)
      ensures old(HistoryValid()) ==> HistoryValid()
    {
      if |commandHistory| == 0 {
        return;
      }
      historyIndex := historyIndex + direction;
      historyIndex := ClampIndex(historyIndex, -1, |commandHistory| - 1);
      if historyIndex >= 0 {
        currentInput := commandHistory[historyIndex];
      } else {
        currentInput := "";
      }
    }

    /** `ExecuteCommand` up to the dispatch: blank input is ignored; otherwise the trimmed
        command enters the history unless it repeats the last entry, the oldest entry
        goes beyond the bound and the index returns to the fresh input. Then the command
        is parsed: where the parse throws, the exception leaves the input and the
        suggestions as they were and nothing is returned; otherwise the input is
        cleared and the parsed command returned. */
    method ExecuteCommand(parseFloat: string -> Option<real>) returns (parsed: Option<ParsedCommand>)
      modifies this`commandHistory, this`historyIndex, this`currentInput, this`showSuggestions, this`selectedSuggestionIndex
      ensures IsBlank(old(currentInput)) ==> (parsed.None? && commandHistory == old(commandHistory)
        && historyIndex == old(historyIndex) && currentInput == old(currentInput)
        && showSuggestions == old(showSuggestions) && selectedSuggestionIndex == old(selectedSuggestionIndex))
      ensures !IsBlank(old(currentInput)) ==>
        commandHistory == Appended(old(commandHistory), Trim(old(currentInput)), maxHistoryCount)
        && historyIndex == -1 && parsed == ParsedAsWritten(Trim(old(currentInput)), parseFloat)
      ensures !IsBlank(old(currentInput)) && parsed.None? ==>
        currentInput == old(currentInput) && showSuggestions == old(showSuggestions)
        && selectedSuggestionIndex == old(selectedSuggestionIndex)
      ensures !IsBlank(old(currentInput)) && parsed.Some? ==>
        currentInput == "" && !showSuggestions && selectedSuggestionIndex == -1
      ensures old(HistoryValid()) ==> HistoryValid()
    {
      if IsBlank(currentInput) {
        return None;
      }
      var command := Trim(currentInput);
      RecordCommand(command);
      if ParseThrows(command) {
        return None;
      }
      var p := ParseCommandLine(command, parseFloat);
      parsed := Some(p);
      currentInput := "";
      showSuggestions := false;
      selectedSuggestionIndex := -1;
    }

    /** The history step of `ExecuteCommand` for a trimmed command: the entry is added
        unless it repeats the last one, and the index returns to the fresh input. */
    method RecordCommand(command: string)
      modifies this`commandHistory, this`historyIndex
      ensures commandHistory == Appended(old(commandHistory), command, maxHistoryCount)
      ensures historyIndex == -1
      ensures old(HistoryValid()) ==> HistoryValid()
    {
      ghost var h0 := commandHistory;
      if |commandHistory| == 0 || commandHistory[|commandHistory| - 1] != command {
        commandHistory := commandHistory + [command];
        if |commandHistory| > maxHistoryCount {
          commandHistory := commandHistory[1..];
        }
        assert commandHistory == Capped(h0, command, maxHistoryCount);
      }
      assert commandHistory == Appended(h0, command, maxHistoryCount);
      if NoStutter(h0) {
        AppendedNoStutter(h0, command, maxHistoryCount);
      }
      historyIndex := -1;
    }
  }

  // ---------------------------------------------------------------- the lone-quote key

  /** The scan of `c {": "x}` from its `{`: the quotation opens and closes, and the depth
      stays 1 up to the last `}`. */
  lemma LoneQuoteScan(line: string)
    requires line == "c {\": \"x}"
    ensures ScanState(line, 2, 8, Pair('{', '}')) == Scan(1, false, '"')
    ensures forall j :: 2 <= j < 8 ==> !ClosesAt(line, 2, j, '{', '}')
  {
    var b := Pair('{', '}');
    assert ScanState(line, 2, 3, b) == Scan(1, false, '\0');
    assert ScanState(line, 2, 4, b) == Scan(1, true, '"');
    assert ScanState(line, 2, 5, b) == Scan(1, true, '"');
    assert ScanState(line, 2, 6, b) == Scan(1, true, '"');
    assert ScanState(line, 2, 7, b) == Scan(1, false, '"');
    assert ScanState(line, 2, 8, b) == Scan(1, false, '"');
  }

  /** The line `c {": "x}` encloses `": "x` in its braces: the `}` inside the quotation
      counts for nothing. */
  lemma LoneQuoteBlock(line: string)
    requires line == "c {\": \"x}"
    ensures Enclosed(line, '{', '}') == Some("\": \"x")
  {
    assert IndexOf(line, '{') == 2 by {
      assert line[2] == '{' && line[..2] == "c ";
    }
    assert MatchingBracket(line, 2, '{', '}') == 8 by {
      LoneQuoteScan(line);
      assert ClosesAt(line, 2, 8, '{', '}');
      FirstCloseIsFirst(line, 2, 2, '{', '}');
    }
    assert line[3..8] == "\": \"x";
  }

  /** Text without the delimiter is a single token. */
  lemma {:induction false} NoDelimiterNoCuts(text: string, d: char, n: nat)
    requires n <= |text| && d !in text
    ensures Cuts(text, d, n) == []
  {
    if n > 0 {
      NoDelimiterNoCuts(text, d, n - 1);
      assert text[n - 1] in text;
    }
  }

  lemma SingleToken(text: string, d: char)
    requires text != [] && d !in text
    ensures Tokens(text, d) == [text]
  {
    NoDelimiterNoCuts(text, d, |text|);
    assert text[0..] == text;
  }

  /** The pair's first ':' is inside the quotation, so its key is a lone `"`. */
  lemma LoneQuoteKey(pair: string, parseFloat: string -> Option<real>)
    requires pair == "\": \"x"
    ensures IndexOf(pair, ':') == 1 && Trim(pair[..1]) == "\""
    ensures PairEntry(pair, parseFloat).Some? && PairEntry(pair, parseFloat).value.0 == "\""
  {
    LoneQuoteKeyColon(pair);
  }

  /** The first ':' of `": "x` is at index 1, after a lone `"`. */
  lemma LoneQuoteKeyColon(pair: string)
    requires pair == "\": \"x"
    ensures IndexOf(pair, ':') == 1 && Trim(pair[..1]) == "\""
  {
    assert pair[1] == ':' && pair[..1] == "\"";
    TrimOfClean("\"");
  }

  /** The data block `": "x` holds the key `"`. */
  lemma LoneQuoteData(pair: string, parseFloat: string -> Option<real>)
    requires pair == "\": \"x"
    ensures Tokens(pair, ',') == [pair]
    ensures "\"" in DataBlock(pair, parseFloat)
  {
    assert Tokens(pair, ',') == [pair] by {
      assert ',' !in pair;
      SingleToken(pair, ',');
    }
    assert !IsBlank(pair) by {
      BlankIffAllWhitespace(pair);
      assert !IsWhitespace(pair[1]);
    }
    LoneQuoteKey(pair, parseFloat);
    DataBlockKeys(pair, parseFloat, "\"");
    assert Tokens(pair, ',')[0] == pair;
  }

  /** The line `c {": "x}`: its data block is the single pair `": "x`, whose key is a
      lone `"`; the unquoting as written throws on it, while the guarded unquoting keeps
      the key as `"`. */
  lemma LoneQuoteKeyThrows(line: string, pair: string, parseFloat: string -> Option<real>)
    requires line == "c {\": \"x}" && pair == "\": \"x"
    ensures Enclosed(line, '{', '}') == Some(pair)
    ensures Tokens(pair, ',') == [pair]
    ensures IndexOf(pair, ':') == 1 && Trim(pair[..1]) == "\""
    ensures UnquoteAsWritten(Trim(pair[..1])) == None
    ensures "\"" in DataOf(line, parseFloat)
  {
    LoneQuoteBlock(line);
    LoneQuoteData(pair, parseFloat);
    LoneQuoteKey(pair, parseFloat);
  }
}
