// The command-line parser of the current debug console. The command name runs up to
// the first space, `[` or `{`; the positional arguments are the text of the first
// `[...]` with no `]` inside (a lazy regular-expression match), the data block the text
// from the first `{` to the last `}` on its line (a greedy one). Arguments are cut at
// commas outside double quotes, which are dropped; the data block is cut at commas
// outside quotes and `[...]` lists, and each `key:value` pair gets a typed value.
module ConsoleParser {
  import opened Wrappers
  import opened Text
  import opened ConsoleCommon
  import opened Seqs

  // ---------------------------------------------------------------- the two regular expressions

  /** The first index from `k` on holding `stop` or a line break, or -1: where a run of
      `.` (which matches anything but '\n') followed by `stop` has to end. */
  function LineStop(t: string, k: nat, stop: char): (r: int)
    requires k <= |t|
    ensures r == -1 || k <= r < |t|
    decreases |t| - k
  {
    if k == |t| then -1
    else if t[k] == stop || t[k] == '\n' then k
    else LineStop(t, k + 1, stop)
  }

  lemma {:induction false} LineStopMeaning(t: string, k: nat, stop: char)
    requires k <= |t|
    ensures var r := LineStop(t, k, stop);
      (r == -1 ==> forall j :: k <= j < |t| ==> t[j] != stop && t[j] != '\n')
      && (r != -1 ==> (t[r] == stop || t[r] == '\n') && forall j :: k <= j < r ==> t[j] != stop && t[j] != '\n')
    decreases |t| - k
  {
    if k < |t| && t[k] != stop && t[k] != '\n' {
      LineStopMeaning(t, k + 1, stop);
    }
  }

  /** The end of the line that index `k` is on: the first '\n' from `k` on, or the end. */
  function LineEnd(t: string, k: nat): (e: nat)
    requires k <= |t|
    ensures k <= e <= |t|
    decreases |t| - k
  {
    if k == |t| || t[k] == '\n' then k else LineEnd(t, k + 1)
  }

  lemma {:induction false} LineEndMeaning(t: string, k: nat)
    requires k <= |t|
    ensures var e := LineEnd(t, k); (e == |t| || t[e] == '\n') && forall j :: k <= j < e ==> t[j] != '\n'
    decreases |t| - k
  {
    if k < |t| && t[k] != '\n' {
      LineEndMeaning(t, k + 1);
    }
  }

  /** The last index in `k..e` holding `c`, or -1. */
  function LastIn(t: string, k: nat, e: nat, c: char): (r: int)
    requires k <= e <= |t|
    ensures r == -1 || k <= r < e
    decreases e - k
  {
    if e == k then -1 else if t[e - 1] == c then e - 1 else LastIn(t, k, e - 1, c)
  }

  lemma {:induction false} LastInMeaning(t: string, k: nat, e: nat, c: char)
    requires k <= e <= |t|
    ensures var r := LastIn(t, k, e, c);
      (r == -1 ==> forall j :: k <= j < e ==> t[j] != c)
      && (r != -1 ==> t[r] == c && forall j :: r < j < e ==> t[j] != c)
    decreases e - k
  {
    if e > k && t[e - 1] != c {
      LastInMeaning(t, k, e - 1, c);
    }
  }

  /** `open` at `p` and `close` at `q` with no line break between them: the brackets
      that both patterns can match. */
  predicate Viable(t: string, open: char, close: char, p: int, q: int) {
    0 <= p < q < |t| && t[p] == open && t[q] == close && forall j :: p < j < q ==> t[j] != '\n'
  }

  /** Where `\[(.*?)\]` matches, trying start positions from `p` on: the first `[` that a
      `]` follows on its line, and the first `]` after it. */
  function LazyFrom(t: string, p: nat): (r: Option<(int, int)>)
    requires p <= |t|
    ensures r.Some? ==> p <= r.value.0 < r.value.1 < |t|
    decreases |t| - p
  {
    if p == |t| then None
    else
      var q := LineStop(t, p + 1, ']');
      if t[p] == '[' && q != -1 && t[q] == ']' then Some((p, q)) else LazyFrom(t, p + 1)
  }

  /** Where `\{(.*)\}` matches, trying start positions from `p` on: the first `{` that a
      `}` follows on its line, and the last `}` on that line. */
  function GreedyFrom(t: string, p: nat): (r: Option<(int, int)>)
    requires p <= |t|
    ensures r.Some? ==> p <= r.value.0 < r.value.1 < |t|
    decreases |t| - p
  {
    if p == |t| then None
    else
      var q := LastIn(t, p + 1, LineEnd(t, p + 1), '}');
      if t[p] == '{' && q != -1 then Some((p, q)) else GreedyFrom(t, p + 1)
  }

  /** Group 1 of `\[(.*?)\]`, when the pattern matches. */
  function LazyBracket(t: string): Option<string> {
    match LazyFrom(t, 0)
    case None => None
    case Some((p, q)) => Some(t[p + 1..q])
  }

  /** Group 1 of `\{(.*)\}`, when the pattern matches. */
  function GreedyBrace(t: string): Option<string> {
    match GreedyFrom(t, 0)
    case None => None
    case Some((p, q)) => Some(t[p + 1..q])
  }

  /** The only bracket pair that `\[(.*?)\]` can match from start `p`: the first `]` after
      it, when no line break comes first. */
  lemma LazyAt(t: string, p: nat)
    requires p < |t|
    ensures var q := LineStop(t, p + 1, ']');
      (t[p] == '[' && q != -1 && t[q] == ']') <==> exists q' :: Viable(t, '[', ']', p, q')
    ensures var q := LineStop(t, p + 1, ']');
      t[p] == '[' && q != -1 && t[q] == ']' ==> Viable(t, '[', ']', p, q) && forall j :: p < j < q ==> t[j] != ']'
  {
    var q := LineStop(t, p + 1, ']');
    LineStopMeaning(t, p + 1, ']');
    if t[p] == '[' && q != -1 && t[q] == ']' {
      assert Viable(t, '[', ']', p, q);
    }
    if exists q' :: Viable(t, '[', ']', p, q') {
      var q' :| Viable(t, '[', ']', p, q');
      if q == -1 || t[q] != ']' {
        assert false;
      }
    }
  }

  /** `\[(.*?)\]` finds the leftmost `[` that a `]` follows on its line, and stops at the
      first `]` after it; it fails only when no `[` has a `]` after it on its line. */
  lemma {:induction false} LazyFromMeaning(t: string, k: nat)
    requires k <= |t|
    ensures LazyFrom(t, k).Some? ==> var (p, q) := LazyFrom(t, k).value;
      Viable(t, '[', ']', p, q) && (forall j :: p < j < q ==> t[j] != ']')
      && forall p', q' :: k <= p' < p ==> !Viable(t, '[', ']', p', q')
    ensures LazyFrom(t, k).None? ==> forall p', q' :: k <= p' ==> !Viable(t, '[', ']', p', q')
    decreases |t| - k
  {
    if k < |t| {
      LazyAt(t, k);
      var q := LineStop(t, k + 1, ']');
      if !(t[k] == '[' && q != -1 && t[q] == ']') {
        LazyFromMeaning(t, k + 1);
      }
    }
  }

  /** The pairs that `\{(.*)\}` can match from start `p`: a `}` later on the same line;
      the last of them is the match. */
  lemma GreedyAt(t: string, p: nat)
    requires p < |t|
    ensures var q := LastIn(t, p + 1, LineEnd(t, p + 1), '}');
      (t[p] == '{' && q != -1) <==> exists q' :: Viable(t, '{', '}', p, q')
    ensures var q := LastIn(t, p + 1, LineEnd(t, p + 1), '}');
      t[p] == '{' && q != -1 ==> Viable(t, '{', '}', p, q) && forall q' :: q < q' ==> !Viable(t, '{', '}', p, q')
  {
    var e := LineEnd(t, p + 1);
    var q := LastIn(t, p + 1, e, '}');
    LineEndMeaning(t, p + 1);
    LastInMeaning(t, p + 1, e, '}');
    if t[p] == '{' && q != -1 {
      assert Viable(t, '{', '}', p, q);
    }
    forall q' | Viable(t, '{', '}', p, q')
      ensures t[p] == '{' && q != -1 && q' <= q
    {
      if q' >= e {
        assert false;
      }
    }
  }

  /** `\{(.*)\}` finds the leftmost `{` that a `}` follows on its line, and runs to the last
      `}` on that line; it fails only when no `{` has a `}` after it on its line. */
  lemma {:induction false} GreedyFromMeaning(t: string, k: nat)
    requires k <= |t|
    ensures GreedyFrom(t, k).Some? ==> var (p, q) := GreedyFrom(t, k).value;
      Viable(t, '{', '}', p, q)
      && (forall q' :: q < q' ==> !Viable(t, '{', '}', p, q'))
      && forall p', q' :: k <= p' < p ==> !Viable(t, '{', '}', p', q')
    ensures GreedyFrom(t, k).None? ==> forall p', q' :: k <= p' ==> !Viable(t, '{', '}', p', q')
    decreases |t| - k
  {
    if k < |t| {
      GreedyAt(t, k);
      var q := LastIn(t, k + 1, LineEnd(t, k + 1), '}');
      if !(t[k] == '{' && q != -1) {
        GreedyFromMeaning(t, k + 1);
      }
    }
  }

  // ---------------------------------------------------------------- positional arguments

  /** The argument scanner's state: the pieces cut so far (not yet trimmed), the piece
      being built, and whether inside double quotes. */
  datatype Csv = Csv(pieces: seq<string>, current: string, inQuotes: bool)

  /** One character of `ParsePositionalArguments`: a double quote flips the quotation and
      is dropped, a comma outside quotes ends the piece, anything else extends it. */
  function CsvStep(st: Csv, c: char): Csv {
    if c == '"' then st.(inQuotes := !st.inQuotes)
    else if c == ',' && !st.inQuotes then Csv(st.pieces + [st.current], "", st.inQuotes)
    else st.(current := st.current + [c])
  }

  lemma CsvStepCases(st: Csv, c: char)
    ensures c == '"' ==> CsvStep(st, c) == Csv(st.pieces, st.current, !st.inQuotes)
    ensures c == ',' && !st.inQuotes ==> CsvStep(st, c) == Csv(st.pieces + [st.current], "", st.inQuotes)
    ensures c != '"' && !(c == ',' && !st.inQuotes) ==> CsvStep(st, c) == Csv(st.pieces, st.current + [c], st.inQuotes)
  {
  }

  lemma CsvAdvance(s: string, i: int, st: Csv)
    requires 0 <= i < |s| && CsvOf(s[..i]) == st
    ensures s[i] == '"' ==> CsvOf(s[..i + 1]) == Csv(st.pieces, st.current, !st.inQuotes)
    ensures s[i] == ',' && !st.inQuotes ==> CsvOf(s[..i + 1]) == Csv(st.pieces + [st.current], "", st.inQuotes)
    ensures s[i] != '"' && !(s[i] == ',' && !st.inQuotes) ==> CsvOf(s[..i + 1]) == Csv(st.pieces, st.current + [s[i]], st.inQuotes)
  {
    PrefixOfPrefix(s, i);
  }

  /** The scanner's state after the whole text. */
  function CsvOf(s: string): Csv {
    if s == [] then Csv([], "", false) else CsvStep(CsvOf(s[..|s| - 1]), s[|s| - 1])
  }

  /** Each piece trimmed. */
  function Trims(ps: seq<string>): (r: seq<string>)
    ensures |r| == |ps|
  {
    if ps == [] then [] else Trims(ps[..|ps| - 1]) + [Trim(ps[|ps| - 1])]
  }

  lemma TrimsSnoc(ps: seq<string>, p: string)
    ensures Trims(ps + [p]) == Trims(ps) + [Trim(p)]
  {
    assert (ps + [p])[..|ps|] == ps;
  }

  lemma {:induction false} TrimsAt(ps: seq<string>, i: int)
    requires 0 <= i < |ps|
    ensures Trims(ps)[i] == Trim(ps[i])
    decreases |ps|
  {
    if i < |ps| - 1 {
      TrimsAt(ps[..|ps| - 1], i);
    }
  }

  /** The parts the scan leaves: the cut pieces trimmed, then the last piece trimmed
      unless it is empty. */
  function CsvParts(s: string): seq<string> {
    var st := CsvOf(s);
    Trims(st.pieces) + (if st.current != "" then [Trim(st.current)] else [])
  }

  /** `StartsWith("\"") && EndsWith("\"") && Length > 1`. */
  predicate DoubleQuoted(v: string) {
    |v| > 1 && v[0] == '"' && v[|v| - 1] == '"'
  }

  /** `part.Trim()`, then one pair of outer double quotes removed. */
  function CleanPart(part: string): string {
    var c := Trim(part);
    if DoubleQuoted(c) then c[1..|c| - 1] else c
  }

  function CleanParts(ps: seq<string>): (r: seq<string>)
    ensures |r| == |ps|
  {
    if ps == [] then [] else CleanParts(ps[..|ps| - 1]) + [CleanPart(ps[|ps| - 1])]
  }

  lemma CleanPartsStep(ps: seq<string>, j: int)
    requires 0 <= j < |ps|
    ensures CleanParts(ps[..j + 1]) == CleanParts(ps[..j]) + [CleanPart(ps[j])]
  {
    PrefixOfPrefix(ps, j);
  }

  /** `ParsePositionalArguments`'s answer. */
  function ArgsOf(s: string): seq<string> {
    if IsBlank(s) then [] else CleanParts(CsvParts(s))
  }

  /** The text with its double quotes removed. */
  function Dequoted(s: string): (r: string)
    ensures '"' !in r
  {
    if s == [] then [] else Dequoted(s[..|s| - 1]) + (if s[|s| - 1] == '"' then [] else [s[|s| - 1]])
  }

  /** How many times `c` occurs. */
  function Count(s: string, c: char): nat {
    if s == [] then 0 else Count(s[..|s| - 1], c) + (if s[|s| - 1] == c then 1 else 0)
  }

  /** Joining the pieces and the last piece with commas gives back the text less its
      double quotes: the scanner loses nothing else, and cuts only at commas. */
  lemma {:induction false} CsvRoundTrip(s: string)
    ensures Join(CsvOf(s).pieces + [CsvOf(s).current], ',') == Dequoted(s)
  {
    if s != [] {
      var init := s[..|s| - 1];
      var c := s[|s| - 1];
      var st := CsvOf(init);
      CsvRoundTrip(init);
      if c == '"' {
      } else if c == ',' && !st.inQuotes {
        JoinNewPiece(st.pieces, st.current, ',');
      } else {
        JoinGrowLast(st.pieces, st.current, c, ',');
      }
    }
  }

  /** The scanner is inside quotes exactly after an odd number of double quotes. */
  lemma {:induction false} CsvQuoteParity(s: string)
    ensures CsvOf(s).inQuotes <==> Count(s, '"') % 2 == 1
  {
    if s != [] {
      CsvQuoteParity(s[..|s| - 1]);
    }
  }

  /** A comma after an odd number of double quotes does not cut: it joins the piece. */
  lemma CommaInQuotesKept(s: string, i: int)
    requires 0 <= i < |s| && s[i] == ',' && Count(s[..i], '"') % 2 == 1
    ensures CsvOf(s[..i + 1]).pieces == CsvOf(s[..i]).pieces
    ensures CsvOf(s[..i + 1]).current == CsvOf(s[..i]).current + [',']
  {
    PrefixOfPrefix(s, i);
    CsvQuoteParity(s[..i]);
  }

  /** No piece holds a double quote. */
  lemma {:induction false} CsvDropsQuotes(s: string)
    ensures '"' !in CsvOf(s).current
    ensures forall k :: 0 <= k < |CsvOf(s).pieces| ==> '"' !in CsvOf(s).pieces[k]
  {
    if s != [] {
      CsvDropsQuotes(s[..|s| - 1]);
    }
  }

  lemma TrimKeepsOut(s: string, c: char)
    requires c !in s
    ensures c !in Trim(s)
  {
    TrimWithin(s);
  }

  /** No argument holds a double quote, so the removal of outer quotes never applies:
      the arguments are the trimmed parts. */
  lemma ArgsCarryNoQuotes(s: string)
    ensures !IsBlank(s) ==> ArgsOf(s) == CsvParts(s)
    ensures forall k :: 0 <= k < |ArgsOf(s)| ==> '"' !in ArgsOf(s)[k]
  {
    if !IsBlank(s) {
      var st := CsvOf(s);
      var ps := CsvParts(s);
      CsvDropsQuotes(s);
      forall k | 0 <= k < |ps|
        ensures '"' !in ps[k] && CleanPart(ps[k]) == ps[k]
      {
        if k < |st.pieces| {
          TrimsAt(st.pieces, k);
          TrimKeepsOut(st.pieces[k], '"');
          TrimIdempotent(st.pieces[k]);
        } else {
          TrimKeepsOut(st.current, '"');
          TrimIdempotent(st.current);
        }
      }
      CleanPartsFixed(ps);
    }
  }

  lemma {:induction false} CleanPartsFixed(ps: seq<string>)
    requires forall k :: 0 <= k < |ps| ==> CleanPart(ps[k]) == ps[k]
    ensures CleanParts(ps) == ps
  {
    if ps != [] {
      var init := ps[..|ps| - 1];
      assert forall k :: 0 <= k < |init| ==> init[k] == ps[k];
      CleanPartsFixed(init);
      Snoc(ps);
    }
  }

  method ParsePositionalArguments(argsContent: string) returns (args: seq<string>)
    ensures args == ArgsOf(argsContent)
  {
    args := [];
    if AllWhitespace(argsContent) {
      BlankIffAllWhitespace(argsContent);
      return;
    }
    var parts := SplitArguments(argsContent);
    args := CleanArguments(parts);
    BlankIffAllWhitespace(argsContent);
  }

  /** The first phase of `ParsePositionalArguments`: the scan that cuts the text at the
      commas outside quotes, dropping the quotes and trimming each piece. */
  method SplitArguments(argsContent: string) returns (parts: seq<string>)
    ensures parts == CsvParts(argsContent)
  {
    parts := [];
    var inQuotes := false;
    var current := "";
    ghost var pieces: seq<string> := [];
    var i := 0;
    while i < |argsContent|
      invariant 0 <= i <= |argsContent|
      invariant CsvOf(argsContent[..i]) == Csv(pieces, current, inQuotes)
      invariant parts == Trims(pieces)
    {
      var c := argsContent[i];
      CsvAdvance(argsContent, i, Csv(pieces, current, inQuotes));
      if c == '"' {
        inQuotes := !inQuotes;
      } else if c == ',' && !inQuotes {
        TrimsSnoc(pieces, current);
        parts := parts + [Trim(current)];
        pieces := pieces + [current];
        current := "";
      } else {
        current := current + [c];
      }
      i := i + 1;
    }
    Whole(argsContent);
    if current != "" {
      parts := parts + [Trim(current)];
    }
  }

  /** The second phase of `ParsePositionalArguments`: each part trimmed and stripped of
      one pair of outer double quotes. */
  method CleanArguments(parts: seq<string>) returns (args: seq<string>)
    ensures args == CleanParts(parts)
  {
    args := [];
    var j := 0;
    while j < |parts|
      invariant 0 <= j <= |parts|
      invariant args == CleanParts(parts[..j])
    {
      var cleaned := Trim(parts[j]);
      if |cleaned| > 1 && cleaned[0] == '"' && cleaned[|cleaned| - 1] == '"' {
        cleaned := cleaned[1..|cleaned| - 1];
      }
      assert cleaned == CleanPart(parts[j]);
      CleanPartsStep(parts, j);
      args := args + [cleaned];
      j := j + 1;
    }
    Whole(parts);
  }

  // ---------------------------------------------------------------- the data block

  /** The data-block splitter's state: the pieces cut so far (not yet trimmed), the
      piece being built, whether inside double quotes, whether inside a `[...]` list, and
      the list nesting depth. */
  datatype Splitter = Splitter(pieces: seq<string>, current: string, inQuotes: bool, inBrackets: bool, depth: int)

  /** One character of `SplitDataBlock`: a double quote outside a list flips the
      quotation, `[` outside quotes opens a list, `]` outside quotes closes one (never
      below depth 0), a comma outside both ends the piece; every other character, and
      every one of those but the cutting comma, is kept. */
  function SplitStep(st: Splitter, c: char): Splitter {
    var kept := st.current + [c];
    if c == '"' && !st.inBrackets then st.(inQuotes := !st.inQuotes, current := kept)
    else if c == '[' && !st.inQuotes then st.(inBrackets := true, depth := st.depth + 1, current := kept)
    else if c == ']' && !st.inQuotes then
      (if st.depth - 1 <= 0 then st.(inBrackets := false, depth := 0, current := kept)
       else st.(depth := st.depth - 1, current := kept))
    else if c == ',' && !st.inQuotes && !st.inBrackets then st.(pieces := st.pieces + [st.current], current := "")
    else st.(current := kept)
  }

  /** The splitter's state after the whole text. */
  function SplitOf(s: string): Splitter {
    if s == [] then Splitter([], "", false, false, 0) else SplitStep(SplitOf(s[..|s| - 1]), s[|s| - 1])
  }

  /** `SplitDataBlock`'s answer: the cut pieces trimmed, then the last piece trimmed
      unless it is empty. */
  function DataParts(s: string): seq<string> {
    var st := SplitOf(s);
    Trims(st.pieces) + (if st.current != "" then [Trim(st.current)] else [])
  }

  /** The splitter is never inside quotes and a list at once, and it is inside a list
      exactly when the depth is positive. */
  lemma {:induction false} SplitterSane(s: string)
    ensures SplitOf(s).depth >= 0
    ensures SplitOf(s).inBrackets <==> SplitOf(s).depth > 0
    ensures !(SplitOf(s).inQuotes && SplitOf(s).inBrackets)
  {
    if s != [] {
      SplitterSane(s[..|s| - 1]);
    }
  }

  /** Joining the pieces and the last piece with commas gives back the text: the
      splitter drops nothing but the commas it cuts at. */
  lemma {:induction false} DataSplitRoundTrip(s: string)
    ensures Join(SplitOf(s).pieces + [SplitOf(s).current], ',') == s
  {
    if s != [] {
      var init := s[..|s| - 1];
      var c := s[|s| - 1];
      assert s == init + [c];
      var st := SplitOf(init);
      assert SplitOf(s) == SplitStep(st, c);
      DataSplitRoundTrip(init);
      SplitStepShape(st, c);
      if c == ',' && !st.inQuotes && !st.inBrackets {
        JoinNewPiece(st.pieces, st.current, ',');
      } else {
        JoinGrowLast(st.pieces, st.current, c, ',');
      }
    }
  }

  /** A step either cuts at a comma or keeps the character in the piece being built. */
  lemma SplitStepShape(st: Splitter, c: char)
    ensures c == ',' && !st.inQuotes && !st.inBrackets ==>
      SplitStep(st, c).pieces == st.pieces + [st.current] && SplitStep(st, c).current == ""
    ensures !(c == ',' && !st.inQuotes && !st.inBrackets) ==>
      SplitStep(st, c).pieces == st.pieces && SplitStep(st, c).current == st.current + [c]
  {
  }

  /** Text the current state treats as plain is kept whole: inside quotes, text with no
      double quote; inside a list, text with no bracket. */
  lemma {:induction false} SplitKeeps(pre: string, body: string)
    requires (SplitOf(pre).inQuotes && '"' !in body) || (SplitOf(pre).inBrackets && '[' !in body && ']' !in body)
    ensures SplitOf(pre + body) == SplitOf(pre).(current := SplitOf(pre).current + body)
    decreases |body|
  {
    if body != [] {
      var init := body[..|body| - 1];
      var c := body[|body| - 1];
      assert (pre + body)[..|pre + body| - 1] == pre + init;
      assert SplitOf(pre + body) == SplitStep(SplitOf(pre + init), c);
      assert c in body && forall x :: x in init ==> x in body;
      SplitKeeps(pre, init);
      SplitterSane(pre);
      assert SplitOf(pre).current + init + [c] == SplitOf(pre).current + body;
    } else {
      assert pre + body == pre && SplitOf(pre).current + body == SplitOf(pre).current;
    }
  }

  /** A list with no nested brackets, or a quoted string with no inner quote, written
      where the splitter is outside both, stays in the piece being built: its commas do
      not cut, and the splitter is outside both again after it. */
  lemma WholeValues(pre: string, body: string)
    requires !SplitOf(pre).inQuotes && !SplitOf(pre).inBrackets
    ensures '[' !in body && ']' !in body ==>
      SplitOf(pre + "[" + body + "]") == SplitOf(pre).(current := SplitOf(pre).current + "[" + body + "]")
    ensures '"' !in body ==>
      SplitOf(pre + "\"" + body + "\"") == SplitOf(pre).(current := SplitOf(pre).current + "\"" + body + "\"")
  {
    var st := SplitOf(pre);
    SplitterSane(pre);
    if '[' !in body && ']' !in body {
      var a := pre + "[";
      assert a[..|a| - 1] == pre;
      SplitKeeps(a, body);
      var b := a + body + "]";
      assert b[..|b| - 1] == a + body;
      assert b == pre + "[" + body + "]";
      assert st.current + "[" + body + "]" == SplitOf(a).current + body + "]";
    }
    if '"' !in body {
      var a := pre + "\"";
      assert a[..|a| - 1] == pre;
      SplitKeeps(a, body);
      var b := a + body + "\"";
      assert b[..|b| - 1] == a + body;
      assert b == pre + "\"" + body + "\"";
      assert st.current + "\"" + body + "\"" == SplitOf(a).current + body + "\"";
    }
  }

  method SplitDataBlock(content: string) returns (parts: seq<string>)
    ensures parts == DataParts(content)
  {
    parts := [];
    var inQuotes := false;
    var inBrackets := false;
    var bracketDepth := 0;
    var current := "";
    ghost var pieces: seq<string> := [];
    var i := 0;
    while i < |content|
      invariant 0 <= i <= |content|
      invariant SplitOf(content[..i]) == Splitter(pieces, current, inQuotes, inBrackets, bracketDepth)
      invariant parts == Trims(pieces)
    {
      var c := content[i];
      assert SplitOf(content[..i + 1]) == SplitStep(Splitter(pieces, current, inQuotes, inBrackets, bracketDepth), c) by {
        PrefixOfPrefix(content, i);
      }
      if c == '"' && !inBrackets {
        inQuotes := !inQuotes;
        current := current + [c];
      } else if c == '[' && !inQuotes {
        inBrackets := true;
        bracketDepth := bracketDepth + 1;
        current := current + [c];
      } else if c == ']' && !inQuotes {
        bracketDepth := bracketDepth - 1;
        if bracketDepth <= 0 {
          inBrackets := false;
          bracketDepth := 0;
        }
        current := current + [c];
      } else if c == ',' && !inQuotes && !inBrackets {
        TrimsSnoc(pieces, current);
        parts := parts + [Trim(current)];
        pieces := pieces + [current];
        current := "";
      } else {
        current := current + [c];
      }
      i := i + 1;
    }
    Whole(content);
    if current != "" {
      parts := parts + [Trim(current)];
    }
  }

  /** `ParseDataValue`: the trimmed text read, in this order, as a list of arguments, a
      double-quoted string, a bool in any case, a 32-bit int, a float (`parseFloat`
      standing for `float.TryParse`), and otherwise as the text itself. */
  function DataValue(valueStr: string, parseFloat: string -> Option<real>): Value {
    ValueOf(Trim(valueStr), parseFloat)
  }

  /** The reading of already trimmed text. */
  function ValueOf(v: string, parseFloat: string -> Option<real>): (r: Value)
    ensures r.ListValue? <==> Bracketed(v)
    ensures r.BoolValue? ==> ParseBool(v) == Some(r.b) && ParseInt32(v).None?
    ensures r.IntValue? ==> ParseInt32(v) == Some(r.n) && ParseBool(v).None?
    ensures r.FloatValue? ==> ParseInt32(v).None? && ParseBool(v).None?
  {
    if Bracketed(v) then ListValue(ArgsOf(v[1..|v| - 1]))
    else if DoubleQuoted(v) then StringValue(v[1..|v| - 1])
    else if ParseBool(v).Some? then BoolWordNoInt(v); BoolValue(ParseBool(v).value)
    else if ParseInt32(v).Some? then IntValue(ParseInt32(v).value)
    else if parseFloat(v).Some? then FloatValue(parseFloat(v).value)
    else StringValue(v)
  }

  /** Each reading is taken only when every earlier one fails: a list exactly for
      bracketed text, a bool only for "true"/"false" in some case (which is no int
      text, so reading bools first takes nothing from ints), an int only for 32-bit
      integer text, a float only for text that is no int, and the text itself when
      nothing else reads it. */
  lemma DataValueReadings(valueStr: string, parseFloat: string -> Option<real>)
    ensures var v := Trim(valueStr); var r := DataValue(valueStr, parseFloat);
      (r.ListValue? <==> Bracketed(v))
      && (!Bracketed(v) && DoubleQuoted(v) ==> r == StringValue(v[1..|v| - 1]))
      && (r.BoolValue? <==> !Bracketed(v) && !DoubleQuoted(v) && ParseBool(v).Some?)
      && (r.BoolValue? ==> ParseBool(v) == Some(r.b) && ParseInt32(v).None?)
      && (r.IntValue? <==> !Bracketed(v) && !DoubleQuoted(v) && ParseInt32(v).Some?)
      && (r.IntValue? ==> ParseInt32(v) == Some(r.n))
      && (r.FloatValue? ==> !Bracketed(v) && ParseInt32(v).None? && parseFloat(v) == Some(r.x))
      && ((!Bracketed(v) && !DoubleQuoted(v) && ParseBool(v).None? && ParseInt32(v).None? && parseFloat(v).None?)
          ==> r == StringValue(v))
  {
    var v := Trim(valueStr);
    if ParseBool(v).Some? {
      BoolWordNoInt(v);
    }
  }

  /** "true" and "false", in any case, are no int text. */
  lemma BoolWordNoInt(v: string)
    requires ParseBool(v).Some?
    ensures ParseInt32(v).None?
  {
    assert ToLower("true") == "true" && ToLower("false") == "false";
    assert ToLower(v)[0] == LowerChar(v[0]);
  }

  /** Text in double quotes reads back as the string between them, whatever it holds. */
  lemma QuotedTextRoundTrip(s: string, parseFloat: string -> Option<real>)
    ensures DataValue("\"" + s + "\"", parseFloat) == StringValue(s)
  {
    var v := "\"" + s + "\"";
    TrimOfClean(v);
    assert v[1..|v| - 1] == s;
  }

  /** The decimal text of a 32-bit integer reads back as that int. */
  lemma IntTextReads(n: int, parseFloat: string -> Option<real>)
    requires MinInt32 <= n <= MaxInt32
    ensures DataValue(IntToString(n), parseFloat) == IntValue(n)
  {
    IntTextRoundTrip(n);
    IntTextEdges(n);
    CleanNumberReads(IntToString(n), n, parseFloat);
  }

  /** Number text with no space at either end is read as its int. */
  lemma CleanNumberReads(v: string, n: int, parseFloat: string -> Option<real>)
    requires v != [] && (IsDigit(v[0]) || v[0] == '-') && IsDigit(v[|v| - 1]) && ParseInt32(v) == Some(n)
    ensures DataValue(v, parseFloat) == IntValue(n)
  {
    TrimOfClean(v);
    NumberTextReads(v, n, parseFloat);
  }

  lemma NumberTextReads(v: string, n: int, parseFloat: string -> Option<real>)
    requires Trim(v) == v && v != [] && (IsDigit(v[0]) || v[0] == '-') && ParseInt32(v) == Some(n)
    ensures DataValue(v, parseFloat) == IntValue(n)
  {
    if ParseBool(v).Some? {
      BoolWordNoInt(v);
    }
  }

  method ParseDataValue(valueStr: string, parseFloat: string -> Option<real>) returns (value: Value)
    ensures value == DataValue(valueStr, parseFloat)
  {
    var v := Trim(valueStr);
    value := ReadValue(v, parseFloat);
  }

  /** The body of `ParseDataValue` after the trim: each reading tried in turn. */
  method ReadValue(v: string, parseFloat: string -> Option<real>) returns (value: Value)
    ensures value == ValueOf(v, parseFloat)
  {
    if Bracketed(v) {
      var arrayItems := ParsePositionalArguments(v[1..|v| - 1]);
      return ListValue(arrayItems);
    }
    if DoubleQuoted(v) {
      return StringValue(v[1..|v| - 1]);
    }
    var b := ParseBool(v);
    if b.Some? {
      return BoolValue(b.value);
    }
    var n := ParseInt32(v);
    if n.Some? {
      return IntValue(n.value);
    }
    var x := parseFloat(v);
    if x.Some? {
      return FloatValue(x.value);
    }
    return StringValue(v);
  }

  /** A pair's entry: none unless a ':' comes after the first character; otherwise the
      trimmed key before the first ':' and the value of the trimmed text after it. */
  function DataEntry(pair: string, parseFloat: string -> Option<real>): (e: Option<(string, Value)>)
    ensures e.Some? <==> IndexOf(pair, ':') > 0
    ensures e.Some? ==> e.value.0 == Trim(pair[..IndexOf(pair, ':')])
  {
    var colon := IndexOf(pair, ':');
    if colon > 0 then Some((Trim(pair[..colon]), DataValue(Trim(pair[colon + 1..]), parseFloat))) else None
  }

  function DataEntries(parseFloat: string -> Option<real>): string -> Option<(string, Value)> {
    pair => DataEntry(pair, parseFloat)
  }

  /** `ParseDataBlock`'s answer. */
  function DataBlock(dataContent: string, parseFloat: string -> Option<real>): (r: map<string, Value>)
    ensures IsBlank(dataContent) ==> r == map[]
    ensures |r.Keys| <= |DataParts(dataContent)|
  {
    if IsBlank(dataContent) then map[] else FoldPairs(DataParts(dataContent), DataEntries(parseFloat))
  }

  /** The keys of a data block are those of its top-level pairs with a ':' after their
      first character; blank text has none. */
  lemma DataBlockKeys(dataContent: string, parseFloat: string -> Option<real>, k: string)
    ensures k in DataBlock(dataContent, parseFloat) <==> (!IsBlank(dataContent) &&
      exists i :: 0 <= i < |DataParts(dataContent)| && DataEntry(DataParts(dataContent)[i], parseFloat).Some?
        && DataEntry(DataParts(dataContent)[i], parseFloat).value.0 == k)
  {
    if !IsBlank(dataContent) {
      var ps := DataParts(dataContent);
      assert forall j :: 0 <= j < |ps| ==> DataEntries(parseFloat)(ps[j]) == DataEntry(ps[j], parseFloat);
      FoldKeys(ps, DataEntries(parseFloat), k);
    }
  }

  /** A pair whose key no later pair repeats gives the key its value: later duplicates
      overwrite earlier ones. */
  lemma DataBlockLastWins(dataContent: string, parseFloat: string -> Option<real>, i: int)
    requires !IsBlank(dataContent) && 0 <= i < |DataParts(dataContent)| && IndexOf(DataParts(dataContent)[i], ':') > 0
    requires forall j :: i < j < |DataParts(dataContent)| && IndexOf(DataParts(dataContent)[j], ':') > 0 ==>
      DataEntry(DataParts(dataContent)[j], parseFloat).value.0 != DataEntry(DataParts(dataContent)[i], parseFloat).value.0
    ensures DataEntry(DataParts(dataContent)[i], parseFloat).value.0 in DataBlock(dataContent, parseFloat)
    ensures DataBlock(dataContent, parseFloat)[DataEntry(DataParts(dataContent)[i], parseFloat).value.0] ==
      DataEntry(DataParts(dataContent)[i], parseFloat).value.1
  {
    var ps := DataParts(dataContent);
    assert forall j :: 0 <= j < |ps| ==> DataEntries(parseFloat)(ps[j]) == DataEntry(ps[j], parseFloat);
    FoldLastWins(ps, DataEntries(parseFloat), i);
  }

  /** Every part the splitter yields is trimmed. */
  lemma DataPartTrimmed(s: string, i: int)
    requires 0 <= i < |DataParts(s)|
    ensures Trim(DataParts(s)[i]) == DataParts(s)[i]
  {
    var st := SplitOf(s);
    if i < |st.pieces| {
      TrimsAt(st.pieces, i);
      TrimIdempotent(st.pieces[i]);
    } else {
      TrimIdempotent(st.current);
    }
  }

  /** The key of a trimmed pair is non-empty, trimmed and free of ':'. */
  lemma KeyOfTrimmed(pair: string, parseFloat: string -> Option<real>)
    requires Trim(pair) == pair && DataEntry(pair, parseFloat).Some?
    ensures var k := DataEntry(pair, parseFloat).value.0; k != [] && Trim(k) == k && ':' !in k
  {
    var colon := IndexOf(pair, ':');
    var before := pair[..colon];
    TrimEdges(pair);
    assert before[0] == pair[0];
    BlankIffAllWhitespace(before);
    TrimIdempotent(before);
    TrimKeepsOut(before, ':');
  }

  /** Every key of a data block is non-empty, trimmed and free of ':'. */
  lemma DataKeysClean(dataContent: string, parseFloat: string -> Option<real>, k: string)
    requires k in DataBlock(dataContent, parseFloat)
    ensures k != [] && Trim(k) == k && ':' !in k
  {
    DataBlockKeys(dataContent, parseFloat, k);
    var ps := DataParts(dataContent);
    var i :| 0 <= i < |ps| && DataEntry(ps[i], parseFloat).Some? && DataEntry(ps[i], parseFloat).value.0 == k;
    DataPartTrimmed(dataContent, i);
    KeyOfTrimmed(ps[i], parseFloat);
  }

  method ParseDataBlock(dataContent: string, parseFloat: string -> Option<real>) returns (data: map<string, Value>)
    ensures data == DataBlock(dataContent, parseFloat)
  {
    data := map[];
    if IsBlank(dataContent) {
      return;
    }
    var pairs := SplitDataBlock(dataContent);
    var i := 0;
    while i < |pairs|
      invariant 0 <= i <= |pairs|
      invariant data == FoldPairs(pairs[..i], DataEntries(parseFloat))
    {
      var pair := pairs[i];
      FoldStep(pairs, i, DataEntries(parseFloat));
      assert DataEntries(parseFloat)(pair) == DataEntry(pair, parseFloat);
      var colonIndex := IndexOf(pair, ':');
      if colonIndex > 0 {
        var key := Trim(pair[..colonIndex]);
        var valueStr := Trim(pair[colonIndex + 1..]);
        var value := ParseDataValue(valueStr, parseFloat);
        data := data[key := value];
      }
      i := i + 1;
    }
    Whole(pairs);
  }

  // ---------------------------------------------------------------- the command line

  /** The earlier of two `IndexOf` results, -1 standing for "not found". */
  function Earlier(a: int, b: int): (r: int)
    requires a >= -1 && b >= -1
    ensures r == -1 <==> a == -1 && b == -1
    ensures r != -1 ==> (r == a || r == b) && (a != -1 ==> r <= a) && (b != -1 ==> r <= b)
  {
    if a == -1 then b else if b == -1 then a else if a <= b then a else b
  }

  /** Where the command name ends: the first space, `[` or `{`, or -1 when there is none
      (the source's `int.MaxValue`). */
  function FirstSeparator(t: string): (r: int)
    ensures -1 <= r < |t|
  {
    Earlier(Earlier(IndexOf(t, ' '), IndexOf(t, '[')), IndexOf(t, '{'))
  }

  /** The separator is the first character that is a space, `[` or `{`. */
  lemma FirstSeparatorIsFirst(t: string)
    ensures FirstSeparator(t) == IndexOfAny(t, {' ', '[', '{'})
  {
  }

  /** The command name: the trimmed line up to the separator, trimmed and lower-cased. */
  function CommandName(line: string): string {
    var t := Trim(line);
    var sep := FirstSeparator(t);
    if sep == -1 then ToLower(t) else ToLower(Trim(t[..sep]))
  }

  /** The trimmed text from the separator on, when there is a separator. */
  function ArgumentsPart(line: string): Option<string> {
    var t := Trim(line);
    var sep := FirstSeparator(t);
    if sep == -1 then None else Some(Trim(t[sep..]))
  }

  /** The positional arguments found in `text`: those of the first lazy `[...]` match. */
  function PositionalIn(text: string): seq<string> {
    match LazyBracket(text)
    case None => []
    case Some(argsContent) => ArgsOf(argsContent)
  }

  /** The data block found in `text`: that of the greedy `{...}` match. */
  function DataIn(text: string, parseFloat: string -> Option<real>): map<string, Value> {
    match GreedyBrace(text)
    case None => map[]
    case Some(dataContent) => DataBlock(dataContent, parseFloat)
  }

  /** The arguments before the data block: the text up to its first `{`. */
  function BeforeData(rest: string): (r: string)
    ensures '{' !in r && IsPrefix(r, rest)
    ensures '{' !in rest ==> r == rest
  {
    var b := IndexOf(rest, '{');
    if b == -1 then rest else rest[..b]
  }

  /** `ParseCommandLine` as written: both patterns are searched in the whole arguments
      part, so with no `[...]` before the data block a list value inside it is taken
      for the positional arguments. */
  function ParsedAsWritten(line: string, parseFloat: string -> Option<real>): (r: ParsedCommand)
    ensures r.commandName == CommandName(line)
    ensures ArgumentsPart(line).None? ==> r.positionalArgs == [] && r.dataBlock == map[]
  {
    match ArgumentsPart(line)
    case None => ParsedCommand(CommandName(line), [], map[])
    case Some(rest) => ParsedCommand(CommandName(line), PositionalIn(rest), DataIn(rest, parseFloat))
  }

  /** `ParseCommandLine` with the positional list looked for before the data block only;
      the name and the data block are those of the code as written. */
  function Parsed(line: string, parseFloat: string -> Option<real>): (r: ParsedCommand)
    ensures r.commandName == ParsedAsWritten(line, parseFloat).commandName
    ensures r.dataBlock == ParsedAsWritten(line, parseFloat).dataBlock
  {
    match ArgumentsPart(line)
    case None => ParsedCommand(CommandName(line), [], map[])
    case Some(rest) => ParsedCommand(CommandName(line), PositionalIn(BeforeData(rest)), DataIn(rest, parseFloat))
  }

  /** Wherever the arguments part has no data block, the correction changes nothing. */
  lemma CorrectionAgrees(line: string, parseFloat: string -> Option<real>)
    requires ArgumentsPart(line).None? || '{' !in ArgumentsPart(line).value
    ensures Parsed(line, parseFloat) == ParsedAsWritten(line, parseFloat)
  {
  }

  /** `\[(.*?)\]` cannot start a match in a run without `[`. */
  lemma {:induction false} LazySkipsRun(t: string, k: nat, m: nat)
    requires k <= m <= |t|
    requires forall j :: k <= j < m ==> t[j] != '['
    ensures LazyFrom(t, k) == LazyFrom(t, m)
    decreases m - k
  {
    if k < m {
      LazySkipsRun(t, k + 1, m);
    }
  }

  /** The scan for `stop` reaches the first one when no line break comes before it. */
  lemma {:induction false} LineStopReaches(t: string, k: nat, m: nat, stop: char)
    requires k <= m < |t| && t[m] == stop
    requires forall j :: k <= j < m ==> t[j] != stop && t[j] != '\n'
    ensures LineStop(t, k, stop) == m
    decreases m - k
  {
    if k < m {
      LineStopReaches(t, k + 1, m, stop);
    }
  }

  /** Text without double quotes or commas is scanned into one growing piece. */
  lemma {:induction false} CsvPlain(v: string)
    requires '"' !in v && ',' !in v
    ensures CsvOf(v) == Csv([], v, false)
    decreases |v|
  {
    if v != [] {
      var init := v[..|v| - 1];
      assert forall j :: 0 <= j < |init| ==> init[j] == v[j];
      CsvPlain(init);
      assert init + [v[|v| - 1]] == v;
    }
  }

  /** A non-blank argument text without double quotes or commas is one argument. */
  lemma ArgsOfPlain(v: string)
    requires '"' !in v && ',' !in v && !IsBlank(v)
    ensures ArgsOf(v) == [Trim(v)]
  {
    CsvPlain(v);
    TrimKeepsOut(v, '"');
    TrimIdempotent(v);
    assert CsvParts(v) == [Trim(v)];
  }

  /** After a name without a space, `[` or `{`, a space ends the name. */
  lemma SpaceEndsName(name: string, tail: string)
    requires ' ' !in name && '[' !in name && '{' !in name
    requires tail != [] && tail[0] == ' '
    ensures FirstSeparator(name + tail) == |name|
  {
    var line := name + tail;
    var n := |name|;
    assert forall i :: 0 <= i < n ==> line[i] == name[i];
    assert line[..n] == name && line[n] == ' ';
    assert IndexOf(line, ' ') == n;
  }

  /** A line made of a clean command name, one space and a block from `{` to `}` has
      that block as its arguments part. */
  lemma NameThenBlock(name: string, rest: string)
    requires name != [] && !IsWhitespace(name[0]) && ' ' !in name && '[' !in name && '{' !in name
    requires |rest| >= 2 && rest[0] == '{' && rest[|rest| - 1] == '}'
    ensures ArgumentsPart(name + " " + rest) == Some(rest)
  {
    var line := name + " " + rest;
    var n := |name|;
    assert line[0] == name[0] && line[|line| - 1] == '}';
    TrimOfClean(line);
    var t := Trim(line);
    assert t == name + (" " + rest);
    SpaceEndsName(name, " " + rest);
    assert t[n..] == " " + rest;
    SpaceThenBlock(rest);
    assert Trim(t[FirstSeparator(t)..]) == rest;
  }

  /** One leading space is trimmed off a block from `{` to `}`. */
  lemma SpaceThenBlock(rest: string)
    requires |rest| >= 2 && rest[0] == '{' && rest[|rest| - 1] == '}'
    ensures Trim(" " + rest) == rest
  {
    TrimStartSkips(" ", rest);
    TrimEndOfClean(rest);
  }

  /** In `{key:[v]}`, with no `[` in the key and no `]` or line break in `v`, the lazy
      pattern matches the list value. */
  lemma ListInBlock(key: string, v: string)
    requires '[' !in key && ']' !in v && '\n' !in v
    ensures LazyBracket("{" + key + ":[" + v + "]}") == Some(v)
  {
    var rest := "{" + key + ":[" + v + "]}";
    var p := |key| + 2;
    assert forall j :: 1 <= j < p - 1 ==> rest[j] == key[j - 1];
    assert rest[0] == '{' && rest[p - 1] == ':' && rest[p] == '[';
    LazySkipsRun(rest, 0, p);
    var q := p + 1 + |v|;
    assert forall j :: p + 1 <= j < q ==> rest[j] == v[j - p - 1];
    assert rest[q] == ']';
    LineStopReaches(rest, p + 1, q, ']');
    assert rest[p + 1..q] == v;
  }

  /** A list value inside the data block is taken for the positional arguments when no
      `[...]` comes before the block: "give {items:[a]}" gets the argument "a", and so
      does every line of that shape. */
  lemma ListValueTakenForArguments(name: string, key: string, v: string, parseFloat: string -> Option<real>)
    requires name != [] && !IsWhitespace(name[0]) && ' ' !in name && '[' !in name && '{' !in name
    requires '[' !in key
    requires ']' !in v && '\n' !in v && '"' !in v && ',' !in v && !IsBlank(v)
    ensures var line := name + " {" + key + ":[" + v + "]}";
      ParsedAsWritten(line, parseFloat).positionalArgs == [Trim(v)]
      && Parsed(line, parseFloat).positionalArgs == []
  {
    var rest := "{" + key + ":[" + v + "]}";
    assert name + " {" + key + ":[" + v + "]}" == name + " " + rest;
    NameThenBlock(name, rest);
    ListInBlock(key, v);
    ArgsOfPlain(v);
    assert BeforeData(rest) == "";
  }

  /** With the correction, a data block written first leaves no positional arguments. */
  lemma NoArgumentsBeforeData(line: string, parseFloat: string -> Option<real>)
    requires ArgumentsPart(line).Some? && ArgumentsPart(line).value != [] && ArgumentsPart(line).value[0] == '{'
    ensures Parsed(line, parseFloat).positionalArgs == []
  {
    assert BeforeData(ArgumentsPart(line).value) == "";
  }

  lemma ToLowerKeepsOut(s: string, c: char)
    requires c !in s && !('A' <= c <= 'Z') && !('a' <= c <= 'z')
    ensures c !in ToLower(s)
  {
  }

  /** A command name holds no space, `[`, `{` or upper-case letter. */
  lemma CommandNameShape(line: string)
    ensures var name := CommandName(line); ' ' !in name && '[' !in name && '{' !in name && !HasUpper(name)
  {
    var t := Trim(line);
    var sep := FirstSeparator(t);
    FirstSeparatorIsFirst(t);
    var before := if sep == -1 then t else Trim(t[..sep]);
    if sep != -1 {
      var u := t[..sep];
      assert forall i :: 0 <= i < |u| ==> u[i] == t[i];
      TrimKeepsOut(u, ' ');
      TrimKeepsOut(u, '[');
      TrimKeepsOut(u, '{');
    }
    ToLowerKeepsOut(before, ' ');
    ToLowerKeepsOut(before, '[');
    ToLowerKeepsOut(before, '{');
    assert CommandName(line) == ToLower(before);
  }

  /** No positional argument holds a double quote, and every data-block key is
      non-empty, trimmed and free of ':'. */
  lemma ParsedClean(line: string, parseFloat: string -> Option<real>)
    ensures var r := Parsed(line, parseFloat);
      (forall i :: 0 <= i < |r.positionalArgs| ==> '"' !in r.positionalArgs[i])
      && forall k :: k in r.dataBlock ==> k != [] && Trim(k) == k && ':' !in k
  {
    var r := Parsed(line, parseFloat);
    if ArgumentsPart(line).Some? {
      var rest := ArgumentsPart(line).value;
      var m := LazyBracket(BeforeData(rest));
      if m.Some? {
        ArgsCarryNoQuotes(m.value);
      }
      var d := GreedyBrace(rest);
      forall k | k in r.dataBlock
        ensures k != [] && Trim(k) == k && ':' !in k
      {
        DataKeysClean(d.value, parseFloat, k);
      }
    }
  }

  method ParseCommandLine(line: string, parseFloat: string -> Option<real>) returns (result: ParsedCommand)
    ensures result == Parsed(line, parseFloat)
  {
    result := ParsedCommand("", [], map[]);
    var commandPart := Trim(line);
    var spaceIndex := IndexOf(commandPart, ' ');
    var bracketIndex := IndexOf(commandPart, '[');
    var braceIndex := IndexOf(commandPart, '{');
    var firstSeparator := Earlier(Earlier(spaceIndex, bracketIndex), braceIndex);
    if firstSeparator == -1 {
      result := result.(commandName := ToLower(commandPart));
      return;
    }
    result := result.(commandName := ToLower(Trim(commandPart[..firstSeparator])));
    var argumentsPart := Trim(commandPart[firstSeparator..]);
    var positionalMatch := LazyBracket(BeforeData(argumentsPart));
    if positionalMatch.Some? {
      var positionalArgs := ParsePositionalArguments(positionalMatch.value);
      result := result.(positionalArgs := positionalArgs);
    }
    var dataBlockMatch := GreedyBrace(argumentsPart);
    if dataBlockMatch.Some? {
      var dataBlock := ParseDataBlock(dataBlockMatch.value, parseFloat);
      result := result.(dataBlock := dataBlock);
    }
  }

  // ---------------------------------------------------------------- the console

  /** A registered command without its delegate: its name, its help text and whether it
      acts on the selected entity when given no positional argument. */
  datatype ConsoleCommand = ConsoleCommand(name: string, description: string, usage: string, requiresEntityTarget: bool)

  /** What a command's delegate did: returned a reply, or threw with a message. */
  datatype Outcome = Returned(reply: string) | Threw(message: string)

  /** The call `ExecuteCommand` makes: the command's name, its positional arguments and
      its data block. */
  datatype Call = Call(name: string, args: seq<string>, data: map<string, Value>)

  /** `StartsWith(input, OrdinalIgnoreCase)`, letters folded as ASCII. */
  predicate Extends(s: string, input: string) {
    IsPrefix(ToLower(input), ToLower(s))
  }

  /** The registered names the input starts. */
  function MatchingCommands(names: set<string>, input: string): set<string> {
    set c | c in names && Extends(c, input)
  }

  /** The namespaces the input starts: the text of a registered name before one of its
      dots (the joined leading parts of `Split('.')`, the whole name excepted). */
  function Namespaces(names: set<string>, input: string): set<string> {
    set c, j | c in names && 0 <= j < |c| && c[j] == '.' && Extends(c[..j], input) :: c[..j]
  }

  /** The namespaces of one name among its first `k` characters. */
  function NamespacesBefore(c: string, k: int, input: string): set<string>
    requires 0 <= k <= |c|
  {
    set j | 0 <= j < k && c[j] == '.' && Extends(c[..j], input) :: c[..j]
  }

  /** One more character of `c` adds its prefix when that character is a dot. */
  lemma NamespacesBeforeStep(c: string, j: int, input: string)
    requires 0 <= j < |c|
    ensures NamespacesBefore(c, j + 1, input)
      == NamespacesBefore(c, j, input) + (if c[j] == '.' && Extends(c[..j], input) then {c[..j]} else {})
  {
  }

  /** Every suggestion starts with the input and is a registered name or the part of one
      before a dot; every registered name the input starts is suggested. */
  lemma SuggestionsSound(names: set<string>, input: string, s: string)
    requires s in MatchingCommands(names, input) + Namespaces(names, input)
    ensures Extends(s, input)
    ensures s in names || exists c :: c in names && |s| < |c| && c[|s|] == '.' && c[..|s|] == s
  {
    if s !in MatchingCommands(names, input) {
      var c, j :| c in names && 0 <= j < |c| && c[j] == '.' && Extends(c[..j], input) && s == c[..j];
      assert |s| == j;
    }
  }

  /** A typed namespace is suggested back, and so is each registered name under it. */
  lemma NamespaceSuggested(names: set<string>, c: string, j: int)
    requires c in names && 0 <= j < |c| && c[j] == '.'
    ensures c[..j] in Namespaces(names, c[..j])
    ensures c in MatchingCommands(names, c[..j])
  {
    assert ToLower(c)[..j] == ToLower(c[..j]);
  }

  /** A console log line: `[HH:mm:ss] [ERROR] message` or `[HH:mm:ss] [INFO] message`. */
  function LogEntry(timestamp: string, message: string, isError: bool): (r: string)
    ensures IsPrefix("[" + timestamp + "] ", r) && IsSuffix(message, r)
    ensures isError <==> IsPrefix("[" + timestamp + "] [E", r)
  {
    var head := "[" + timestamp + "] ";
    var r := head + (if isError then "[ERROR]" else "[INFO]") + " " + message;
    assert r[..|head|] == head;
    assert r[|r| - |message|..] == message;
    assert r[|head| + 1] == (if isError then 'E' else 'I');
    r
  }

  /** `Capped` applied to each of `xs` in turn. */
  function CappedAll<T>(log: seq<T>, xs: seq<T>, max: int): seq<T>
    decreases |xs|
  {
    if xs == [] then log else Capped(CappedAll(log, xs[..|xs| - 1], max), xs[|xs| - 1], max)
  }

  /** The list grows by one per element until it reaches `max`, and then keeps its length. */
  lemma {:induction false} CappedAllLength<T>(log: seq<T>, xs: seq<T>, max: int)
    requires |log| <= max
    ensures |CappedAll(log, xs, max)| == if |log| + |xs| <= max then |log| + |xs| else max
    decreases |xs|
  {
    if xs != [] {
      CappedAllLength(log, xs[..|xs| - 1], max);
    }
  }

  /** The newest elements of the list are `xs`, in order, when they fit. */
  lemma {:induction false} CappedAllEndsWith<T>(log: seq<T>, xs: seq<T>, max: int, i: int)
    requires |log| <= max && |xs| <= max && 0 <= i < |xs|
    ensures var r := CappedAll(log, xs, max); |xs| <= |r| && r[|r| - |xs| + i] == xs[i]
    decreases |xs|, 1
  {
    if i == |xs| - 1 {
      CappedAllNewest(log, xs, max);
    } else {
      CappedAllOlder(log, xs, max, i);
    }
  }

  /** The last element written is the newest one. */
  lemma CappedAllNewest<T>(log: seq<T>, xs: seq<T>, max: int)
    requires |log| <= max && 1 <= |xs| <= max
    ensures var r := CappedAll(log, xs, max); |xs| <= |r| && r[|r| - 1] == xs[|xs| - 1]
  {
    var front := xs[..|xs| - 1];
    CappedAllLength(log, front, max);
    assert CappedAll(log, xs, max) == Capped(CappedAll(log, front, max), xs[|xs| - 1], max);
  }

  /** An earlier element written moves down by one with each later one. */
  lemma {:induction false} CappedAllOlder<T>(log: seq<T>, xs: seq<T>, max: int, i: int)
    requires |log| <= max && |xs| <= max && 0 <= i < |xs| - 1
    ensures var r := CappedAll(log, xs, max); |xs| <= |r| && r[|r| - |xs| + i] == xs[i]
    decreases |xs|, 0
  {
    var n := |xs|;
    var front := xs[..n - 1];
    var before := CappedAll(log, front, max);
    assert CappedAll(log, xs, max) == Capped(before, xs[n - 1], max);
    CappedAllLength(log, front, max);
    CappedAllEndsWith(log, front, max, i);
    assert front[i] == xs[i];
    CappedShifts(before, xs[n - 1], max, n, i);
  }

  /** An element `n - 1 - i` places from the newest one before `Capped` is `n - i`
      places from it after, the cap dropping only the oldest. */
  lemma CappedShifts<T>(s: seq<T>, x: T, max: int, n: int, i: int)
    requires n - 1 <= |s| <= max && n <= max && 0 <= i < n - 1
    ensures var r := Capped(s, x, max); n <= |r| && r[|r| - n + i] == s[|s| - (n - 1) + i]
  {
  }

  /** Capping two runs is capping them one after the other. */
  lemma {:induction false} CappedAllConcat<T>(log: seq<T>, a: seq<T>, b: seq<T>, max: int)
    ensures CappedAll(log, a + b, max) == CappedAll(CappedAll(log, a, max), b, max)
    decreases |b|
  {
    if b == [] {
      assert a + b == a;
    } else {
      var n := |b|;
      assert (a + b)[..|a + b| - 1] == a + b[..n - 1];
      assert (a + b)[|a + b| - 1] == b[n - 1];
      CappedAllConcat(log, a, b[..n - 1], max);
    }
  }

  /** The stamped lines of `entries` (message, is-error). */
  function Lines(timestamp: string, entries: seq<(string, bool)>): (r: seq<string>)
    ensures |r| == |entries|
    ensures forall i :: 0 <= i < |entries| ==> r[i] == LogEntry(timestamp, entries[i].0, entries[i].1)
  {
    seq(|entries|, i requires 0 <= i < |entries| => LogEntry(timestamp, entries[i].0, entries[i].1))
  }

  /** The log after writing `entries` in order, each at `timestamp`, the oldest line
      going once the log outgrows `max`. */
  function Logged(log: seq<string>, timestamp: string, entries: seq<(string, bool)>, max: int): seq<string> {
    CappedAll(log, Lines(timestamp, entries), max)
  }

  /** Logging one entry is one `LogToConsole`. */
  lemma LoggedOne(log: seq<string>, timestamp: string, message: string, isError: bool, max: int)
    ensures Logged(log, timestamp, [(message, isError)], max) == Capped(log, LogEntry(timestamp, message, isError), max)
  {
    var xs := Lines(timestamp, [(message, isError)]);
    assert xs == [LogEntry(timestamp, message, isError)];
    assert xs[..0] == [];
    assert CappedAll(log, xs[..0], max) == log;
  }

  /** Writing two runs of entries is writing them one after the other. */
  lemma LoggedConcat(log: seq<string>, timestamp: string, a: seq<(string, bool)>, b: seq<(string, bool)>, max: int)
    ensures Logged(log, timestamp, a + b, max) == Logged(Logged(log, timestamp, a, max), timestamp, b, max)
  {
    assert Lines(timestamp, a + b) == Lines(timestamp, a) + Lines(timestamp, b);
    CappedAllConcat(log, Lines(timestamp, a), Lines(timestamp, b), max);
  }

  /** What `ExecuteCommand` calls: a registered name with its positional arguments (the
      selected entity put first when the command needs a target and none was given) and
      its data block; nothing for an unknown name or an empty one. */
  function Dispatch(p: ParsedCommand, commands: map<string, ConsoleCommand>, selectedEntity: string): (d: Option<Call>)
    ensures d.Some? <==> p.commandName != "" && p.commandName in commands
    ensures d.Some? ==> d.value.name == p.commandName && d.value.data == p.dataBlock
    ensures d.Some? ==> |p.positionalArgs| <= |d.value.args| <= |p.positionalArgs| + 1
    ensures d.Some? && |d.value.args| != |p.positionalArgs| ==>
      p.positionalArgs == [] && commands[p.commandName].requiresEntityTarget && d.value.args == [selectedEntity]
  {
    if p.commandName == "" || p.commandName !in commands then None
    else if commands[p.commandName].requiresEntityTarget && p.positionalArgs == [] && selectedEntity != "" then
      Some(Call(p.commandName, [selectedEntity], p.dataBlock))
    else Some(Call(p.commandName, p.positionalArgs, p.dataBlock))
  }

  /** The log entries `ExecuteCommand` writes after echoing the command. */
  function Responses(p: ParsedCommand, commands: map<string, ConsoleCommand>, outcome: Outcome): (r: seq<(string, bool)>)
    ensures |r| <= 1
    ensures p.commandName == "" || p.commandName !in commands ==> |r| == 1 && r[0].1
    ensures r != [] && !r[0].1 ==> outcome == Returned(r[0].0)
  {
    if p.commandName == "" then [("Invalid command syntax. Use: namespace.command [args...] {data...}", true)]
    else if p.commandName !in commands then
      [("Unknown command: " + p.commandName + ". Type 'help' for available commands.", true)]
    else match outcome
      case Returned(reply) => if reply == "" then [] else [(reply, false)]
      case Threw(message) => [("Error executing command: " + message, true)]
  }

  /** A registered name holding an upper-case letter is never called, whatever is typed:
      the parsed name is lowered. */
  lemma UpperCaseNameNeverCalled(line: string, parseFloat: string -> Option<real>,
                                 commands: map<string, ConsoleCommand>, selectedEntity: string, name: string)
    requires HasUpper(name)
    ensures var d := Dispatch(Parsed(line, parseFloat), commands, selectedEntity);
      d.None? || d.value.name != name
  {
    CommandNameShape(line);
    assert Parsed(line, parseFloat).commandName == CommandName(line);
  }

  /** The executed command echoed first, then what the command answered. */
  lemma ExecutionLogged(log: seq<string>, timestamp: string, input: string, p: ParsedCommand,
                        commands: map<string, ConsoleCommand>, outcome: Outcome, max: int)
    requires |log| <= max && max >= 2
    ensures var es := [("> " + input, false)] + Responses(p, commands, outcome);
      var r := Logged(log, timestamp, es, max);
      |r| >= |es| && r[|r| - |es|] == LogEntry(timestamp, "> " + input, false)
      && (p.commandName == "" || p.commandName !in commands ==> IsPrefix("[" + timestamp + "] [E", r[|r| - 1]))
  {
    var es := [("> " + input, false)] + Responses(p, commands, outcome);
    var xs := Lines(timestamp, es);
    CappedAllEndsWith(log, xs, max, 0);
    CappedAllEndsWith(log, xs, max, |es| - 1);
  }

  class DebugConsoleManager {
    const maxHistoryCount: int
    const maxLogCount: int
    var commandHistory: seq<string>
    var consoleLog: seq<string>
    var historyIndex: int
    var currentInput: string
    var suggestions: seq<string>
    var selectedSuggestion: int
    var showSuggestions: bool
    var commands: map<string, ConsoleCommand>

    /** The history and log are within their bounds, the history repeats no entry back
        to back, the history index is the fresh input (-1) or an entry, and a shown,
        non-empty suggestion list has one selected. */
    predicate Valid()
      reads this
    {
      NoStutter(commandHistory) && |commandHistory| <= maxHistoryCount && -1 <= historyIndex < |commandHistory|
      && |consoleLog| <= maxLogCount
      && (showSuggestions && suggestions != [] ==> 0 <= selectedSuggestion < |suggestions|)
    }

    /** The serialized defaults: fifty history entries, a hundred log lines, nothing typed
        and no command registered. */
    constructor()
      ensures maxHistoryCount == 50 && maxLogCount == 100
      ensures commandHistory == [] && consoleLog == [] && historyIndex == -1 && currentInput == ""
      ensures suggestions == [] && selectedSuggestion == -1 && showSuggestions && commands == map[]
      ensures Valid()
    {
      maxHistoryCount, maxLogCount := 50, 100;
      commandHistory, consoleLog, historyIndex, currentInput := [], [], -1, "";
      suggestions, selectedSuggestion, showSuggestions := [], -1, true;
      commands := map[];
    }

    /** `NavigateHistory`: nothing on an empty history; otherwise the index moves by
        `direction`, held to the fresh input and the entries, and the input shows it. */
    method NavigateHistory(direction: int)
      modifies this`historyIndex, this`currentInput
      ensures commandHistory == [] ==> historyIndex == old(historyIndex) && currentInput == old(currentInput)
      ensures commandHistory != [] ==> historyIndex == Navigated(|commandHistory|, old(historyIndex), direction)
      ensures commandHistory != [] ==> -1 <= historyIndex < |commandHistory| && currentInput == Recalled(commandHistory, historyIndex)
      ensures old(Valid()) ==> Valid()
    {
      if |commandHistory| == 0 {
        return;
      }
      historyIndex := historyIndex + direction;
      historyIndex := ClampIndex(historyIndex, -1, |commandHistory| - 1);
      if historyIndex >= 0 {
        currentInput := commandHistory[historyIndex];
      } else {
        currentInput := "";
      }
    }

    /** The up arrow: the previous suggestion while suggestions show, otherwise the
        previous history entry. */
    method HandleUpArrow()
      modifies this`selectedSuggestion, this`historyIndex, this`currentInput
      ensures showSuggestions && suggestions != [] ==>
        selectedSuggestion == (if old(selectedSuggestion) > 0 then old(selectedSuggestion) - 1 else old(selectedSuggestion))
        && historyIndex == old(historyIndex) && currentInput == old(currentInput)
      ensures !(showSuggestions && suggestions != []) ==>
        selectedSuggestion == old(selectedSuggestion) && historyIndex == Navigated(|commandHistory|, old(historyIndex), -1)
      ensures old(Valid()) ==> Valid()
    {
      if showSuggestions && |suggestions| > 0 {
        if selectedSuggestion > 0 {
          selectedSuggestion := selectedSuggestion - 1;
        }
      } else {
        NavigateHistory(-1);
      }
    }

    /** The down arrow: the next suggestion while suggestions show, otherwise the next
        history entry. */
    method HandleDownArrow()
      modifies this`selectedSuggestion, this`historyIndex, this`currentInput
      ensures showSuggestions && suggestions != [] ==>
        selectedSuggestion == (if old(selectedSuggestion) < |suggestions| - 1 then old(selectedSuggestion) + 1 else old(selectedSuggestion))
        && historyIndex == old(historyIndex) && currentInput == old(currentInput)
      ensures !(showSuggestions && suggestions != []) ==>
        selectedSuggestion == old(selectedSuggestion) && historyIndex == Navigated(|commandHistory|, old(historyIndex), 1)
      ensures old(Valid()) ==> Valid()
    {
      if showSuggestions && |suggestions| > 0 {
        if selectedSuggestion < |suggestions| - 1 {
          selectedSuggestion := selectedSuggestion + 1;
        }
      } else {
        NavigateHistory(1);
      }
    }

    /** `UpdateSuggestions`: nothing for an empty input; otherwise every registered name
        and every namespace the input starts (a name that is also a namespace appears
        twice), shown with the first selected when there is any. */
    method UpdateSuggestions()
      modifies this`suggestions, this`selectedSuggestion, this`showSuggestions
      ensures currentInput == "" ==> suggestions == [] && selectedSuggestion == -1 && !showSuggestions
      ensures currentInput != "" ==>
        multiset(suggestions) == multiset(MatchingCommands(commands.Keys, currentInput)) + multiset(Namespaces(commands.Keys, currentInput))
        && showSuggestions == (suggestions != []) && selectedSuggestion == (if showSuggestions then 0 else -1)
      ensures old(Valid()) ==> Valid()
    {
      suggestions := [];
      selectedSuggestion := -1;
      if currentInput == "" {
        showSuggestions := false;
        return;
      }
      var input := ToLower(currentInput);
      var found := FindMatching(commands.Keys, input);
      var namespaces := FindNamespaces(commands.Keys, input);
      ToLowerIdempotent(currentInput);
      assert forall s :: Extends(s, input) <==> Extends(s, currentInput);
      assert MatchingCommands(commands.Keys, input) == MatchingCommands(commands.Keys, currentInput);
      assert Namespaces(commands.Keys, input) == Namespaces(commands.Keys, currentInput);
      suggestions := found + namespaces;
      showSuggestions := |suggestions| > 0;
      if showSuggestions {
        selectedSuggestion := 0;
      }
    }

    /** `HandleAutoComplete`: a shown suggestion replaces the input and the list is hidden. */
    method HandleAutoComplete()
      requires Valid()
      modifies this`currentInput, this`showSuggestions
      ensures old(showSuggestions) && suggestions != [] ==>
        currentInput == suggestions[selectedSuggestion] && currentInput in suggestions && !showSuggestions
      ensures !(old(showSuggestions) && suggestions != []) ==>
        currentInput == old(currentInput) && showSuggestions == old(showSuggestions)
      ensures Valid()
    {
      if showSuggestions && |suggestions| > 0 {
        currentInput := suggestions[selectedSuggestion];
        showSuggestions := false;
      }
    }

    /** The first loop of `UpdateSuggestions`: the names the input starts, each once. */
    static method FindMatching(names: set<string>, input: string) returns (found: seq<string>)
      ensures multiset(found) == multiset(MatchingCommands(names, input))
    {
      found := [];
      var rest := names;
      while rest != {}
        invariant rest <= names
        invariant multiset(found) == multiset(MatchingCommands(names - rest, input))
      {
        var c :| c in rest;
        ghost var done := names - rest;
        if Extends(c, input) {
          found := found + [c];
          assert MatchingCommands(done + {c}, input) == MatchingCommands(done, input) + {c};
        } else {
          assert MatchingCommands(done + {c}, input) == MatchingCommands(done, input);
        }
        rest := rest - {c};
        assert names - rest == done + {c};
      }
    }

    /** The second loop of `UpdateSuggestions`: the namespaces the input starts, each once
        (they are gathered in a set). */
    static method FindNamespaces(names: set<string>, input: string) returns (found: seq<string>)
      ensures multiset(found) == multiset(Namespaces(names, input))
    {
      var namespaces: set<string> := {};
      var rest := names;
      while rest != {}
        invariant rest <= names
        invariant namespaces == Namespaces(names - rest, input)
      {
        var c :| c in rest;
        ghost var done := names - rest;
        namespaces := AddNamespacesOf(c, input, namespaces);
        NamespacesGrow(done, c, input);
        rest := rest - {c};
        assert names - rest == done + {c};
      }
      found := SetToSeq(namespaces);
    }

    /** The inner loop of `FindNamespaces`: each part of `c` before a dot that the
        input starts is added. */
    static method AddNamespacesOf(c: string, input: string, namespaces: set<string>) returns (added: set<string>)
      ensures added == namespaces + NamespacesBefore(c, |c|, input)
    {
      added := namespaces;
      var j := 0;
      while j < |c|
        invariant 0 <= j <= |c|
        invariant added == namespaces + NamespacesBefore(c, j, input)
      {
        if c[j] == '.' && Extends(c[..j], input) {
          added := added + {c[..j]};
        }
        NamespacesBeforeStep(c, j, input);
        j := j + 1;
      }
    }

    /** `RegisterCommand`: the name maps to a new command, replacing any earlier one. */
    method RegisterCommand(name: string, description: string, usage: string, requiresEntityTarget: bool)
      modifies this`commands
      ensures commands == old(commands)[name := ConsoleCommand(name, description, usage, requiresEntityTarget)]
    {
      commands := commands[name := ConsoleCommand(name, description, usage, requiresEntityTarget)];
    }

    /** `LogToConsole`: one stamped line, the oldest going beyond `maxLogCount`. */
    method LogToConsole(message: string, isError: bool, timestamp: string)
      modifies this`consoleLog
      ensures consoleLog == Capped(old(consoleLog), LogEntry(timestamp, message, isError), maxLogCount)
      ensures old(|consoleLog|) <= maxLogCount ==> |consoleLog| <= maxLogCount
    {
      var entry := LogEntry(timestamp, message, isError);
      consoleLog := consoleLog + [entry];
      if |consoleLog| > maxLogCount {
        consoleLog := consoleLog[1..];
      }
    }

    /** `ExecuteCommand`: nothing for an empty input; otherwise the input as typed enters
        the history unless it repeats the last entry, is echoed to the log, parsed and
        dispatched, the answer is logged, and the input and history index are reset. The
        clock, the selected entity and what the delegate does are parameters. */
    method ExecuteCommand(timestamp: string, parseFloat: string -> Option<real>, selectedEntity: string, outcome: Outcome)
      returns (call: Option<Call>)
      modifies this`commandHistory, this`consoleLog, this`historyIndex, this`currentInput, this`showSuggestions
      ensures old(currentInput) == "" ==>
        call.None? && commandHistory == old(commandHistory) && consoleLog == old(consoleLog)
        && historyIndex == old(historyIndex) && currentInput == "" && showSuggestions == old(showSuggestions)
      ensures old(currentInput) != "" ==>
        commandHistory == Appended(old(commandHistory), old(currentInput), maxHistoryCount)
      ensures old(currentInput) != "" ==>
        call == Dispatch(Parsed(old(currentInput), parseFloat), commands, selectedEntity)
      ensures old(currentInput) != "" ==>
        consoleLog == Logged(old(consoleLog), timestamp,
          [("> " + old(currentInput), false)] + Responses(Parsed(old(currentInput), parseFloat), commands, outcome), maxLogCount)
      ensures old(currentInput) != "" ==>
        historyIndex == -1 && currentInput == "" && !showSuggestions
      ensures old(Valid()) ==> Valid()
    {
      call := None;
      if currentInput == "" {
        return;
      }
      var input := currentInput;
      currentInput := "";
      historyIndex := -1;
      showSuggestions := false;
      RecordInput(input);
      var parsed := ParseCommandLine(input, parseFloat);
      call := Exchange(input, parsed, selectedEntity, outcome, timestamp);
    }

    /** The log step of `ExecuteCommand`: the input is echoed as typed, then the
        command's answer follows, the log staying within `maxLogCount` lines. */
    method Exchange(input: string, parsed: ParsedCommand, selectedEntity: string, outcome: Outcome, timestamp: string)
      returns (call: Option<Call>)
      modifies this`consoleLog
      ensures call == Dispatch(parsed, commands, selectedEntity)
      ensures consoleLog == Logged(old(consoleLog), timestamp, [("> " + input, false)] + Responses(parsed, commands, outcome), maxLogCount)
      ensures old(|consoleLog|) <= maxLogCount ==> |consoleLog| <= maxLogCount
    {
      ghost var log0 := consoleLog;
      ghost var echo := [("> " + input, false)];
      LogToConsole("> " + input, false, timestamp);
      ghost var log1 := consoleLog;
      LoggedOne(log0, timestamp, "> " + input, false, maxLogCount);
      ghost var replies := Responses(parsed, commands, outcome);
      call := Respond(parsed, selectedEntity, outcome, timestamp);
      LoggedConcat(log0, timestamp, echo, replies, maxLogCount);
      if |log0| <= maxLogCount {
        CappedAllLength(log0, Lines(timestamp, echo + replies), maxLogCount);
      }
    }

    /** The history step of `ExecuteCommand`: the input is added unless it repeats the
        last entry, the oldest entry going beyond `maxHistoryCount`. */
    method RecordInput(input: string)
      modifies this`commandHistory
      ensures commandHistory == Appended(old(commandHistory), input, maxHistoryCount)
      ensures old(NoStutter(commandHistory) && |commandHistory| <= maxHistoryCount) ==>
        NoStutter(commandHistory) && |commandHistory| <= maxHistoryCount
    {
      ghost var h0 := commandHistory;
      if |commandHistory| == 0 || commandHistory[|commandHistory| - 1] != input {
        commandHistory := commandHistory + [input];
        if |commandHistory| > maxHistoryCount {
          commandHistory := commandHistory[1..];
        }
        assert commandHistory == Capped(h0, input, maxHistoryCount);
      }
      if NoStutter(h0) {
        AppendedNoStutter(h0, input, maxHistoryCount);
      }
    }

    /** The dispatch step of `ExecuteCommand`: a registered command is called and its
        reply or failure logged; an unknown or empty name is logged as an error. */
    method Respond(parsed: ParsedCommand, selectedEntity: string, outcome: Outcome, timestamp: string) returns (call: Option<Call>)
      modifies this`consoleLog
      ensures call == Dispatch(parsed, commands, selectedEntity)
      ensures consoleLog == Logged(old(consoleLog), timestamp, Responses(parsed, commands, outcome), maxLogCount)
    {
      call := None;
      ghost var log0 := consoleLog;
      if parsed.commandName != "" {
        if parsed.commandName in commands {
          var command := commands[parsed.commandName];
          var args := parsed.positionalArgs;
          if command.requiresEntityTarget && |args| == 0 {
            if selectedEntity != "" {
              args := [selectedEntity] + args;
              assert args == [selectedEntity];
            }
          }
          call := Some(Call(parsed.commandName, args, parsed.dataBlock));
          match outcome {
            case Returned(reply) =>
              if reply != "" {
                LogToConsole(reply, false, timestamp);
                LoggedOne(log0, timestamp, reply, false, maxLogCount);
              }
            case Threw(message) =>
              LogToConsole("Error executing command: " + message, true, timestamp);
              LoggedOne(log0, timestamp, "Error executing command: " + message, true, maxLogCount);
          }
        } else {
          var m := "Unknown command: " + parsed.commandName + ". Type 'help' for available commands.";
          LogToConsole(m, true, timestamp);
          LoggedOne(log0, timestamp, m, true, maxLogCount);
        }
      } else {
        LogToConsole("Invalid command syntax. Use: namespace.command [args...] {data...}", true, timestamp);
        LoggedOne(log0, timestamp, "Invalid command syntax. Use: namespace.command [args...] {data...}", true, maxLogCount);
      }
    }
  }

  /** The namespaces of names grow by those of one more name. */
  lemma NamespacesGrow(done: set<string>, c: string, input: string)
    ensures Namespaces(done + {c}, input) == Namespaces(done, input) + NamespacesBefore(c, |c|, input)
  {
  }

  /** The elements of a set, each once, in some order. */
  method SetToSeq(s: set<string>) returns (r: seq<string>)
    ensures multiset(r) == multiset(s)
  {
    r := [];
    var rest := s;
    while rest != {}
      invariant rest <= s
      invariant multiset(r) == multiset(s - rest)
    {
      var x :| x in rest;
      r := r + [x];
      assert s - (rest - {x}) == (s - rest) + {x};
      rest := rest - {x};
    }
  }
}
