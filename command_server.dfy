// The `/command` endpoint of the Flask command server: a prefix whitelist on the
// stripped command and a dispatch of each request to 400, 403, 200 or 500.
// The shell is an oracle: a function from the command string to its outcome.
module CommandServer {
  import opened Text
  import opened Wrappers

  /** The whitelist shipped with the server. */
  const AllowedCommands: seq<string> := ["git status", "git pull", "ls -l", "echo Hello"]

  /** The early-return scan over a whitelist: true at the first entry that is a prefix. */
  function FirstAllowing(list: seq<string>, stripped: string): (r: bool)
    ensures r <==> exists i :: 0 <= i < |list| && IsPrefix(list[i], stripped)
  {
    if list == [] then false
    else if IsPrefix(list[0], stripped) then true
    else
      var rest := FirstAllowing(list[1..], stripped);
      assert forall i :: 1 <= i < |list| ==> list[i] == list[1..][i - 1];
      rest
  }

  // ---------------------------------------------------------------- Python's str.strip()

  /** The characters Python's `str.strip()` removes: .NET's white space plus the four
      information separators U+001C to U+001F, which Python also counts as space. */
  predicate IsPySpace(c: char) {
    IsWhitespace(c) || ('\U{1C}' <= c <= '\U{1F}')
  }

  /** The first index from `k` on that holds no space, or `|s|`. */
  function SpaceRunFrom(s: string, k: nat): (r: nat)
    requires k <= |s|
    ensures k <= r <= |s|
    ensures r == |s| || !IsPySpace(s[r])
    decreases |s| - k
  {
    if k == |s| || !IsPySpace(s[k]) then k else SpaceRunFrom(s, k + 1)
  }

  /** The end of `s[..e]` once its trailing spaces are dropped. */
  function SpaceRunBefore(s: string, e: nat): (r: nat)
    requires e <= |s|
    ensures r <= e
    ensures r == 0 || !IsPySpace(s[r - 1])
  {
    if e == 0 || !IsPySpace(s[e - 1]) then e else SpaceRunBefore(s, e - 1)
  }

  /** A run of spaces from `k` up to a non-space at `m` is skipped whole. */
  lemma {:induction false} SpaceRunFromAt(s: string, k: nat, m: nat)
    requires k <= m <= |s|
    requires forall i :: k <= i < m ==> IsPySpace(s[i])
    requires m == |s| || !IsPySpace(s[m])
    ensures SpaceRunFrom(s, k) == m
    decreases m - k
  {
    if k < m {
      SpaceRunFromAt(s, k + 1, m);
    }
  }

  /** A run of spaces between a non-space before `m` and `e` is dropped whole. */
  lemma {:induction false} SpaceRunBeforeAt(s: string, e: nat, m: nat)
    requires m <= e <= |s|
    requires forall i :: m <= i < e ==> IsPySpace(s[i])
    requires m == 0 || !IsPySpace(s[m - 1])
    ensures SpaceRunBefore(s, e) == m
  {
    if m < e {
      SpaceRunBeforeAt(s, e - 1, m);
    }
  }

  /** `s.lstrip()`. */
  function LStrip(s: string): string {
    s[SpaceRunFrom(s, 0)..]
  }

  /** `s.rstrip()`. */
  function RStrip(s: string): string {
    s[..SpaceRunBefore(s, |s|)]
  }

  /** `s.strip()`. */
  function Strip(s: string): string {
    RStrip(LStrip(s))
  }

  /** Stripping removes exactly the spaces around a core that neither starts nor ends
      with one. */
  lemma StripPadded(w1: string, x: string, w2: string)
    requires forall i :: 0 <= i < |w1| ==> IsPySpace(w1[i])
    requires forall i :: 0 <= i < |w2| ==> IsPySpace(w2[i])
    requires x != [] && !IsPySpace(x[0]) && !IsPySpace(x[|x| - 1])
    ensures Strip(w1 + x + w2) == x
  {
    var s := w1 + x + w2;
    assert forall i :: 0 <= i < |w1| ==> s[i] == w1[i];
    assert s[|w1|] == x[0];
    SpaceRunFromAt(s, 0, |w1|);
    var l := s[|w1|..];
    assert l == x + w2;
    assert forall i :: |x| <= i < |l| ==> l[i] == w2[i - |x|];
    assert l[|x| - 1] == x[|x| - 1];
    SpaceRunBeforeAt(l, |l|, |x|);
    assert l[..|x|] == x;
  }

  /** A non-empty strip neither starts nor ends with a space, and stripping it again
      changes nothing. */
  lemma StripEdges(s: string)
    ensures Strip(s) != [] ==> !IsPySpace(Strip(s)[0]) && !IsPySpace(Strip(s)[|Strip(s)| - 1])
    ensures Strip(Strip(s)) == Strip(s)
  {
    var l := LStrip(s);
    var r := Strip(s);
    if r != [] {
      assert r[0] == l[0];
      StripOfClean(r);
    }
  }

  /** A string with no space at either end is its own strip. */
  lemma StripOfClean(s: string)
    requires s != [] && !IsPySpace(s[0]) && !IsPySpace(s[|s| - 1])
    ensures Strip(s) == s
  {
    StripPadded([], s, []);
    assert [] + s + [] == s;
  }

  /** Away from the four information separators, Python's strip and .NET's Trim agree. */
  lemma StripIsTrim(w1: string, x: string, w2: string)
    requires AllWhitespace(w1) && AllWhitespace(w2)
    requires x != [] && !IsPySpace(x[0]) && !IsPySpace(x[|x| - 1])
    ensures Strip(w1 + x + w2) == Trim(w1 + x + w2) == x
  {
    StripPadded(w1, x, w2);
    TrimPadded(w1, x, w2);
  }

  // ---------------------------------------------------------------- the whitelist

  /** `is_command_allowed`: some whitelist entry is a prefix of the stripped command. */
  function IsCommandAllowed(command: string): (r: bool)
    ensures r ==> |Strip(command)| >= 5
  {
    var r := FirstAllowing(AllowedCommands, Strip(command));
    assert forall i :: 0 <= i < |AllowedCommands| ==> |AllowedCommands[i]| >= 5;
    r
  }

  lemma AllowedIffSomePrefix(command: string)
    ensures IsCommandAllowed(command) <==>
      exists a :: a in AllowedCommands && IsPrefix(a, Strip(command))
  {
    var t := Strip(command);
    if exists a :: a in AllowedCommands && IsPrefix(a, t) {
      var a :| a in AllowedCommands && IsPrefix(a, t);
      var i :| 0 <= i < |AllowedCommands| && AllowedCommands[i] == a;
    }
  }

  // ---------------------------------------------------------------- the handler

  /** What the shell run by `subprocess.run(..., check=True)` does with a command. */
  datatype ProcessOutcome =
    | Exited(exitCode: int, stdout: string, stderr: string)
    | Raised(message: string)   // any other exception, e.g. the shell could not be started

  /** A decoded JSON value; `JNull` is also what `request.get_json()` gives for a request
      without a JSON body. */
  datatype Json =
    | JNull | JBool(b: bool) | JNumber(n: real) | JString(s: string)
    | JArray(items: seq<Json>) | JObject(members: map<string, Json>)

  /** Python's truth value of a decoded JSON value. */
  predicate Falsy(data: Json) {
    match data
    case JNull => true
    case JBool(b) => !b
    case JNumber(n) => n == 0.0
    case JString(s) => s == []
    case JArray(items) => items == []
    case JObject(members) => members == map[]
  }

  /** Python's `p in s` on strings: `p` occurs somewhere in `s`. */
  function Occurs(p: string, s: string): (r: bool)
    ensures r <==> exists i :: 0 <= i <= |s| && IsPrefix(p, s[i..])
  {
    if IsPrefix(p, s) then
      assert s[0..] == s;
      true
    else if s == [] then false
    else
      var r := Occurs(p, s[1..]);
      assert forall i :: 1 <= i <= |s| ==> s[i..] == s[1..][i - 1..];
      r
  }

  /** Python's `'command' in data`: a key test on an object, a membership test on a
      list, a substring test on a string; `None` where Python raises `TypeError`. */
  function HasCommandKey(data: Json): (r: Option<bool>)
    ensures r.None? <==> data.JNull? || data.JBool? || data.JNumber?
    ensures data.JObject? ==> r == Some("command" in data.members)
  {
    match data
    case JObject(members) => Some("command" in members)
    case JArray(items) => Some(JString("command") in items)
    case JString(s) => Some(Occurs("command", s))
    case _ => None
  }

  /** The body gets past the 400 check and `data['command']` is a string: the only case
      that reaches the whitelist without raising. */
  predicate CommandIsText(data: Json) {
    data.JObject? && "command" in data.members && data.members["command"].JString?
  }

  /** A request: the handler receives the headers but never looks at them. */
  datatype Request = Request(headers: map<string, string>, body: Json)

  /** The reply: HTTP status, the JSON object returned, and the exact string handed to
      the shell, if any; `Uncaught` is the 500 page Flask serves for an exception the
      handler does not catch. */
  datatype Response =
    | Response(status: int, json: map<string, string>, ran: Option<string>)
    | Uncaught(status: int, ran: Option<string>)

  const MissingCommandError := "Invalid request. Missing 'command' key."
  const FailedError := "Command failed to execute."

  function NotAllowedError(command: string): string {
    "Command not allowed: '" + command + "'"
  }

  /** `execute_command`, the `/command` handler. */
  function Handle(req: Request, shell: string -> ProcessOutcome): (r: Response)
    // 400 exactly for a falsy body or a body the key test finds no "command" in.
    ensures r.status == 400 <==> Falsy(req.body) || HasCommandKey(req.body) == Some(false)
    ensures r.status == 400 ==> r == Response(400, map["error" := MissingCommandError], None)
    // The key test, the subscript and `strip()` run outside the `try`: when they raise,
    // Flask answers 500 and nothing runs.
    ensures r.Uncaught? <==> r.status != 400 && !CommandIsText(req.body)
    ensures r.Uncaught? ==> r.status == 500 && r.ran == None
    // Otherwise the whitelist decides: 403 with the command quoted, nothing runs.
    ensures CommandIsText(req.body) ==>
      var c := req.body.members["command"].s;
      (r.status == 403 <==> !IsCommandAllowed(c)) &&
      (r.status == 403 ==> r.ran == None && r.json == map["error" := NotAllowedError(c)]) &&
      (IsCommandAllowed(c) ==> r.ran == Some(c))
    // The shell only ever sees a whitelisted string command, unstripped.
    ensures r.ran.Some? ==>
      CommandIsText(req.body) && r.ran.value == req.body.members["command"].s &&
      IsCommandAllowed(r.ran.value)
    // Only 400, 403, 200 and 500 are ever returned.
    ensures r.status in {200, 400, 403, 500}
  {
    var data := req.body;
    if Falsy(data) || HasCommandKey(data) == Some(false) then
      Response(400, map["error" := MissingCommandError], None)
    else if !CommandIsText(data) then
      // `in` raised TypeError, `data['command']` raised TypeError on a list or string,
      // or `command.strip()` raised AttributeError on a non-string
      Uncaught(500, None)
    else
      var c := data.members["command"].s;
      if !IsCommandAllowed(c) then Response(403, map["error" := NotAllowedError(c)], None)
      else
        match shell(c)
        case Exited(code, out, err) =>
          if code == 0 then
            Response(200, map["command" := c, "stdout" := out, "stderr" := err], Some(c))
          else
            Response(500, map["error" := FailedError, "command" := c, "stdout" := out, "stderr" := err], Some(c))
        case Raised(msg) => Response(500, map["error" := msg], Some(c))
  }

  /** Bodies that are not an object with a string `command` member: the falsy ones and
      those without the key give 400; the others make the handler raise, which Flask turns
      into a 500, and nothing runs. */
  lemma MalformedBodies(shell: string -> ProcessOutcome, h: map<string, string>)
    ensures Handle(Request(h, JNull), shell).status == 400
    ensures Handle(Request(h, JNumber(0.0)), shell).status == 400
    ensures Handle(Request(h, JString("abc")), shell).status == 400
    ensures Handle(Request(h, JNumber(5.0)), shell) == Uncaught(500, None)
    ensures Handle(Request(h, JString("xcommandx")), shell) == Uncaught(500, None)
    ensures Handle(Request(h, JArray([JString("command")])), shell) == Uncaught(500, None)
    ensures Handle(Request(h, JObject(map["command" := JNull])), shell) == Uncaught(500, None)
    ensures Handle(Request(h, JObject(map["command" := JNumber(5.0)])), shell) == Uncaught(500, None)
  {
    assert IsPrefix("command", "xcommandx"[1..]);
  }

  /** An allowed command runs unstripped; exit 0 gives 200 with its output, a non-zero
      exit gives 500 with the output and the fixed error text. */
  lemma AllowedCommandOutcome(req: Request, shell: string -> ProcessOutcome)
    requires CommandIsText(req.body)
    requires IsCommandAllowed(req.body.members["command"].s)
    ensures var c := req.body.members["command"].s;
      var r := Handle(req, shell);
      match shell(c)
      case Exited(code, out, err) =>
        (code == 0 ==> r.status == 200 && r.json == map["command" := c, "stdout" := out, "stderr" := err]) &&
        (code != 0 ==> r.status == 500 && r.json["error"] == FailedError && r.json["command"] == c
                       && r.json["stdout"] == out && r.json["stderr"] == err)
      case Raised(msg) => r.status == 500 && r.json == map["error" := msg]
  {
  }

  /** No branch reads the headers: two requests with the same body get the same reply. */
  lemma HeadersIgnored(a: Request, b: Request, shell: string -> ProcessOutcome)
    requires a.body == b.body
    ensures Handle(a, shell) == Handle(b, shell)
  {
  }

  /** A command whose first character starts no whitelist entry is refused. */
  lemma RefusedByFirstChar(command: string)
    requires Strip(command) != [] && Strip(command)[0] !in {'g', 'l', 'e'}
    ensures !IsCommandAllowed(command)
  {
    var t := Strip(command);
    forall i | 0 <= i < |AllowedCommands|
      ensures !IsPrefix(AllowedCommands[i], t)
    {
      assert AllowedCommands[i][0] in {'g', 'l', 'e'};
      if IsPrefix(AllowedCommands[i], t) {
        PrefixFirstChar(AllowedCommands[i], t);
      }
    }
  }

  /** With the shipped whitelist, arguments may follow an entry. */
  lemma ArgumentsMayFollow()
    ensures IsCommandAllowed("git status --short")
  {
    StripOfClean("git status --short");
    PrefixOfConcat("git status", " --short");
    assert "git status" + " --short" == "git status --short";
    assert AllowedCommands[0] == "git status";
  }

  /** Surrounding blanks are stripped before the test. */
  lemma SurroundingBlanksStripped()
    ensures IsCommandAllowed("  echo Hello  ")
  {
    assert "  echo Hello  " == "  " + "echo Hello" + "  ";
    StripPadded("  ", "echo Hello", "  ");
    PrefixOfConcat("echo Hello", "");
    assert "echo Hello" + "" == "echo Hello";
    assert AllowedCommands[3] == "echo Hello";
  }

  /** A command that starts no entry is refused. */
  lemma OtherCommandsRefused()
    ensures !IsCommandAllowed("rm -rf /")
  {
    StripOfClean("rm -rf /");
    RefusedByFirstChar("rm -rf /");
  }

  /** The prefix test is not word-bounded. */
  lemma NotWordBounded()
    ensures IsCommandAllowed("ls -lart")
    ensures IsCommandAllowed("git pulldown")
  {
    StripOfClean("ls -lart");
    PrefixOfConcat("ls -l", "art");
    assert "ls -l" + "art" == "ls -lart";
    assert AllowedCommands[2] == "ls -l";
    StripOfClean("git pulldown");
    PrefixOfConcat("git pull", "down");
    assert "git pull" + "down" == "git pulldown";
    assert AllowedCommands[1] == "git pull";
  }

  /** The prefix test is case-sensitive: every whitelist entry starts with a lower-case
      letter, so a command that strips to one starting with an upper-case letter, such as
      "GIT STATUS", is refused. */
  lemma CaseSensitive(command: string)
    requires Strip(command) != [] && 'A' <= Strip(command)[0] <= 'Z'
    ensures !IsCommandAllowed(command)
  {
    RefusedByFirstChar(command);
  }

  /** Every Unicode space is stripped, not only the ASCII ones: a leading no-break space
      and a trailing ideographic space do not stop "git status". */
  lemma UnicodeBlanksStripped()
    ensures IsCommandAllowed("\U{A0}git status\U{3000}")
  {
    assert "\U{A0}git status\U{3000}" == "\U{A0}" + "git status" + "\U{3000}";
    StripPadded("\U{A0}", "git status", "\U{3000}");
    PrefixOfConcat("git status", "");
    assert "git status" + "" == "git status";
    assert AllowedCommands[0] == "git status";
  }

  /** Python strips the information separators too, where .NET's Trim would not. */
  lemma SeparatorStripped()
    ensures IsCommandAllowed("\U{1F}ls -l")
    ensures Trim("\U{1F}ls -l") == "\U{1F}ls -l"
  {
    assert "\U{1F}ls -l" == "\U{1F}" + "ls -l" + [];
    StripPadded("\U{1F}", "ls -l", []);
    PrefixOfConcat("ls -l", "");
    assert "ls -l" + "" == "ls -l";
    assert AllowedCommands[2] == "ls -l";
    TrimOfClean("\U{1F}ls -l");
  }
}
