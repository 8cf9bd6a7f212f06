// The command-line client of the command bridge: its Linux/Windows path translators,
// the requests it builds for each endpoint, the directory-listing sort and format,
// and the exit codes of `main`. The network is an oracle (the connection check's
// outcome is a parameter).
module Connector {
  import opened Text
  import opened Wrappers

  const ServerHost := "192.169.7.67"
  const ApiKey := "lineage"
  const ServerUrl := "http://192.169.7.67:5000"

  // ---------------------------------------------------------------- path translators

  /** `convert_to_windows_path`: a Linux path gains the "C:" drive and keeps every
      character in place, two positions on, with each '/' turned into '\'. */
  function ToWindowsPath(p: string): (r: string)
    ensures IsPrefix("/", p) ==> IsPrefix("C:", r) && |r| == |p| + 2 && '/' !in r
    ensures IsPrefix("/", p) ==>
      forall i :: 0 <= i < |p| ==> r[i + 2] == (if p[i] == '/' then '\\' else p[i])
    ensures !IsPrefix("/", p) ==> r == p
  {
    if IsPrefix("/", p) then "C:" + ReplaceChar(p, '/', '\\') else p
  }

  /** `convert_from_windows_path`: everything up to the first ':' is dropped. */
  function FromWindowsPath(w: string): (r: string)
    ensures '\\' !in r
    ensures ':' in w ==> IsPrefix("/", r) && |r| == |w| - IndexOf(w, ':')
    ensures ':' in w ==> forall i :: IndexOf(w, ':') < i < |w| && w[i] != '\\' ==>
      r[i - IndexOf(w, ':')] == w[i]
    ensures ':' !in w ==> |r| == |w|
    ensures ':' !in w ==> forall i :: 0 <= i < |w| && w[i] != '\\' ==> r[i] == w[i]
    ensures ':' in w ==> forall i :: IndexOf(w, ':') < i < |w| && w[i] == '\\' ==>
      r[i - IndexOf(w, ':')] == '/'
    ensures ':' !in w ==> forall i :: 0 <= i < |w| && w[i] == '\\' ==> r[i] == '/'
  {
    if ':' in w then "/" + ReplaceChar(w[IndexOf(w, ':') + 1..], '\\', '/')
    else ReplaceChar(w, '\\', '/')
  }

  /** A translated path starts with "C:", so translating again changes nothing. */
  lemma {:induction false} ToWindowsIdempotent(p: string)
    ensures ToWindowsPath(ToWindowsPath(p)) == ToWindowsPath(p)
  {
    if IsPrefix("/", p) {
      var r := ToWindowsPath(p);
      assert r[0] == 'C';
    }
  }

  /** The translators are not inverse: a Linux path comes back with a doubled leading slash. */
  lemma {:induction false} RoundTripDoublesSlash(p: string)
    requires IsPrefix("/", p) && '\\' !in p
    ensures FromWindowsPath(ToWindowsPath(p)) == "/" + p
    ensures FromWindowsPath(ToWindowsPath(p)) != p
  {
    var q := ReplaceChar(p, '/', '\\');
    var w := "C:" + q;
    assert w[1] == ':' && w[0] != ':';
    assert IndexOf(w, ':') == 1 by {
      assert ':' !in w[..1];
    }
    assert w[2..] == q;
    ReplaceCharBack(p, '/', '\\');
  }

  /** The concrete instance: "/a" becomes "C:\a" and comes back as "//a". */
  lemma RoundTripExample()
    ensures ToWindowsPath("/a") == "C:\\a"
    ensures FromWindowsPath(ToWindowsPath("/a")) == "//a"
  {
    assert IsPrefix("/", "/a");
    assert ReplaceChar("/a", '/', '\\') == "\\a";
    RoundTripDoublesSlash("/a");
  }

  // ---------------------------------------------------------------- requests built

  /** Query string of `read_file`: the path is translated first. */
  function ReadFileUrl(path: string): string {
    ServerUrl + "/file/read?path=" + ToWindowsPath(path)
  }

  /** Payload of `write_file`: the translated path and the content. */
  datatype WritePayload = WritePayload(path: string, content: string)

  function WriteFilePayload(path: string, content: string): (r: WritePayload)
    ensures r.content == content
    ensures IsPrefix("/", path) ==> IsPrefix("C:", r.path)
  {
    WritePayload(ToWindowsPath(path), content)
  }

  /** URL of `list_directory`: the query is added only for a non-empty path. */
  function ListDirectoryUrl(dirPath: Option<string>): (r: string)
    ensures (dirPath.None? || dirPath.value == "") ==> r == ServerUrl + "/workspace/list"
    ensures dirPath.Some? && dirPath.value != "" ==>
      r == ServerUrl + "/workspace/list" + "?path=" + ToWindowsPath(dirPath.value)
  {
    var url := ServerUrl + "/workspace/list";
    match dirPath
    case Some(p) => if p != "" then url + "?path=" + ToWindowsPath(p) else url
    case None => url
  }

  /** JSON payload of `execute_command`: "cwd" is sent, translated, only for a truthy cwd. */
  function CommandPayload(command: string, cwd: Option<string>): (r: map<string, string>)
    ensures "command" in r && r["command"] == command
    ensures "cwd" in r <==> Truthy(cwd)
    ensures "cwd" in r ==> r["cwd"] == ToWindowsPath(cwd.value)
    ensures r.Keys <= {"command", "cwd"}
  {
    if Truthy(cwd) then map["command" := command, "cwd" := ToWindowsPath(cwd.value)]
    else map["command" := command]
  }

  /** Text `execute_command` shows for a 200 reply: stdout, then stderr behind a marker,
      each only when non-empty. */
  function CommandOutput(stdout: string, stderr: string): (r: string)
    ensures stderr == "" ==> r == stdout
    ensures stderr != "" ==> r == stdout + "\nERROR OUTPUT:\n" + stderr
  {
    (if stdout != "" then stdout else "") + (if stderr != "" then "\nERROR OUTPUT:\n" + stderr else "")
  }

  // ---------------------------------------------------------------- directory listing

  /** One element of the `contents` array of a `/workspace/list` reply. */
  datatype Entry = Entry(name: string, isDirectory: bool, size: Option<int>)

  /** Python's ordering of strings: lexicographic on code points. */
  predicate LexLe(a: string, b: string)
    decreases |a|
  {
    a == [] || (b != [] && (a[0] < b[0] || (a[0] == b[0] && LexLe(a[1..], b[1..]))))
  }

  lemma {:induction false} LexLeTotal(a: string, b: string)
    ensures LexLe(a, b) || LexLe(b, a)
    decreases |a|
  {
    if a != [] && b != [] && a[0] == b[0] {
      LexLeTotal(a[1..], b[1..]);
    }
  }

  lemma {:induction false} LexLeTransitive(a: string, b: string, c: string)
    requires LexLe(a, b) && LexLe(b, c)
    ensures LexLe(a, c)
    decreases |a|
  {
    if a != [] && a[0] == b[0] && b[0] == c[0] {
      LexLeTransitive(a[1..], b[1..], c[1..]);
    }
  }

  /** First component of the sort key: directories rank 0, files 1. */
  function Rank(e: Entry): int {
    if e.isDirectory then 0 else 1
  }

  /** The key `(0 if dir else 1, name.lower())` compared as Python compares tuples. */
  predicate KeyLe(a: Entry, b: Entry) {
    Rank(a) < Rank(b) || (Rank(a) == Rank(b) && LexLe(ToLower(a.name), ToLower(b.name)))
  }

  lemma KeyLeTotal(a: Entry, b: Entry)
    ensures KeyLe(a, b) || KeyLe(b, a)
  {
    LexLeTotal(ToLower(a.name), ToLower(b.name));
  }

  lemma KeyLeTransitive(a: Entry, b: Entry, c: Entry)
    requires KeyLe(a, b) && KeyLe(b, c)
    ensures KeyLe(a, c)
  {
    if Rank(a) == Rank(b) == Rank(c) {
      LexLeTransitive(ToLower(a.name), ToLower(b.name), ToLower(c.name));
    }
  }

  predicate SortedByKey(s: seq<Entry>) {
    forall i, j :: 0 <= i < j < |s| ==> KeyLe(s[i], s[j])
  }

  /** Places `x` after every element whose key is not greater, which keeps the sort stable. */
  function Insert(x: Entry, s: seq<Entry>): (r: seq<Entry>)
    requires SortedByKey(s)
    ensures multiset(r) == multiset(s) + multiset{x}
    ensures SortedByKey(r)
    ensures |r| == |s| + 1
  {
    if s == [] then [x]
    else if !KeyLe(s[0], x) then
      KeyLeTotal(s[0], x);
      forall j | 0 <= j < |s| ensures KeyLe(x, s[j]) {
        if j > 0 { KeyLeTransitive(x, s[0], s[j]); }
      }
      [x] + s
    else
      assert SortedByKey(s[1..]);
      var t := Insert(x, s[1..]);
      assert s == [s[0]] + s[1..];
      LowerBoundKept(s[0], x, s[1..], t);
      [s[0]] + t
  }

  /** A lower bound of `x` and of every element of `rest` bounds every element of a
      sequence holding exactly those. */
  lemma LowerBoundKept(h: Entry, x: Entry, rest: seq<Entry>, t: seq<Entry>)
    requires KeyLe(h, x) && forall k :: 0 <= k < |rest| ==> KeyLe(h, rest[k])
    requires multiset(t) == multiset(rest) + multiset{x}
    ensures forall j :: 0 <= j < |t| ==> KeyLe(h, t[j])
  {
    forall j | 0 <= j < |t| ensures KeyLe(h, t[j]) {
      assert t[j] in multiset(t);
      if t[j] != x {
        assert t[j] in multiset(rest);
        var k :| 0 <= k < |rest| && rest[k] == t[j];
      }
    }
  }

  /** Python's `sorted` with the listing key: a stable insertion sort. */
  function SortEntries(s: seq<Entry>): (r: seq<Entry>)
    ensures multiset(r) == multiset(s)
    ensures SortedByKey(r)
    ensures |r| == |s|
  {
    if s == [] then []
    else
      var init := s[..|s| - 1];
      assert s == init + [s[|s| - 1]];
      Insert(s[|s| - 1], SortEntries(init))
  }

  /** In any key-sorted listing every directory comes before every file. */
  lemma SortedDirectoriesFirst(s: seq<Entry>, i: int, j: int)
    requires SortedByKey(s)
    requires 0 <= i < |s| && 0 <= j < |s|
    requires s[i].isDirectory && !s[j].isDirectory
    ensures i < j
  {
    assert !KeyLe(s[j], s[i]);
  }

  /** The listing shows every directory before every file. */
  lemma DirectoriesFirst(contents: seq<Entry>, i: int, j: int)
    requires 0 <= i < |contents| && 0 <= j < |contents|
    requires SortEntries(contents)[i].isDirectory && !SortEntries(contents)[j].isDirectory
    ensures i < j
  {
    var s := SortEntries(contents);
    SortedDirectoriesFirst(s, i, j);
  }

  /** Among entries of the same kind, names come in lower-cased lexicographic order. */
  lemma NamesOrderedWithinKind(contents: seq<Entry>, i: int, j: int)
    requires 0 <= i < j < |contents|
    requires SortEntries(contents)[i].isDirectory == SortEntries(contents)[j].isDirectory
    ensures LexLe(ToLower(SortEntries(contents)[i].name), ToLower(SortEntries(contents)[j].name))
  {
    var s := SortEntries(contents);
    assert KeyLe(s[i], s[j]);
  }

  /** The size column: "<size> bytes", or nothing when the size is None. */
  function SizeColumn(e: Entry): (r: string)
    ensures r == "" <==> e.size.None?
  {
    match e.size
    case Some(n) => IntToString(n) + " bytes"
    case None => ""
  }

  function EntryLine(e: Entry): string {
    "  [" + (if e.isDirectory then "DIR" else "FILE") + "] " + e.name + " " + SizeColumn(e) + "\n"
  }

  function Lines(s: seq<Entry>): string {
    if s == [] then "" else EntryLine(s[0]) + Lines(s[1..])
  }

  /** The two header lines of a listing: the directory shown as a Linux path. */
  function ListingHeader(path: string): string {
    "Directory: " + FromWindowsPath(path) + "\n" + "Contents:\n"
  }

  /** The text `list_directory` builds from a 200 reply. */
  function ListingText(path: string, contents: seq<Entry>): (r: string)
    ensures IsPrefix(ListingHeader(path), r)
  {
    PrefixOfConcat(ListingHeader(path), Lines(SortEntries(contents)));
    ListingHeader(path) + Lines(SortEntries(contents))
  }

  /** The number of occurrences of `c` in `s`. */
  function CountChar(s: string, c: char): (n: nat)
    ensures n <= |s|
    ensures n == 0 <==> c !in s
  {
    if s == [] then 0 else (if s[0] == c then 1 else 0) + CountChar(s[1..], c)
  }

  lemma {:induction false} CountCharConcat(a: string, b: string, c: char)
    ensures CountChar(a + b, c) == CountChar(a, c) + CountChar(b, c)
  {
    if a == [] {
      assert a + b == b;
    } else {
      assert (a + b)[1..] == a[1..] + b;
      CountCharConcat(a[1..], b, c);
    }
  }

  lemma {:induction false} IntToStringNoNewline(n: int)
    ensures '\n' !in IntToString(n)
    decreases if n < 0 then 1 - n else n
  {
    if n < 0 {
      IntToStringNoNewline(-n);
    } else if n >= 10 {
      IntToStringNoNewline(n / 10);
    }
  }

  /** An entry whose name holds no line break is printed as exactly one line. */
  lemma EntryLineIsOneLine(e: Entry)
    requires '\n' !in e.name
    ensures CountChar(EntryLine(e), '\n') == 1
    ensures IsPrefix("  [", EntryLine(e)) && EntryLine(e)[|EntryLine(e)| - 1] == '\n'
  {
    var kind := if e.isDirectory then "DIR" else "FILE";
    if e.size.Some? {
      IntToStringNoNewline(e.size.value);
    }
    var body := "  [" + kind + "] " + e.name + " " + SizeColumn(e);
    assert '\n' !in body;
    assert EntryLine(e) == body + "\n";
    CountCharConcat(body, "\n", '\n');
  }

  lemma {:induction false} LinesConcat(a: seq<Entry>, b: seq<Entry>)
    ensures Lines(a + b) == Lines(a) + Lines(b)
  {
    if a == [] {
      assert a + b == b;
    } else {
      assert (a + b)[1..] == a[1..] + b;
      LinesConcat(a[1..], b);
    }
  }

  /** Lines without breaks in their names: one printed line per entry. */
  lemma {:induction false} LinesCount(s: seq<Entry>)
    requires forall k :: 0 <= k < |s| ==> '\n' !in s[k].name
    ensures CountChar(Lines(s), '\n') == |s|
  {
    if s != [] {
      EntryLineIsOneLine(s[0]);
      LinesCount(s[1..]);
      CountCharConcat(EntryLine(s[0]), Lines(s[1..]), '\n');
    }
  }

  /** The `i`-th entry's line sits between the lines of the entries before and after it. */
  lemma LinesAt(s: seq<Entry>, i: int)
    requires 0 <= i < |s|
    ensures Lines(s) == Lines(s[..i]) + EntryLine(s[i]) + Lines(s[i + 1..])
  {
    var rest := s[i..];
    assert s[..i] + rest == s;
    LinesConcat(s[..i], rest);
    assert rest[0] == s[i] && rest[1..] == s[i + 1..];
    var a, e, c := Lines(s[..i]), EntryLine(s[i]), Lines(s[i + 1..]);
    assert Lines(rest) == e + c;
    assert a + (e + c) == a + e + c;
  }

  /** The listing is the header followed by one line per entry in sorted order: the
      `i`-th sorted entry's line sits after the lines of the entries before it. */
  lemma ListingLineAt(path: string, contents: seq<Entry>, i: int)
    requires 0 <= i < |contents|
    ensures var s := SortEntries(contents);
      ListingText(path, contents) ==
        ListingHeader(path) + (Lines(s[..i]) + EntryLine(s[i]) + Lines(s[i + 1..]))
  {
    var s := SortEntries(contents);
    LinesAt(s, i);
    assert ListingText(path, contents) == ListingHeader(path) + Lines(s);
  }

  /** Appending a line break to a text without one gives a single line. */
  lemma OneBreakAtEnd(t: string)
    requires '\n' !in t
    ensures CountChar(t + "\n", '\n') == 1
  {
    CountCharConcat(t, "\n", '\n');
  }

  /** The header is two lines when the shown path holds no line break. */
  lemma HeaderIsTwoLines(path: string)
    requires '\n' !in FromWindowsPath(path)
    ensures CountChar(ListingHeader(path), '\n') == 2
  {
    HeaderLines(FromWindowsPath(path));
  }

  /** The header's two line breaks, for any shown path without one. */
  lemma HeaderLines(p: string)
    requires '\n' !in p
    ensures CountChar("Directory: " + p + "\n" + "Contents:\n", '\n') == 2
  {
    var first := "Directory: " + p;
    assert '\n' !in first by {
      assert forall k :: 0 <= k < |first| ==> first[k] == if k < 11 then "Directory: "[k] else p[k - 11];
    }
    OneBreakAtEnd(first);
    OneBreakAtEnd("Contents:");
    assert "Directory: " + p + "\n" + "Contents:\n" == (first + "\n") + ("Contents:" + "\n");
    CountCharConcat(first + "\n", "Contents:" + "\n", '\n');
  }

  /** Every entry of the sorted listing comes from the reply. */
  lemma SortedNamesFromReply(contents: seq<Entry>)
    requires forall k :: 0 <= k < |contents| ==> '\n' !in contents[k].name
    ensures forall k :: 0 <= k < |SortEntries(contents)| ==> '\n' !in SortEntries(contents)[k].name
  {
    var s := SortEntries(contents);
    forall k | 0 <= k < |s| ensures '\n' !in s[k].name {
      assert s[k] in multiset(contents);
      var j :| 0 <= j < |contents| && contents[j] == s[k];
    }
  }

  /** With no line break in the shown path or in any name, the listing has exactly
      two header lines and one line per entry. */
  lemma ListingLineCount(path: string, contents: seq<Entry>)
    requires '\n' !in FromWindowsPath(path)
    requires forall k :: 0 <= k < |contents| ==> '\n' !in contents[k].name
    ensures CountChar(ListingText(path, contents), '\n') == |contents| + 2
  {
    SortedNamesFromReply(contents);
    LinesCount(SortEntries(contents));
    HeaderIsTwoLines(path);
    CountCharConcat(ListingHeader(path), Lines(SortEntries(contents)), '\n');
  }

  // ---------------------------------------------------------------- main

  /** The parsed command line: `argvLen` counts the program name too. */
  datatype Args = Args(argvLen: nat, check: bool, cmd: Option<string>, read: Option<string>,
                       write: Option<string>, content: Option<string>, list: Option<string>)

  /** A Python string argument is truthy when present and non-empty. */
  predicate Truthy(o: Option<string>) {
    o.Some? && o.value != ""
  }

  /** What `main` does. */
  datatype Action =
    | ConfigError | CheckConnection | RunCommand(command: string) | ReadFile(path: string)
    | WriteFile(path: string, content: string) | ListDirectory(dir: Option<string>) | PrintHelp

  predicate PlaceholderConfig(host: string, key: string) {
    host == "YOUR_WINDOWS_IP_ADDRESS" || key == "YOUR_SECRET_KEY"
  }

  /** The branch `main` takes: the placeholder check first, then the connection check,
      then the first truthy option in the order --cmd, --read, --write with --content,
      --list; help when none applies. */
  function ChooseAction(host: string, key: string, a: Args): (r: Action)
    ensures r.ConfigError? <==> PlaceholderConfig(host, key)
    ensures r.CheckConnection? <==> !PlaceholderConfig(host, key) && (a.argvLen == 1 || a.check)
    ensures SendsRequest(r) || r.PrintHelp? ==> !PlaceholderConfig(host, key) && a.argvLen != 1 && !a.check
    ensures r.RunCommand? <==> SendsRequest(r) && Truthy(a.cmd)
    ensures r.RunCommand? ==> r.command == a.cmd.value
    ensures r.ReadFile? ==> !Truthy(a.cmd) && Truthy(a.read) && r.path == a.read.value
    ensures r.WriteFile? ==> !Truthy(a.cmd) && !Truthy(a.read) && Truthy(a.write) && Truthy(a.content)
    ensures r.WriteFile? ==> r.path == a.write.value && r.content == a.content.value
    ensures r.ListDirectory? ==> Truthy(a.list) && (r.dir.None? <==> a.list.value == ".")
    ensures r.ListDirectory? ==> r.dir.Some? ==> r.dir == a.list
    ensures r.PrintHelp? <==>
      (!PlaceholderConfig(host, key) && a.argvLen != 1 && !a.check &&
       !Truthy(a.cmd) && !Truthy(a.read) && !(Truthy(a.write) && Truthy(a.content)) && !Truthy(a.list))
  {
    if PlaceholderConfig(host, key) then ConfigError
    else if a.argvLen == 1 || a.check then CheckConnection
    else if Truthy(a.cmd) then RunCommand(a.cmd.value)
    else if Truthy(a.read) then ReadFile(a.read.value)
    else if Truthy(a.write) && Truthy(a.content) then WriteFile(a.write.value, a.content.value)
    else if Truthy(a.list) then ListDirectory(if a.list.value == "." then None else a.list)
    else PrintHelp
  }

  /** The branches that send a request to the server. */
  predicate SendsRequest(action: Action) {
    action.RunCommand? || action.ReadFile? || action.WriteFile? || action.ListDirectory?
  }

  /** Exit code of `main`. `connected` is what `check_server_connection` reported;
      `escaped` says that a request branch raised something other than a network error
      (a 200 reply without a key the branch indexes, or one that is not an object),
      which leaves `main` uncaught and makes Python exit with 1. */
  function ExitCode(host: string, key: string, a: Args, connected: bool, escaped: bool): (code: int)
    ensures code == 1 <==>
      (PlaceholderConfig(host, key) || (ChooseAction(host, key, a).CheckConnection? && !connected) ||
       (SendsRequest(ChooseAction(host, key, a)) && escaped))
    ensures code == 0 || code == 1
    ensures ChooseAction(host, key, a).PrintHelp? ==> code == 0
  {
    match ChooseAction(host, key, a)
    case ConfigError => 1
    case CheckConnection => if connected then 0 else 1
    case PrintHelp => 0
    case _ => if escaped then 1 else 0
  }

  /** With the shipped configuration the placeholder check never fires: a failed
      connection check or an exception escaping a request branch are the only ways to
      exit with 1, and an answered request (even an error status) exits 0. */
  lemma ShippedExitCodes(a: Args, connected: bool, escaped: bool)
    ensures !PlaceholderConfig(ServerHost, ApiKey)
    ensures ExitCode(ServerHost, ApiKey, a, connected, escaped) == 1 <==>
      (((a.argvLen == 1 || a.check) && !connected) ||
       (!(a.argvLen == 1 || a.check) && escaped &&
        (Truthy(a.cmd) || Truthy(a.read) || (Truthy(a.write) && Truthy(a.content)) || Truthy(a.list))))
  {
    assert ServerHost[0] != 'Y';
    assert ApiKey[0] != 'Y';
  }

  /** `--list` without a value lists the workspace root: no query string is sent. */
  lemma ListDefaultIsRoot(a: Args)
    requires !PlaceholderConfig(ServerHost, ApiKey)
    requires ChooseAction(ServerHost, ApiKey, a) == ListDirectory(None)
    ensures ListDirectoryUrl(None) == ServerUrl + "/workspace/list"
    ensures a.list == Some(".")
  {
  }
}
