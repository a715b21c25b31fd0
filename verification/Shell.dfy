/** Words for a POSIX shell, and how the shell takes them apart again. */
module Shell {
  import opened Prelude

  // ------------------------------------------------------------------ quoting

  /** Characters that mean nothing to a shell. */
  predicate Safe(c: char) {
    || 'a' <= c <= 'z' || 'A' <= c <= 'Z' || '0' <= c <= '9'
    || c == '-' || c == '_' || c == '.' || c == '/' || c == '=' || c == ':' || c == '@' || c == '%' || c == '+' || c ==
      ','
  }

  predicate AllSafe(s: string) {
    forall i :: 0 <= i < |s| ==> Safe(s[i])
  }

  function EscapeQuotes(s: string): string {
    if s == "" then "" else (if s[0] == '\'' then "'\\''" else [s[0]]) + EscapeQuotes(s[1..])
  }

  /** One word for the shell. */
  function Quote(s: string): string {
    if s != "" && AllSafe(s) then s else "'" + EscapeQuotes(s) + "'"
  }

  // ------------------------------------------------------------------ the shell's side

  /** Blanks separate words (section 2.3 of the POSIX.1-2017 Shell Command Language). */
  predicate IsBlankChar(c: char) {
    c == ' ' || c == '\t'
  }

  /** What the shell, or the system it hands words to, takes as something other than a character of a word. */
  predicate Special(c: char) {
    || c == '|' || c == '&' || c == ';' || c == '<' || c == '>' || c == '(' || c == ')' || c == '$' || c == '`' || c ==
      '"'
    || c == '\n' || c == '*' || c == '?' || c == '[' || c == '#' || c == '~' || c == '{' || c == '}' || c ==
      '!' || c == '\0'
  }

  /**
   The words of a line: backslash keeps the next character (section 2.2.1),
   single quotes keep everything up to the next one (section 2.2.2). `None` when
   anything in the line asks for more than splitting: an operator, an expansion,
   an assignment in front, a quote that never ends, or a NUL.
   */
  function Words(s: string, words: seq<string>, cur: string, inWord: bool): Option<seq<string>>
    decreases |s|, 0
  {
    if s == "" then Some(if inWord then words + [cur] else words)
    else if IsBlankChar(s[0]) then
      if inWord then Words(s[1..], words + [cur], "", false) else Words(s[1..], words, cur, false)
    else if s[0] == '\'' then InQuotes(s[1..], words, cur)
    else if s[0] == '\\' then
      if |s| == 1 || s[1] == '\0' then None
      else if s[1] == '\n' then Words(s[2..], words, cur, inWord)
      else Words(s[2..], words, cur + [s[1]], true)
    else if Special(s[0]) || (s[0] == '=' && words == []) then None
    else Words(s[1..], words, cur + [s[0]], true)
  }

  function InQuotes(s: string, words: seq<string>, cur: string): Option<seq<string>>
    decreases |s|, 1
  {
    if s == "" || s[0] == '\0' then None
    else if s[0] == '\'' then Words(s[1..], words, cur, true)
    else InQuotes(s[1..], words, cur + [s[0]])
  }

  function WordsOf(line: string): Option<seq<string>> {
    Words(line, [], "", false)
  }

  // ------------------------------------------------------------------ a quoted word is one word

  predicate NulFree(s: string) {
    '\0' !in s
  }

  lemma {:induction false} SafeReads(s: string, rest: string, words: seq<string>, cur: string)
    requires AllSafe(s) && s != "" && (words != [] || '=' !in s)
    ensures Words(s + rest, words, cur, cur != "") == Words(rest, words, cur + s, true)
    decreases |s|
  {
    var all := s + rest;
    assert all[0] == s[0] && all[1..] == s[1..] + rest;
    assert Safe(s[0]);
    if |s| == 1 {
      assert s[1..] + rest == rest && cur + [s[0]] == cur + s;
    } else {
      SafeReads(s[1..], rest, words, cur + [s[0]]);
      assert (cur + [s[0]]) + s[1..] == cur + s;
    }
  }

  lemma EscapeOne(c: char, tail: string, words: seq<string>, cur: string)
    requires c != '\0'
    ensures InQuotes((if c == '\'' then "'\\''" else [c]) + tail, words, cur) == InQuotes(tail, words, cur + [c])
  {
    if c == '\'' {
      var all := "'\\''" + tail;
      assert all[1..] == "\\''" + tail;
      var two := "\\''" + tail;
      var three := "'" + tail;
      assert two[0] == '\\' && two[2..] == three && two[1] == '\'';
      assert InQuotes(all, words, cur) == Words(two, words, cur, true);
      assert Words(two, words, cur, true) == Words(three, words, cur + ['\''], true);
      assert three[1..] == tail;
    } else {
      assert ([c] + tail)[1..] == tail;
    }
  }

  lemma {:induction false} QuotedReads(s: string, rest: string, words: seq<string>, cur: string)
    requires NulFree(s)
    ensures InQuotes(EscapeQuotes(s) + "'" + rest, words, cur) == Words(rest, words, cur + s, true)
    decreases |s|
  {
    hide Words;
    if s == "" {
      assert EscapeQuotes(s) + "'" + rest == "'" + rest && ("'" + rest)[1..] == rest && cur + s == cur;
    } else {
      var tail := EscapeQuotes(s[1..]) + "'" + rest;
      assert EscapeQuotes(s) + "'" + rest == (if s[0] == '\'' then "'\\''" else [s[0]]) + tail;
      assert s[0] in s;
      EscapeOne(s[0], tail, words, cur);
      QuotedReads(s[1..], rest, words, cur + [s[0]]);
      assert (cur + [s[0]]) + s[1..] == cur + s;
    }
  }

  /** Whatever it holds, a quoted word reads as that one word. */
  lemma QuoteIsWord(s: string, rest: string, words: seq<string>)
    requires NulFree(s) && words != []
    ensures Words(Quote(s) + rest, words, "", false) == Words(rest, words, s, true)
  {
    hide InQuotes, EscapeQuotes;
    if s != "" && AllSafe(s) {
      SafeReads(s, rest, words, "");
      assert "" + s == s;
    } else {
      var all := Quote(s) + rest;
      assert all[0] == '\'' && all[1..] == EscapeQuotes(s) + "'" + rest;
      QuotedReads(s, rest, words, "");
      assert "" + s == s;
    }
  }

  /** A NUL never gets through, quoted or not. */
  lemma {:induction false} NulStops(s: string, words: seq<string>, cur: string, inWord: bool)
    requires '\0' in s
    ensures Words(s, words, cur, inWord) == None && InQuotes(s, words, cur) == None
    decreases |s|
  {
    if s[0] != '\0' {
      assert '\0' in s[1..];
      if IsBlankChar(s[0]) {
        NulStops(s[1..], words + [cur], "", false);
        NulStops(s[1..], words, cur, false);
      }
      if s[0] == '\'' {
        NulStops(s[1..], words, cur, true);
      }
      if s[0] == '\\' && s[1] != '\0' {
        assert '\0' in s[2..];
        NulStops(s[2..], words, cur, inWord);
        NulStops(s[2..], words, cur + [s[1]], true);
      }
      NulStops(s[1..], words, cur + [s[0]], true);
    }
  }

  lemma NulStaysIn(a: string, b: string, c: string)
    requires '\0' in b
    ensures '\0' in a + b + c
  {
    var i :| 0 <= i < |b| && b[i] == '\0';
    assert (a + b + c)[|a| + i] == '\0';
  }

  lemma {:induction false} EscapeKeepsNul(s: string)
    ensures '\0' in EscapeQuotes(s) <==> '\0' in s
  {
    if s != "" {
      EscapeKeepsNul(s[1..]);
      var e := if s[0] == '\'' then "'\\''" else [s[0]];
      assert EscapeQuotes(s) == e + EscapeQuotes(s[1..]);
      assert '\0' in s <==> s[0] == '\0' || '\0' in s[1..];
    }
  }

  lemma QuoteKeepsNul(s: string)
    ensures '\0' in Quote(s) <==> '\0' in s
  {
    EscapeKeepsNul(s);
  }
}

/** What is typed to have Compose act on a project, and what a shell makes of it. */
module Compose {
  import opened Prelude
  import opened Shell

  datatype Cli = Docker | Podman

  datatype Project = Project(name: string, workingDir: Option<string>, configFiles: seq<string>)

  datatype Action = Up | Down | Restart | Stop | Start | Pull

  function CliName(cli: Cli): string {
    if cli.Docker? then "docker" else "podman"
  }

  function ActionText(a: Action): string {
    match a
    case Up => "up -d"
    case Down => "down"
    case Restart => "restart"
    case Stop => "stop"
    case Start => "start"
    case Pull => "pull"
  }

  function ActionWords(a: Action): seq<string> {
    match a
    case Up => ["up", "-d"]
    case Down => ["down"]
    case Restart => ["restart"]
    case Stop => ["stop"]
    case Start => ["start"]
    case Pull => ["pull"]
  }

  function FilesText(files: seq<string>): string {
    if files == [] then "" else " -f " + Quote(files[0]) + FilesText(files[1..])
  }

  function DirText(dir: Option<string>): string {
    if dir.Some? then " --project-directory " + Quote(dir.value) else ""
  }

  function Command(cli: Cli, p: Project, a: Action): string {
    CliName(cli) + " compose --project-name " + Quote(p.name) + DirText(p.workingDir) + FilesText(p.configFiles) + " "
      + ActionText(a)
  }

  /** The line grown flag by flag. */
  method Build(cli: Cli, p: Project, a: Action) returns (cmd: string)
    ensures cmd == Command(cli, p, a)
  {
    hide Quote, ActionText, CliName;
    cmd := CliName(cli) + " compose --project-name " + Quote(p.name);
    if p.workingDir.Some? {
      cmd := cmd + " --project-directory " + Quote(p.workingDir.value);
    }
    ghost var head := cmd;
    assert head == CliName(cli) + " compose --project-name " + Quote(p.name) + DirText(p.workingDir);
    var i := 0;
    while i < |p.configFiles|
      invariant 0 <= i <= |p.configFiles|
      invariant head + FilesText(p.configFiles) == cmd + FilesText(p.configFiles[i..])
    {
      assert p.configFiles[i..][0] == p.configFiles[i] && p.configFiles[i..][1..] == p.configFiles[i + 1..];
      cmd := cmd + " -f " + Quote(p.configFiles[i]);
      i := i + 1;
    }
    assert p.configFiles[i..] == [];
    assert cmd + "" == cmd;
    cmd := cmd + " ";
    cmd := cmd + ActionText(a);
  }

  // ------------------------------------------------------------------ what it means

  function FilesWords(files: seq<string>): seq<string> {
    if files == [] then [] else ["-f", files[0]] + FilesWords(files[1..])
  }

  function DirWords(dir: Option<string>): seq<string> {
    if dir.Some? then ["--project-directory", dir.value] else []
  }

  /** What was asked for, word by word. */
  function Meaning(cli: Cli, p: Project, a: Action): seq<string> {
    [if cli == Docker then "docker" else "podman", "compose", "--project-name", p.name] + DirWords(p.workingDir)
      + FilesWords(p.configFiles)
      + ActionWords(a)
  }

  predicate NulFreeProject(p: Project) {
    && NulFree(p.name)
    && (p.workingDir.Some? ==> NulFree(p.workingDir.value))
    && (forall i :: 0 <= i < |p.configFiles| ==> NulFree(p.configFiles[i]))
  }

  /** A fixed word after the one being read. */
  lemma FixedWord(w: string, rest: string, words: seq<string>, cur: string)
    requires AllSafe(w) && w != ""
    ensures Words(" " + w + rest, words, cur, true) == Words(rest, words + [cur], w, true)
  {
    hide Safe, AllSafe;
    var all := " " + w + rest;
    assert all[0] == ' ' && all[1..] == w + rest;
    SafeReads(w, rest, words + [cur], "");
    assert "" + w == w;
  }

  /** A quoted value after the word being read. */
  lemma QuotedWord(s: string, rest: string, words: seq<string>, cur: string)
    requires NulFree(s)
    ensures Words(" " + Quote(s) + rest, words, cur, true) == Words(rest, words + [cur], s, true)
  {
    hide Quote;
    var all := " " + Quote(s) + rest;
    assert all[0] == ' ' && all[1..] == Quote(s) + rest;
    QuoteIsWord(s, rest, words + [cur]);
  }

  lemma FlagAndValue(flag: string, s: string, rest: string, words: seq<string>, cur: string)
    requires AllSafe(flag) && flag != "" && NulFree(s)
    ensures Words(" " + flag + " " + Quote(s) + rest, words, cur, true) == Words(rest, words + [cur, flag], s, true)
  {
    hide Words, Quote, AllSafe;
    var after := " " + Quote(s) + rest;
    assert " " + flag + " " + Quote(s) + rest == " " + flag + after;
    FixedWord(flag, after, words, cur);
    QuotedWord(s, rest, words + [cur], flag);
    assert (words + [cur]) + [flag] == words + [cur, flag];
  }

  lemma {:induction false} FilesRead(files: seq<string>, rest: string, words: seq<string>,
      cur: string) returns (w: seq<string>, c: string)
    requires forall i :: 0 <= i < |files| ==> NulFree(files[i])
    ensures w + [c] == words + [cur] + FilesWords(files)
      && Words(FilesText(files) + rest, words, cur, true) == Words(rest, w, c, true)
    decreases |files|
  {
    hide Words, Quote, NulFree;
    w, c := words, cur;
    if files == [] {
      assert "" + rest == rest && words + [cur] == words + [cur] + [];
    } else {
      var tail := FilesText(files[1..]) + rest;
      FlagF();
      assert " -f " == " " + "-f" + " ";
      assert FilesText(files) + rest == " " + "-f" + " " + Quote(files[0]) + tail;
      FlagAndValue("-f", files[0], tail, words, cur);
      forall i | 0 <= i < |files[1..]|
        ensures NulFree(files[1..][i])
      {
        assert files[1..][i] == files[i + 1];
      }
      w, c := FilesRead(files[1..], rest, words + [cur, "-f"], files[0]);
      assert words + [cur, "-f"] + [files[0]] + FilesWords(files[1..]) == words + [cur] + FilesWords(files);
    }
  }

  lemma FlagF()
    ensures AllSafe("-f")
  {
  }

  lemma FlagDirectory()
    ensures AllSafe("--project-directory")
  {
  }

  lemma DirRead(dir: Option<string>, rest: string, words: seq<string>, cur: string) returns (w: seq<string>, c: string)
    requires dir.Some? ==> NulFree(dir.value)
    ensures w + [c] == words + [cur] + DirWords(dir)
      && Words(DirText(dir) + rest, words, cur, true) == Words(rest, w, c, true)
  {
    hide Words, Quote, NulFree;
    w, c := words, cur;
    if dir.Some? {
      w, c := words + [cur, "--project-directory"], dir.value;
      FlagDirectory();
      assert " --project-directory " == " " + "--project-directory" + " ";
      assert DirText(dir) + rest == " " + "--project-directory" + " " + Quote(dir.value) + rest;
      FlagAndValue("--project-directory", dir.value, rest, words, cur);
      assert words + [cur, "--project-directory"] + [dir.value] == words + [cur] + DirWords(dir);
    } else {
      assert "" + rest == rest && words + [cur] == words + [cur] + [];
    }
  }

  lemma CliSafe(cli: Cli)
    ensures AllSafe(CliName(cli)) && CliName(cli) != "" && '=' !in CliName(cli)
  {
  }

  lemma FixedSafe()
    ensures AllSafe("compose") && AllSafe("--project-name") && AllSafe("-d")
  {
  }

  lemma ActionSafe(a: Action)
    ensures forall i :: 0 <= i < |ActionWords(a)| ==> AllSafe(ActionWords(a)[i]) && ActionWords(a)[i] != ""
    ensures " " + ActionText(a) ==
      (if |ActionWords(a)| == 1 then " " + ActionWords(a)[0] else " " + ActionWords(a)[0] + " " + ActionWords(a)[1])
    ensures 1 <= |ActionWords(a)| <= 2
  {
  }

  lemma NothingLeft(words: seq<string>, cur: string)
    ensures Words("", words, cur, true) == Some(words + [cur])
  {
  }

  lemma ActionRead(a: Action, words: seq<string>, cur: string)
    ensures Words(" " + ActionText(a), words, cur, true) == Some(words + [cur] + ActionWords(a))
  {
    hide Words, ActionText, AllSafe;
    ActionSafe(a);
    var ws := ActionWords(a);
    assert AllSafe(ws[0]) && ws[0] != "";
    if |ws| == 1 {
      assert " " + ws[0] + "" == " " + ws[0];
      FixedWord(ws[0], "", words, cur);
      NothingLeft(words + [cur], ws[0]);
      assert ws == [ws[0]];
    } else {
      assert AllSafe(ws[1]) && ws[1] != "";
      assert " " + ws[0] + " " + ws[1] == " " + ws[0] + (" " + ws[1] + "");
      FixedWord(ws[0], " " + ws[1] + "", words, cur);
      FixedWord(ws[1], "", words + [cur], ws[0]);
      NothingLeft(words + [cur] + [ws[0]], ws[1]);
      assert ws == [ws[0], ws[1]];
      assert words + [cur] + [ws[0]] + [ws[1]] == words + [cur] + ws;
    }
  }

  lemma HeadRead(cli: Cli, name: string, rest: string)
    requires NulFree(name)
    ensures Words(CliName(cli) + " compose --project-name " + Quote(name) + rest, [], "", false)
      == Words(rest, [CliName(cli), "compose", "--project-name"], name, true)
  {
    hide Words, Quote, AllSafe, CliName, NulFree;
    CliSafe(cli);
    FixedSafe();
    assert " compose --project-name " == " " + "compose" + (" " + "--project-name" + " ");
    var flag := " " + "--project-name" + " " + Quote(name) + rest;
    var tail := " " + "compose" + flag;
    assert CliName(cli) + " compose --project-name " + Quote(name) + rest == CliName(cli) + tail;
    SafeReads(CliName(cli), tail, [], "");
    assert "" + CliName(cli) == CliName(cli);
    FixedWord("compose", flag, [], CliName(cli));
    FlagAndValue("--project-name", name, rest, [] + [CliName(cli)], "compose");
    assert [] + [CliName(cli)] + ["compose", "--project-name"] == [CliName(cli), "compose", "--project-name"];
  }

  /** The shell reads the line as exactly the words that were meant. */
  lemma CommandReads(cli: Cli, p: Project, a: Action)
    requires NulFreeProject(p)
    ensures WordsOf(Command(cli, p, a)) == Some(Meaning(cli, p, a))
  {
    hide Words, Quote, NulFree, ActionText, DirText, FilesText, DirWords, FilesWords, ActionWords;
    var act := " " + ActionText(a);
    var files := FilesText(p.configFiles) + act;
    var dir := DirText(p.workingDir) + files;
    assert Command(cli, p, a) == CliName(cli) + " compose --project-name " + Quote(p.name) + dir;
    HeadRead(cli, p.name, dir);
    var head := [CliName(cli), "compose", "--project-name"];
    var w, c := DirRead(p.workingDir, files, head, p.name);
    var w2, c2 := FilesRead(p.configFiles, act, w, c);
    ActionRead(a, w2, c2);
    assert head + [p.name] == [CliName(cli), "compose", "--project-name", p.name];
  }

  lemma FilesCons(files: seq<string>)
    requires files != []
    ensures FilesText(files) == " -f " + Quote(files[0]) + FilesText(files[1..])
  {
    hide Quote;
  }

  lemma {:induction false} FilesKeepNul(files: seq<string>, i: nat)
    requires i < |files| && !NulFree(files[i])
    ensures '\0' in FilesText(files)
  {
    hide Quote, FilesText;
    FilesCons(files);
    var front, rest := " -f " + Quote(files[0]), FilesText(files[1..]);
    if i == 0 {
      QuoteKeepsNul(files[0]);
      NulStaysIn(" -f ", Quote(files[0]), rest);
    } else {
      FilesKeepNul(files[1..], i - 1);
      NulStaysIn(front, rest, "");
      assert front + rest + "" == front + rest;
    }
  }

  /** Exactly for projects free of NUL characters, which no command line can carry. */
  lemma CommandMeans(cli: Cli, p: Project, a: Action)
    ensures WordsOf(Command(cli, p, a)) == if NulFreeProject(p) then Some(Meaning(cli, p, a)) else None
  {
    hide Words, Quote, CliName, ActionText, FilesText, Meaning;
    if NulFreeProject(p) {
      CommandReads(cli, p, a);
    } else {
      var cmd := Command(cli, p, a);
      var head := CliName(cli) + " compose --project-name ";
      var act := " " + ActionText(a);
      if !NulFree(p.name) {
        QuoteKeepsNul(p.name);
        NulStaysIn(head, Quote(p.name), DirText(p.workingDir) + FilesText(p.configFiles) + act);
        assert head + Quote(p.name) + (DirText(p.workingDir) + FilesText(p.configFiles) + act) == cmd;
      } else if p.workingDir.Some? && !NulFree(p.workingDir.value) {
        QuoteKeepsNul(p.workingDir.value);
        NulStaysIn(" --project-directory ", Quote(p.workingDir.value), "");
        assert " --project-directory " + Quote(p.workingDir.value) + "" == DirText(p.workingDir);
        NulStaysIn(head + Quote(p.name), DirText(p.workingDir), FilesText(p.configFiles) + act);
        assert head + Quote(p.name) + DirText(p.workingDir) + (FilesText(p.configFiles) + act) == cmd;
      } else {
        var i :| 0 <= i < |p.configFiles| && !NulFree(p.configFiles[i]);
        FilesKeepNul(p.configFiles, i);
        NulStaysIn(head + Quote(p.name) + DirText(p.workingDir), FilesText(p.configFiles), act);
        assert head + Quote(p.name) + DirText(p.workingDir) + FilesText(p.configFiles) + act == cmd;
      }
      NulStops(cmd, [], "", false);
    }
  }
}
