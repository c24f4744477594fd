/** The single-quoting of command lines, against a POSIX shell's splitting of them into words. */
module ShellQuoting {
  import opened Results
  import opened Sequences
  import Tokens

  // ----- the shell -----

  /** Where the splitter stands: between words, in a word, or in a quoted part of one. */
  datatype Mode = Gap | Plain(word: string) | Single(word: string) | Double(word: string)

  /** Unquoted, these end a word, start a pattern or an expansion, or begin a comment: a line
      that has one is more than a list of words. */
  const SPECIAL := "|&;<>()$`*?[#~\n"

  predicate IsBlank(c: char) { c == ' ' || c == '\t' }

  function Emit(mode: Mode): seq<string> { if mode.Plain? then [mode.word] else [] }

  /** The word so far, empty between words. */
  function WordOf(mode: Mode): string { if mode.Gap? then "" else mode.word }

  /** The words of the rest of a line: sections 2.2 and 2.3 of the POSIX.1-2017 Shell Command
      Language, without expansions. None for an unfinished quote or a special character. */
  function Lex(s: string, mode: Mode, done: seq<string>): Option<seq<string>>
    decreases |s|
  {
    if s == "" then
      if mode.Single? || mode.Double? then None else Some(done + Emit(mode))
    else
      var c := s[0];
      match mode
      case Single(w) => if c == '\'' then Lex(s[1..], Plain(w), done) else Lex(s[1..], Single(w + [c]), done)
      case Double(w) =>
        if c == '"' then Lex(s[1..], Plain(w), done)
        else if c == '$' || c == '`' then None
        else if c == '\\' && |s| > 1 && s[1] == '\n' then Lex(s[2..], mode, done)
        else if c == '\\' && |s| > 1 && s[1] in "$`\"\\" then Lex(s[2..], Double(w + [s[1]]), done)
        else Lex(s[1..], Double(w + [c]), done)
      case _ =>
        var w := WordOf(mode);
        if IsBlank(c) then Lex(s[1..], Gap, done + Emit(mode))
        else if c == '\'' then Lex(s[1..], Single(w), done)
        else if c == '"' then Lex(s[1..], Double(w), done)
        else if c == '\\' then
          if |s| == 1 then None
          else if s[1] == '\n' then Lex(s[2..], mode, done)
          else Lex(s[2..], Plain(w + [s[1]]), done)
        else if c in SPECIAL then None
        else Lex(s[1..], Plain(w + [c]), done)
  }

  function Split(line: string): Option<seq<string>> { Lex(line, Gap, []) }

  // ----- the quoter -----

  /** value with every single quote closed, escaped and reopened. */
  function Escaped(value: string): string {
    if value == "" then ""
    else (if value[0] == '\'' then "'\\''" else [value[0]]) + Escaped(value[1..])
  }

  function Quote(value: string): string { "'" + Escaped(value) + "'" }

  function JoinWith(parts: seq<string>, separator: string): string {
    if parts == [] then "" else if |parts| == 1 then parts[0] else parts[0] + separator + JoinWith(parts[1..], separator)
  }

  function Quoted(words: seq<string>): (q: seq<string>)
    ensures |q| == |words| && forall k :: 0 <= k < |q| ==> q[k] == Quote(words[k])
  {
    seq(|words|, k requires 0 <= k < |words| => Quote(words[k]))
  }

  function Join(words: seq<string>): string { JoinWith(Quoted(words), " ") }

  /** Join, and shellQuoteArgv with it: a loop that quotes each word, then one join. */
  method JoinWords(words: seq<string>) returns (line: string)
    ensures line == Join(words)
  {
    var quoted: seq<string> := [];
    for i := 0 to |words|
      invariant quoted == Quoted(words)[..i]
    {
      quoted := quoted + [Quote(words[i])];
    }
    assert quoted == Quoted(words);
    line := JoinWith(quoted, " ");
  }

  // ----- one round of shell parsing gives the words back -----

  lemma Head(c: char, s: string)
    ensures ([c] + s)[0] == c && ([c] + s)[1..] == s
  {}

  lemma LexReopens(w: string, rest: string, done: seq<string>)
    ensures Lex("'\\''" + rest, Single(w), done) == Lex(rest, Single(w + ['\'']), done)
  {
    var s := "'\\''" + rest;
    assert s[1..][2..] == "'" + rest && s[1..][0] == '\\' && s[1..][1] == '\'';
    assert ("'" + rest)[1..] == rest;
    assert Lex(s, Single(w), done) == Lex(s[1..], Plain(w), done);
    assert Lex(s[1..], Plain(w), done) == Lex("'" + rest, Plain(w + ['\'']), done);
  }

  /** Inside single quotes the splitter takes the escaped text as the text. */
  lemma {:induction false} LexEscaped(value: string, w: string, rest: string, done: seq<string>)
    ensures Lex(Escaped(value) + rest, Single(w), done) == Lex(rest, Single(w + value), done)
    decreases |value|
  {
    if value == "" {
      assert Escaped(value) + rest == rest && w + value == w;
    } else {
      var tail := Escaped(value[1..]) + rest;
      LexEscaped(value[1..], w + [value[0]], rest, done);
      MoveHead(w, value);
      if value[0] == '\'' {
        CatThree("'\\''", Escaped(value[1..]), rest);
        LexReopens(w, tail, done);
      } else {
        CatThree([value[0]], Escaped(value[1..]), rest);
        Head(value[0], tail);
      }
    }
  }

  lemma LexQuoted(value: string, rest: string, done: seq<string>)
    ensures Lex(Quote(value) + rest, Gap, done) == Lex(rest, Plain(value), done)
  {
    var s := Quote(value) + rest;
    var inner := Escaped(value) + ("'" + rest);
    assert s[0] == '\'' && s[1..] == inner;
    LexEscaped(value, "", "'" + rest, done);
    assert "" + value == value;
    assert ("'" + rest)[1..] == rest;
  }

  lemma {:induction false} LexJoined(words: seq<string>, done: seq<string>)
    ensures Lex(Join(words), Gap, done) == Some(done + words)
    decreases |words|
  {
    if words == [] {
      assert done + words == done;
    } else if |words| == 1 {
      assert Quote(words[0]) + "" == Quote(words[0]);
      LexQuoted(words[0], "", done);
      assert words == [words[0]];
    } else {
      var tail := Join(words[1..]);
      assert Quoted(words)[1..] == Quoted(words[1..]);
      assert Join(words) == Quote(words[0]) + (" " + tail) by { CatThree(Quote(words[0]), " ", tail); }
      LexQuoted(words[0], " " + tail, done);
      Head(' ', tail);
      LexJoined(words[1..], done + [words[0]]);
      assert done + [words[0]] + words[1..] == done + words;
    }
  }

  /** Joined words survive one round of shell parsing exactly, whatever they contain. */
  lemma SplitJoin(words: seq<string>)
    ensures Split(Join(words)) == Some(words)
  {
    LexJoined(words, []);
    assert [] + words == words;
  }

  /** So different argument lists never give the same line. */
  lemma JoinInjective(a: seq<string>, b: seq<string>)
    requires Join(a) == Join(b)
    ensures a == b
  {
    SplitJoin(a);
    SplitJoin(b);
  }

  // ----- the two hops of an overlay command -----

  /** The words agterm's shell runs for an overlay opened from a host. */
  function OverlayWords(agr: string, host: string, cwd: string, command: seq<string>): seq<string> {
    [agr, "run", host] + (if cwd != "" then ["--cwd", cwd] else []) + ["--", "sh", "-c", JoinWith(command, " ")]
  }

  /** What agr run makes of its arguments: host, directory and program. */
  datatype RunArgs = RunArgs(host: string, dir: string, argv: seq<string>)

  function ParseRunArgs(args: seq<string>): Option<RunArgs> {
    if |args| < 1 || "-" <= args[0] then None
    else
      var hasCwd := |args| >= 3 && args[1] == "--cwd";
      var rest := if hasCwd then args[3..] else args[1..];
      if |rest| < 2 || rest[0] != "--" then None
      else Some(RunArgs(args[0], if hasCwd then args[2] else "", rest[1..]))
  }

  const RUN_SCRIPT := "d=$1; shift; if [ -n \"$d\" ]; then cd \"$d\" || exit 1; fi; exec \"$@\""

  /** The command agr run sends to the host's login shell, when it accepts its arguments. */
  function RemoteLine(run: RunArgs): Option<string> {
    if !Tokens.ValidHost(run.host) || (run.dir != "" && !("/" <= run.dir)) || run.argv == [] || run.argv[0] == "" then None
    else Some(Join(["sh", "-c", RUN_SCRIPT, "sh", run.dir] + run.argv))
  }

  /** What the host's shell makes of the line agr run sends. */
  function SecondHop(run: Option<RunArgs>): Option<seq<string>> {
    if run.None? || RemoteLine(run.value).None? then None else Split(RemoteLine(run.value).value)
  }

  /** What runs on the host: the first shell splits the line agterm was given, agr run is the
      program, and the second shell splits the line it sends. */
  function Arrives(agr: string, line: string): Option<seq<string>> {
    var words := Split(line);
    if words.None? || |words.value| < 2 || words.value[0] != agr || words.value[1] != "run" then None
    else SecondHop(ParseRunArgs(words.value[2..]))
  }

  lemma RemoteArrives(run: RunArgs)
    ensures SecondHop(Some(run))
         == if Tokens.ValidHost(run.host) && (run.dir == "" || "/" <= run.dir) && run.argv != [] && run.argv[0] != ""
            then Some(["sh", "-c", RUN_SCRIPT, "sh", run.dir] + run.argv) else None
  {
    SplitJoin(["sh", "-c", RUN_SCRIPT, "sh", run.dir] + run.argv);
  }

  lemma OverlayRunArgs(agr: string, host: string, cwd: string, command: seq<string>)
    requires !("-" <= host)
    ensures var words := OverlayWords(agr, host, cwd, command);
            && |words| >= 2 && words[0] == agr && words[1] == "run"
            && ParseRunArgs(words[2..]) == Some(RunArgs(host, cwd, ["sh", "-c", JoinWith(command, " ")]))
  {
    var line := JoinWith(command, " ");
    if cwd == "" {
      assert OverlayWords(agr, host, cwd, command) == [agr, "run", host, "--", "sh", "-c", line];
      assert OverlayWords(agr, host, cwd, command)[2..] == [host, "--", "sh", "-c", line];
      assert [host, "--", "sh", "-c", line][1..] == ["--", "sh", "-c", line];
    } else {
      assert OverlayWords(agr, host, cwd, command) == [agr, "run", host, "--cwd", cwd, "--", "sh", "-c", line];
      assert OverlayWords(agr, host, cwd, command)[2..] == [host, "--cwd", cwd, "--", "sh", "-c", line];
      assert [host, "--cwd", cwd, "--", "sh", "-c", line][3..] == ["--", "sh", "-c", line];
    }
    assert ["--", "sh", "-c", line][1..] == ["sh", "-c", line];
  }

  /** Two-hop quoting is lossless. An overlay command line reaches the host's sh -c unchanged,
      behind the script that enters the caller's directory, exactly when the host is a valid SSH
      destination and the directory is absolute or not given; otherwise nothing runs. */
  lemma OverlayReachesHost(agr: string, host: string, cwd: string, command: seq<string>)
    requires host != ""
    ensures Arrives(agr, Join(OverlayWords(agr, host, cwd, command)))
         == if Tokens.ValidHost(host) && (cwd == "" || "/" <= cwd)
            then Some(["sh", "-c", RUN_SCRIPT, "sh", cwd] + ["sh", "-c", JoinWith(command, " ")])
            else None
  {
    var words := OverlayWords(agr, host, cwd, command);
    SplitJoin(words);
    assert words[0] == agr && words[1] == "run" && words[2..][0] == host;
    if "-" <= host {
      assert host[0] == '-';
    } else {
      OverlayRunArgs(agr, host, cwd, command);
      RemoteArrives(RunArgs(host, cwd, ["sh", "-c", JoinWith(command, " ")]));
    }
  }
}
