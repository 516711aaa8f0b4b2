/** The loops of mini-shell/src/parser.c and of the command-string builder in
    mini-shell/src/executor.c, proved against ShellSyntax. */
module Shell {
  import opened Options
  import opened ShellSyntax

  // ---- expand_variables ----

  lemma NameStep(s: string, i: nat, braced: bool, room: nat)
    requires i < |s| && room > 0 && (if braced then s[i] != '}' else NameChar(s[i]))
    ensures NameLength(s[i..], braced, room) == 1 + NameLength(s[i + 1..], braced, room - 1)
  {
    assert s[i..][1..] == s[i + 1..];
  }

  /** The loop that collects a variable name from position start on. */
  method ReadName(token: string, start: nat, braced: bool) returns (name: string, i: nat)
    requires start <= |token|
    ensures i == start + NameLength(token[start..], braced, MAX_NAME) && i <= |token| && name == token[start..i]
  {
    hide NameLength;
    i := start;
    name := "";
    while i < |token| && (if braced then token[i] != '}' else NameChar(token[i])) && |name| < MAX_NAME
      invariant start <= i <= |token| && name == token[start..i] && |name| <= MAX_NAME
      invariant |name| + NameLength(token[i..], braced, MAX_NAME - |name|) == NameLength(token[start..], braced, MAX_NAME)
    {
      NameStep(token, i, braced, MAX_NAME - |name|);
      name := name + [token[i]];
      i := i + 1;
    }
    NameEnd(token[i..], braced, MAX_NAME - |name|);
  }

  lemma NameEnd(s: string, braced: bool, room: nat)
    requires s == [] || room == 0 || (if braced then s[0] == '}' else !NameChar(s[0]))
    ensures NameLength(s, braced, room) == 0
  {
  }

  /** One variable reference: its name, and the position where the loop goes on. */
  method ReadReference(token: string, start: nat) returns (name: string, next: nat)
    requires start + 1 < |token| && token[start] == '$'
    ensures (name, next - start) == Reference(token[start..])
    ensures next > start
  {
    var s := token[start..];
    var i := start + 1;
    if token[i] == '{' {
      i := i + 1;
      assert token[i..] == s[2..];
      name, i := ReadName(token, i, true);
      assert name == s[2..i - start];
      if i < |token| && token[i] == '}' {
        i := i + 1;
      }
    } else {
      assert token[i..] == s[1..];
      name, i := ReadName(token, i, false);
      assert name == s[1..i - start];
      i := i - 1;
    }
    next := i + 1;
  }

  lemma ExpandChar(s: string, env: Environment, used: nat)
    requires s != [] && used < MAX_LINE - 1 && (s[0] != '$' || |s| == 1)
    ensures Expand(s, env, used) == [s[0]] + Expand(s[1..], env, used + 1)
  {
  }

  lemma ExpandEnd(s: string, env: Environment, used: nat)
    requires s == [] || used >= MAX_LINE - 1
    ensures Expand(s, env, used) == []
  {
  }

  lemma DropDrop(s: string, i: nat, n: nat)
    requires i <= |s|
    ensures Drop(s[i..], n) == Drop(s, i + n)
  {
  }

  method ExpandVariables(token: string, env: Environment) returns (result: string)
    ensures result == Expand(token, env, 0)
  {
    hide Expand, Reference, Drop;
    var i := 0;
    result := "";
    DropDrop(token, 0, 0);
    assert Drop(token, 0) == token by { DropIs(token, 0); }
    while i < |token| && |result| < MAX_LINE - 1
      invariant result + Expand(Drop(token, i), env, |result|) == Expand(token, env, 0)
      decreases |token| - i
    {
      DropIs(token, i);
      if token[i] == '$' && i + 1 < |token| {
        ExpandReference(token[i..], env, |result|);
        var name, next := ReadReference(token, i);
        DropDrop(token, i, next - i);
        if name in env && |result| + |env[name]| < MAX_LINE - 1 {
          result := result + env[name];
        }
        i := next;
      } else {
        ExpandChar(token[i..], env, |result|);
        DropIs(token, i + 1);
        assert token[i..][1..] == token[i + 1..];
        result := result + [token[i]];
        i := i + 1;
      }
    }
    DropIs(token, i);
    ExpandEnd(Drop(token, i), env, |result|);
  }

  lemma DropIs(s: string, i: nat)
    ensures Drop(s, i) == if i <= |s| then s[i..] else []
    ensures i >= |s| ==> Drop(s, i) == []
  {
  }

  // ---- tokenize ----

  /** The inner loop of tokenize: one token, with its quotes and escapes undone. */
  method ScanToken(str: string, start: nat) returns (token: string, p: nat)
    requires start <= |str| < MAX_LINE
    ensures start <= p <= |str|
    ensures Scan(str[start..], false, false).0 == token && Scan(str[start..], false, false).1 == str[p..]
  {
    hide Scan;
    p := start;
    token := "";
    var inSingle, inDouble := false, false;
    while p < |str| && (inSingle || inDouble || !Blank(str[p]))
      invariant start <= p <= |str| && |token| <= p
      invariant token + Scan(str[p..], inSingle, inDouble).0 == Scan(str[start..], false, false).0
      invariant Scan(str[p..], inSingle, inDouble).1 == Scan(str[start..], false, false).1
      decreases |str| - p
    {
      ScanStep(str, p, inSingle, inDouble);
      if str[p] == '\'' && !inDouble {
        inSingle := !inSingle;
        p := p + 1;
      } else if str[p] == '"' && !inSingle {
        inDouble := !inDouble;
        p := p + 1;
      } else if str[p] == '\\' && !inSingle && p + 1 < |str| {
        p := p + 1;
        if |token| < MAX_LINE - 1 {
          token := token + [str[p]];
          p := p + 1;
        }
      } else {
        if |token| < MAX_LINE - 1 {
          token := token + [str[p]];
          p := p + 1;
        }
      }
    }
    ScanEnd(str[p..], inSingle, inDouble);
    assert token + "" == token;
  }

  lemma ScanStep(s: string, p: nat, inSingle: bool, inDouble: bool)
    requires p < |s| && (inSingle || inDouble || !Blank(s[p]))
    ensures Scan(s[p..], inSingle, inDouble) ==
            if s[p] == '\'' && !inDouble then Scan(s[p + 1..], !inSingle, inDouble)
            else if s[p] == '"' && !inSingle then Scan(s[p + 1..], inSingle, !inDouble)
            else if s[p] == '\\' && !inSingle && p + 1 < |s| then
              ([s[p + 1]] + Scan(s[p + 2..], inSingle, inDouble).0, Scan(s[p + 2..], inSingle, inDouble).1)
            else
              ([s[p]] + Scan(s[p + 1..], inSingle, inDouble).0, Scan(s[p + 1..], inSingle, inDouble).1)
  {
    assert s[p..][1..] == s[p + 1..];
    assert p + 1 < |s| ==> s[p..][2..] == s[p + 2..];
  }

  lemma ScanEnd(s: string, inSingle: bool, inDouble: bool)
    requires s == [] || (!inSingle && !inDouble && Blank(s[0]))
    ensures Scan(s, inSingle, inDouble) == ("", s)
  {
  }

  method SkipBlanksFrom(str: string, start: nat) returns (p: nat)
    requires start <= |str|
    ensures start <= p <= |str| && str[p..] == SkipBlanks(str[start..])
  {
    p := start;
    while p < |str| && Blank(str[p])
      invariant start <= p <= |str| && SkipBlanks(str[p..]) == SkipBlanks(str[start..])
    {
      assert str[p..][1..] == str[p + 1..];
      p := p + 1;
    }
  }

  /** One turn of the outer loop of tokenize, behind the words found so far. */
  lemma TokensStep(argv: seq<string>, s: string, env: Environment, room: nat)
    requires s != [] && room > 0
    ensures SkipBlanks(s) == [] ==> argv + Tokens(s, env, room) == argv
    ensures SkipBlanks(s) != [] ==>
              var (token, rest) := Scan(SkipBlanks(s), false, false);
              && |rest| < |s|
              && (token == [] ==> Tokens(s, env, room) == Tokens(rest, env, room))
              && (token != [] ==> argv + Tokens(s, env, room) == argv + [Expand(token, env, 0)] + Tokens(rest, env, room - 1))
  {
    hide SkipBlanks, Scan, Expand;
    if SkipBlanks(s) == [] {
      assert argv + [] == argv;
    }
  }

  lemma TokensEnd(s: string, env: Environment, room: nat)
    requires s == [] || room == 0
    ensures Tokens(s, env, room) == []
  {
  }

  method Tokenize(str: string, env: Environment) returns (argv: seq<string>)
    requires |str| < MAX_LINE
    ensures argv == Tokens(str, env, MAX_ARGS - 1) && |argv| < MAX_ARGS
  {
    hide Tokens, SkipBlanks, Scan, Expand;
    argv := [];
    var p := 0;
    assert str[0..] == str;
    while p < |str| && |argv| < MAX_ARGS - 1
      invariant p <= |str| && |argv| < MAX_ARGS
      invariant argv + Tokens(str[p..], env, MAX_ARGS - 1 - |argv|) == Tokens(str, env, MAX_ARGS - 1)
      decreases |str| - p
    {
      TokensStep(argv, str[p..], env, MAX_ARGS - 1 - |argv|);
      var start := SkipBlanksFrom(str, p);
      if start == |str| {
        return;
      }
      var token, next := ScanToken(str, start);
      p := next;
      if |token| > 0 {
        var expanded := ExpandVariables(token, env);
        argv := argv + [expanded];
      }
    }
    TokensEnd(str[p..], env, MAX_ARGS - 1 - |argv|);
  }

  // ---- parse_redirections ----

  /** Compacts the words in place and collects the redirections. */
  method ParseRedirections(argv: array<string>, argc: nat) returns (cmd: Command)
    requires argc <= argv.Length
    modifies argv
    ensures cmd == Redirected(old(argv[..argc]), NOTHING)
    ensures |cmd.argv| <= argc && argv[..|cmd.argv|] == cmd.argv
  {
    hide Redirected;
    ghost var args := argv[..argc];
    var count, i := 0, 0;
    var input: Option<string>, output: Option<string>, append := None, None, false;
    assert args[0..] == args && argv[..0] == [];
    while i < argc
      invariant count <= i <= argc
      invariant forall k :: i <= k < argc ==> argv[k] == args[k]
      invariant Redirected(args[i..], Command(argv[..count], input, output, append, false)) == Redirected(args, NOTHING)
      decreases argc - i
    {
      RedirectedStep(args, i, Command(argv[..count], input, output, append, false));
      if argv[i] == "<" && i + 1 < argc {
        i := i + 1;
        input := Some(argv[i]);
      } else if argv[i] == ">>" && i + 1 < argc {
        i := i + 1;
        output := Some(argv[i]);
        append := true;
      } else if argv[i] == ">" && i + 1 < argc {
        i := i + 1;
        output := Some(argv[i]);
        append := false;
      } else {
        ghost var before := argv[..count];
        argv[count] := argv[i];
        count := count + 1;
        assert argv[..count] == before + [args[i]];
      }
      i := i + 1;
    }
    RedirectedEnd(args[i..], Command(argv[..count], input, output, append, false));
    cmd := Command(argv[..count], input, output, append, false);
  }

  lemma RedirectedStep(args: seq<string>, i: nat, cmd: Command)
    requires i < |args|
    ensures Redirected(args[i..], cmd) ==
            if args[i] == "<" && i + 1 < |args| then Redirected(args[i + 2..], cmd.(input := Some(args[i + 1])))
            else if args[i] == ">>" && i + 1 < |args| then
              Redirected(args[i + 2..], cmd.(output := Some(args[i + 1]), append := true))
            else if args[i] == ">" && i + 1 < |args| then
              Redirected(args[i + 2..], cmd.(output := Some(args[i + 1]), append := false))
            else Redirected(args[i + 1..], cmd.(argv := cmd.argv + [args[i]]))
  {
    assert args[i..][1..] == args[i + 1..];
    assert i + 1 < |args| ==> args[i..][2..] == args[i + 2..];
  }

  lemma RedirectedEnd(args: seq<string>, cmd: Command)
    requires args == []
    ensures Redirected(args, cmd) == cmd
  {
  }

  // ---- parse_line ----

  method TrimBlanks(s: string) returns (t: string)
    ensures t == TrimEnd(s)
  {
    t := s;
    while |t| > 0 && Blank(t[|t| - 1])
      invariant t <= s && TrimEnd(t) == TrimEnd(s)
    {
      t := t[..|t| - 1];
    }
  }

  lemma SegmentsStep(s: string, i: nat)
    requires i <= |s|
    ensures i == |s| ==> Segments(s[i..]) == []
    ensures i < |s| && s[i] == '|' ==> Segments(s[i..]) == Segments(s[i + 1..])
    ensures i < |s| && s[i] != '|' ==>
              var j := i + Upto(s[i..]);
              j <= |s| && Segments(s[i..]) == [s[i..j]] + Segments(s[j..])
  {
    hide Upto;
    if i < |s| {
      assert s[i..][1..] == s[i + 1..];
      var n := Upto(s[i..]);
      assert s[i..][..n] == s[i..i + n] && s[i..][n..] == s[i + n..];
    }
  }

  /** strpbrk: the end of the segment that starts at i. */
  method FindBar(s: string, i: nat) returns (j: nat)
    requires i <= |s|
    ensures j == i + Upto(s[i..]) && (i < |s| && s[i] != '|' ==> j > i)
  {
    j := i;
    while j < |s| && s[j] != '|'
      invariant i <= j <= |s| && j - i + Upto(s[j..]) == Upto(s[i..])
    {
      assert s[j..][1..] == s[j + 1..];
      j := j + 1;
    }
  }

  /** strtok_r with "|": the next nonempty piece, if there is one. */
  method NextSegment(s: string) returns (found: bool, segment: string, rest: string)
    ensures Segments(s) == if found then [segment] + Segments(rest) else []
    ensures |segment| + |rest| <= |s| && (found ==> segment != [])
  {
    hide Segments, Upto;
    var i := 0;
    assert s[0..] == s;
    while i < |s| && s[i] == '|'
      invariant i <= |s| && Segments(s[i..]) == Segments(s)
    {
      SegmentsStep(s, i);
      i := i + 1;
    }
    SegmentsStep(s, i);
    found, segment, rest := i < |s|, "", "";
    if found {
      var j := FindBar(s, i);
      segment, rest := s[i..j], s[j..];
    }
  }

  /** What a segment contributes: no command, or one. */
  ghost function Contribution(segment: string, env: Environment): (cs: seq<Command>)
    ensures |cs| <= 1
  {
    var args := Tokens(segment, env, MAX_ARGS - 1);
    if args == [] then [] else [Redirected(args, NOTHING)]
  }

  lemma CommandsStep(before: seq<Command>, segment: string, rest: seq<string>, env: Environment, room: nat)
    requires room > 0
    ensures var cs := Contribution(segment, env);
            before + Commands([segment] + rest, env, room) == before + cs + Commands(rest, env, room - |cs|)
  {
    hide Tokens, Redirected;
    assert ([segment] + rest)[1..] == rest;
  }

  lemma CommandsEnd(segments: seq<string>, env: Environment, room: nat)
    requires segments == [] || room == 0
    ensures Commands(segments, env, room) == []
  {
  }

  /** What one segment adds to the pipeline. */
  method ParseSegment(segment: string, env: Environment) returns (cs: seq<Command>)
    requires |segment| < MAX_LINE
    ensures cs == Contribution(segment, env)
  {
    hide Tokens, Redirected;
    cs := [];
    var args := Tokenize(segment, env);
    if |args| > 0 {
      var argv := new string[|args|](i requires 0 <= i < |args| => args[i]);
      assert argv[..|args|] == args;
      var cmd := ParseRedirections(argv, |args|);
      cs := [cmd];
    }
  }

  ghost function Ahead(found: bool, segment: string, rest: string): seq<string> {
    if found then [segment] + Segments(rest) else []
  }

  /** The loop over the segments. */
  method ParseSegments(body: string, env: Environment) returns (commands: seq<Command>)
    requires |body| < MAX_LINE
    ensures commands == Commands(Segments(body), env, MAX_PIPES)
  {
    hide Commands, Segments, Contribution;
    commands := [];
    var found, segment, rest := NextSegment(body);
    while found && |commands| < MAX_PIPES
      invariant |commands| <= MAX_PIPES && |segment| + |rest| < MAX_LINE && (found ==> segment != [])
      invariant commands + Commands(Ahead(found, segment, rest), env, MAX_PIPES - |commands|)
             == Commands(Segments(body), env, MAX_PIPES)
      decreases if found then |segment| + |rest| else 0
    {
      CommandsStep(commands, segment, Segments(rest), env, MAX_PIPES - |commands|);
      var cs := ParseSegment(segment, env);
      ghost var after := Segments(rest);
      commands := commands + cs;
      found, segment, rest := NextSegment(rest);
      assert Ahead(found, segment, rest) == after;
    }
    CommandsEnd(Ahead(found, segment, rest), env, MAX_PIPES - |commands|);
  }

  method ParseLine(line: string, env: Environment) returns (code: int, pipeline: Pipeline)
    requires |line| < MAX_LINE
    ensures code == if Parse(line, env).Some? then 0 else -1
    ensures code == 0 ==> Parse(line, env) == Some(pipeline)
  {
    hide Commands, Segments;
    var copy, background := line, false;
    var trimmed := TrimBlanks(copy);
    if |trimmed| > 0 && trimmed[|trimmed| - 1] == '&' {
      background := true;
      copy := TrimBlanks(trimmed[..|trimmed| - 1]);
    }
    var commands := ParseSegments(copy, env);
    if |commands| > 0 {
      commands := commands[|commands| - 1 := commands[|commands| - 1].(background := background)];
    }
    pipeline := Pipeline(commands, background);
    code := if |commands| == 0 then -1 else 0;
  }

  // ---- the command string ----

  function WordsFrom(ws: seq<string>, j: nat): string {
    if j == 0 then Words(ws) else if j < |ws| then " " + Words(ws[j..]) else ""
  }

  function BarsFrom(cs: seq<Command>, i: nat): string {
    if i == 0 then Bars(cs) else if i < |cs| then " | " + Bars(cs[i..]) else ""
  }

  lemma WordsFromStep(ws: seq<string>, j: nat)
    requires j < |ws|
    ensures WordsFrom(ws, j) == (if j > 0 then " " else "") + ws[j] + WordsFrom(ws, j + 1)
  {
    assert ws[0..] == ws;
    assert ws[j..][1..] == ws[j + 1..];
  }

  lemma BarsFromStep(cs: seq<Command>, i: nat)
    requires i < |cs|
    ensures BarsFrom(cs, i) == (if i > 0 then " | " else "") + Words(cs[i].argv) + BarsFrom(cs, i + 1)
  {
    assert cs[0..] == cs;
    assert cs[i..][1..] == cs[i + 1..];
  }

  /** strncat into a buffer of MAX_LINE. */
  function Strncat(s: string, t: string): (r: string)
    requires |s| < MAX_LINE
    ensures s <= r <= s + t && (r == s + t || |r| == 4095)
  {
    var room := MAX_LINE - |s| - 1;
    s + if |t| <= room then t else t[..room]
  }

  /** The words of one command; `rest` is what the string will end with. */
  method AppendWords(s: string, ws: seq<string>, ghost rest: string) returns (r: string)
    requires |s + Words(ws) + rest| < MAX_LINE
    ensures r == s + Words(ws)
  {
    hide WordsFrom;
    r := s;
    WordsFromEnds(ws);
    for j := 0 to |ws|
      invariant r + WordsFrom(ws, j) == s + Words(ws)
    {
      WordsFromStep(ws, j);
      ghost var all := r + WordsFrom(ws, j);
      if j > 0 {
        r := r + " ";
      }
      assert all == r + (ws[j] + WordsFrom(ws, j + 1));
      r := Strncat(r, ws[j]);
    }
  }

  lemma WordsFromEnds(ws: seq<string>)
    ensures WordsFrom(ws, 0) == Words(ws) && WordsFrom(ws, |ws|) == ""
  {
  }

  lemma BarsFromEnds(cs: seq<Command>)
    ensures BarsFrom(cs, 0) == Bars(cs) && BarsFrom(cs, |cs|) == ""
  {
  }

  /** The string that executor_run records for a job, when it fits its buffer. */
  method CommandString(p: Pipeline) returns (s: string)
    requires |Print(p)| < MAX_LINE
    ensures s == Print(p)
  {
    hide BarsFrom, Words, Bars;
    s := "";
    var cs := p.commands;
    BarsFromEnds(cs);
    for i := 0 to |cs|
      invariant s + BarsFrom(cs, i) == Bars(cs)
    {
      BarsFromStep(cs, i);
      ghost var all := s + BarsFrom(cs, i);
      if i > 0 {
        s := s + " | ";
      }
      assert all == s + Words(cs[i].argv) + BarsFrom(cs, i + 1);
      s := AppendWords(s, cs[i].argv, BarsFrom(cs, i + 1));
    }
    if p.background {
      s := Strncat(s, " &");
    }
  }
}
