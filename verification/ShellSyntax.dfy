/** What mini-shell/src/parser.c makes of a line, and the command string that
    mini-shell/src/executor.c prints for a pipeline. */
module ShellSyntax {
  import opened Options

  const MAX_LINE := 4096
  const MAX_ARGS := 256
  const MAX_PIPES := 16
  const MAX_NAME := 255    // sizeof(var_name) - 1

  type Environment = map<string, string>

  datatype Command = Command(
    argv: seq<string>,
    input: Option<string>,
    output: Option<string>,
    append: bool,
    background: bool)

  datatype Pipeline = Pipeline(commands: seq<Command>, background: bool)

  predicate Blank(c: char) { c == ' ' || c == '\t' }

  // ---- variables ----

  predicate NameChar(c: char) {
    'A' <= c <= 'Z' || 'a' <= c <= 'z' || '0' <= c <= '9' || c == '_'
  }

  /** The characters of a variable name at the front of s: up to a closing brace, or as
      long as they are letters, digits and underscores; never more than `room`. */
  function NameLength(s: string, braced: bool, room: nat): (n: nat)
    ensures n <= |s| && n <= room
  {
    if s == [] || room == 0 || (if braced then s[0] == '}' else !NameChar(s[0])) then 0
    else 1 + NameLength(s[1..], braced, room - 1)
  }

  /** A variable reference at the front of s: its name, and where reading goes on. */
  function Reference(s: string): (r: (string, nat))
    requires |s| > 1 && s[0] == '$'
    ensures 0 < r.1
  {
    if s[1] == '{' then
      var n := 2 + NameLength(s[2..], true, MAX_NAME);
      (s[2..n], if n < |s| && s[n] == '}' then n + 2 else n + 1)
    else
      var n := 1 + NameLength(s[1..], false, MAX_NAME);
      (s[1..n], n)
  }

  function Drop(s: string, n: nat): string { if n <= |s| then s[n..] else [] }

  /** The text put in for a name, when `used` characters are already written. */
  function Value(env: Environment, name: string, used: nat): string {
    if name in env && used + |env[name]| < MAX_LINE - 1 then env[name] else []
  }

  /** expand_variables, with `used` characters already written. */
  function Expand(s: string, env: Environment, used: nat): string
    decreases |s|
  {
    if s == [] || used >= MAX_LINE - 1 then []
    else if s[0] == '$' && |s| > 1 then
      var (name, next) := Reference(s);
      var value := Value(env, name, used);
      value + Expand(Drop(s, next), env, used + |value|)
    else [s[0]] + Expand(s[1..], env, used + 1)
  }

  // ---- words ----

  function SkipBlanks(s: string): (r: string)
    ensures |r| <= |s| && (r != [] ==> !Blank(r[0]))
  {
    if s != [] && Blank(s[0]) then SkipBlanks(s[1..]) else s
  }

  /** The token at the front of s and what follows it, from inside these quotes. */
  function Scan(s: string, inSingle: bool, inDouble: bool): (r: (string, string))
    ensures |r.1| <= |s|
    ensures s != [] && (inSingle || inDouble || !Blank(s[0])) ==> |r.1| < |s|
    decreases |s|
  {
    if s == [] || (!inSingle && !inDouble && Blank(s[0])) then ("", s)
    else if s[0] == '\'' && !inDouble then Scan(s[1..], !inSingle, inDouble)
    else if s[0] == '"' && !inSingle then Scan(s[1..], inSingle, !inDouble)
    else if s[0] == '\\' && !inSingle && |s| > 1 then
      var (token, rest) := Scan(s[2..], inSingle, inDouble);
      ([s[1]] + token, rest)
    else
      var (token, rest) := Scan(s[1..], inSingle, inDouble);
      ([s[0]] + token, rest)
  }

  /** tokenize, with room for so many more words. */
  function Tokens(s: string, env: Environment, room: nat): seq<string>
    decreases |s|
  {
    if s == [] || room == 0 then []
    else
      var t := SkipBlanks(s);
      if t == [] then []
      else
        var (token, rest) := Scan(t, false, false);
        if token == [] then Tokens(rest, env, room)
        else [Expand(token, env, 0)] + Tokens(rest, env, room - 1)
  }

  // ---- commands ----

  /** parse_redirections: what the remaining words add to a command. */
  function Redirected(args: seq<string>, cmd: Command): Command
    decreases |args|
  {
    if args == [] then cmd
    else if args[0] == "<" && |args| > 1 then Redirected(args[2..], cmd.(input := Some(args[1])))
    else if args[0] == ">>" && |args| > 1 then Redirected(args[2..], cmd.(output := Some(args[1]), append := true))
    else if args[0] == ">" && |args| > 1 then Redirected(args[2..], cmd.(output := Some(args[1]), append := false))
    else Redirected(args[1..], cmd.(argv := cmd.argv + [args[0]]))
  }

  const NOTHING := Command([], None, None, false, false)

  /** The characters before the first bar. */
  function Upto(s: string): (n: nat)
    ensures n <= |s| && (n < |s| ==> s[n] == '|')
  {
    if s == [] || s[0] == '|' then 0 else 1 + Upto(s[1..])
  }

  /** What strtok_r yields: the nonempty pieces between bars. */
  function Segments(s: string): seq<string>
    decreases |s|
  {
    if s == [] then []
    else if s[0] == '|' then Segments(s[1..])
    else [s[..Upto(s)]] + Segments(s[Upto(s)..])
  }

  function Commands(segments: seq<string>, env: Environment, room: nat): seq<Command> {
    if segments == [] || room == 0 then []
    else
      var args := Tokens(segments[0], env, MAX_ARGS - 1);
      if args == [] then Commands(segments[1..], env, room)
      else [Redirected(args, NOTHING)] + Commands(segments[1..], env, room - 1)
  }

  // ---- lines ----

  function TrimEnd(s: string): (r: string)
    ensures r <= s && (r != [] ==> !Blank(r[|r| - 1]))
  {
    if s != [] && Blank(s[|s| - 1]) then TrimEnd(s[..|s| - 1]) else s
  }

  predicate Ampersand(line: string) {
    var t := TrimEnd(line);
    t != [] && t[|t| - 1] == '&'
  }

  /** The line without a trailing ampersand. */
  function Body(line: string): string {
    var t := TrimEnd(line);
    if Ampersand(line) then TrimEnd(t[..|t| - 1]) else line
  }

  function MarkLast(cs: seq<Command>, background: bool): seq<Command> {
    if cs == [] then cs else cs[|cs| - 1 := cs[|cs| - 1].(background := background)]
  }

  /** parse_line; None where it returns -1. */
  function Parse(line: string, env: Environment): Option<Pipeline> {
    var cs := Commands(Segments(Body(line)), env, MAX_PIPES);
    if cs == [] then None else Some(Pipeline(MarkLast(cs, Ampersand(line)), Ampersand(line)))
  }

  // ---- the printer ----

  function Words(ws: seq<string>): string {
    if ws == [] then "" else if |ws| == 1 then ws[0] else ws[0] + " " + Words(ws[1..])
  }

  function Bars(cs: seq<Command>): string {
    if cs == [] then "" else if |cs| == 1 then Words(cs[0].argv) else Words(cs[0].argv) + " | " + Bars(cs[1..])
  }

  /** The command string of a job. */
  function Print(p: Pipeline): string { Bars(p.commands) + if p.background then " &" else "" }

  // ---- printing, then parsing ----

  predicate PlainChar(c: char) { c !in {' ', '\t', '\'', '"', '\\', '$', '|', '&'} }

  predicate Operator(w: string) { w == "<" || w == ">" || w == ">>" }

  /** A word that the printer's missing quotes cannot hurt. */
  predicate Readable(w: string) { w != [] && forall i :: 0 <= i < |w| ==> PlainChar(w[i]) }

  ghost predicate ReadableWords(ws: seq<string>) {
    ws != [] && forall i :: 0 <= i < |ws| ==> Readable(ws[i])
  }

  /** A command as its user writes it: its words, then its redirections. */
  function Written(c: Command): seq<string> {
    c.argv
    + (if c.input.Some? then ["<", c.input.value] else [])
    + (if c.output.Some? then [if c.append then ">>" else ">", c.output.value] else [])
  }

  ghost predicate PlainCommand(c: Command) {
    && c.argv != [] && (forall i :: 0 <= i < |c.argv| ==> Readable(c.argv[i]) && !Operator(c.argv[i]))
    && (c.input.Some? ==> Readable(c.input.value))
    && (if c.output.Some? then Readable(c.output.value) else !c.append)
    && |Written(c)| < MAX_ARGS
  }

  /** A pipeline of plain words as the parser builds them. */
  ghost predicate PlainPipeline(p: Pipeline) {
    && 0 < |p.commands| <= MAX_PIPES
    && (forall i :: 0 <= i < |p.commands| ==> PlainCommand(p.commands[i]))
    && (forall i :: 0 <= i < |p.commands| ==> p.commands[i].background == (p.background && i == |p.commands| - 1))
  }

  lemma {:induction false} ExpandPlain(w: string, env: Environment, used: nat)
    requires used + |w| < MAX_LINE && forall i :: 0 <= i < |w| ==> w[i] != '$'
    ensures Expand(w, env, used) == w
  {
    if w == [] {
    } else {
      ExpandPlain(w[1..], env, used + 1);
    }
  }

  lemma {:induction false} ScanPlain(w: string, rest: string)
    requires (forall i :: 0 <= i < |w| ==> PlainChar(w[i])) && (rest != [] ==> Blank(rest[0]))
    ensures Scan(w + rest, false, false) == (w, rest)
  {
    if w == [] {
      assert w + rest == rest;
    } else {
      assert (w + rest)[0] == w[0] && PlainChar(w[0]);
      assert (w + rest)[1..] == w[1..] + rest;
      ScanPlain(w[1..], rest);
      assert [w[0]] + w[1..] == w;
    }
  }

  /** Any number of spaces and tabs. */
  predicate Padding(s: string) { forall i :: 0 <= i < |s| ==> s[i] == ' ' || s[i] == '\t' }

  lemma {:induction false} SkipLead(lead: string, s: string)
    requires Padding(lead) && (s == [] || !Blank(s[0]))
    ensures SkipBlanks(lead + s) == s
  {
    if lead == [] {
      assert lead + s == s;
    } else {
      assert (lead + s)[1..] == lead[1..] + s;
      SkipLead(lead[1..], s);
    }
  }

  /** The first word, in any spelling that the scanner reads as it. */
  lemma TokensFirst(lead: string, spelled: string, w: string, rest: string, env: Environment, room: nat)
    requires Padding(lead) && spelled != [] && !Blank(spelled[0]) && Scan(spelled + rest, false, false) == (w, rest)
    requires 0 < |w| < MAX_LINE && '$' !in w && room > 0
    ensures Tokens(lead + (spelled + rest), env, room) == [w] + Tokens(rest, env, room - 1)
  {
    SkipLead(lead, spelled + rest);
    ExpandPlain(w, env, 0);
    hide SkipBlanks, Scan, Expand, Padding;
  }

  lemma TokensOfPadding(trail: string, env: Environment, room: nat)
    requires Padding(trail)
    ensures Tokens(trail, env, room) == []
  {
    SkipLead(trail, []);
    assert trail + [] == trail;
  }

  lemma WordsOne(lead: string, ws: seq<string>, trail: string)
    requires |ws| == 1
    ensures lead + Words(ws) + trail == lead + (ws[0] + trail) && Words(ws) == ws[0]
  {
  }

  lemma WordsCons(lead: string, ws: seq<string>, trail: string)
    requires |ws| > 1
    ensures lead + Words(ws) + trail == lead + (ws[0] + (" " + Words(ws[1..]) + trail))
    ensures |Words(ws)| == |ws[0]| + 1 + |Words(ws[1..])|
  {
  }

  /** The first so many words. */
  function First<T>(ws: seq<T>, room: nat): seq<T> { if |ws| <= room then ws else ws[..room] }

  /** Words are read back between any blanks, as many as there is room for; the others are
      lost. */
  lemma {:induction false} TokensOfWords(lead: string, ws: seq<string>, trail: string, env: Environment, room: nat)
    requires Padding(lead) && Padding(trail) && ReadableWords(ws) && |Words(ws)| < MAX_LINE
    ensures Tokens(lead + Words(ws) + trail, env, room) == First(ws, room)
    decreases |ws|
  {
    hide Tokens, Words, Scan, Padding;
    assert Readable(ws[0]) && PlainChar(ws[0][0]) && '$' !in ws[0];
    if room == 0 {
      NoRoom(lead + Words(ws) + trail, env);
    } else if |ws| == 1 {
      WordsOne(lead, ws, trail);
      BlankFirst(trail);
      ScanPlain(ws[0], trail);
      TokensFirst(lead, ws[0], ws[0], trail, env, room);
      TokensOfPadding(trail, env, room - 1);
    } else {
      WordsCons(lead, ws, trail);
      Narrow();
      ScanPlain(ws[0], " " + Words(ws[1..]) + trail);
      TokensFirst(lead, ws[0], ws[0], " " + Words(ws[1..]) + trail, env, room);
      TokensOfWords(" ", ws[1..], trail, env, room - 1);
      assert First(ws, room) == [ws[0]] + First(ws[1..], room - 1);
    }
  }

  lemma NoRoom(s: string, env: Environment)
    ensures Tokens(s, env, 0) == []
  {
  }

  lemma BlankFirst(trail: string)
    requires Padding(trail)
    ensures trail != [] ==> Blank(trail[0])
  {
  }

  /** argv has 255 places: a command with more words loses the rest. */
  lemma LongCommand(ws: seq<string>, env: Environment)
    requires ReadableWords(ws) && |Words(ws)| < MAX_LINE && |ws| > 255
    ensures Commands([Words(ws)], env, 16) == [Redirected(ws[..255], NOTHING)]
  {
    hide Tokens, Words, Redirected;
    assert "" + Words(ws) + "" == Words(ws);
    TokensOfWords("", ws, "", env, 255);
    assert [Words(ws)][1..] == [];
  }

  // ---- redirections ----

  /** Words before the first operator are arguments. */
  lemma {:induction false} RedirectedPlain(ws: seq<string>, rest: seq<string>, cmd: Command)
    requires forall i :: 0 <= i < |ws| ==> !Operator(ws[i])
    ensures Redirected(ws + rest, cmd) == Redirected(rest, cmd.(argv := cmd.argv + ws))
    decreases |ws|
  {
    if ws == [] {
      assert ws + rest == rest && cmd.argv + ws == cmd.argv;
    } else {
      assert (ws + rest)[1..] == ws[1..] + rest;
      RedirectedPlain(ws[1..], rest, cmd.(argv := cmd.argv + [ws[0]]));
      assert cmd.argv + [ws[0]] + ws[1..] == cmd.argv + ws;
    }
  }

  /** Each operator takes the word behind it as its file, whatever that is. */
  lemma RedirectedFile(op: string, file: string, rest: seq<string>, cmd: Command)
    requires Operator(op)
    ensures Redirected([op, file] + rest, cmd) ==
            Redirected(rest, if op == "<" then cmd.(input := Some(file))
                             else cmd.(output := Some(file), append := op == ">>"))
  {
    assert ([op, file] + rest)[2..] == rest;
  }

  /** An operator at the end of the line is an argument. */
  lemma DanglingOperator(ws: seq<string>, op: string, cmd: Command)
    requires Operator(op) && forall i :: 0 <= i < |ws| ==> !Operator(ws[i])
    ensures Redirected(ws + [op], cmd) == cmd.(argv := cmd.argv + ws + [op])
  {
    RedirectedPlain(ws, [op], cmd);
  }

  /** The words of a command are read as that command. */
  lemma RedirectedWritten(c: Command)
    requires PlainCommand(c)
    ensures Redirected(Written(c), NOTHING) == c.(background := false)
  {
    hide Redirected;
    var input := if c.input.Some? then ["<", c.input.value] else [];
    var output := if c.output.Some? then [if c.append then ">>" else ">", c.output.value] else [];
    var c1 := NOTHING.(argv := NOTHING.argv + c.argv);
    var c2 := c1.(input := c.input);
    assert Written(c) == c.argv + (input + output) && c1.argv == c.argv;
    RedirectedPlain(c.argv, input + output, NOTHING);
    if c.input.Some? {
      RedirectedFile("<", c.input.value, output, c1);
    } else {
      assert input + output == output;
    }
    assert Redirected(Written(c), NOTHING) == Redirected(output, c2);
    if c.output.Some? {
      assert output == output + [];
      RedirectedFile(if c.append then ">>" else ">", c.output.value, [], c2);
      NoWords(c2.(output := c.output, append := c.append));
    } else {
      NoWords(c2);
    }
  }

  lemma NoWords(cmd: Command)
    ensures Redirected([], cmd) == cmd
  {
  }

  // ---- bars ----

  ghost predicate NoBar(s: string) { forall i :: 0 <= i < |s| ==> s[i] != '|' }

  lemma {:induction false} UptoBar(a: string, b: string)
    requires NoBar(a) && (b == [] || b[0] == '|')
    ensures Upto(a + b) == |a|
  {
    if a == [] {
      assert a + b == b;
    } else {
      assert (a + b)[1..] == a[1..] + b;
      UptoBar(a[1..], b);
    }
  }

  lemma SegmentsFirst(a: string, b: string)
    requires NoBar(a) && a != [] && (b == [] || b[0] == '|')
    ensures Segments(a + b) == [a] + Segments(if b == [] then b else b[1..])
  {
    UptoBar(a, b);
    assert (a + b)[..|a|] == a && (a + b)[|a|..] == b;
  }

  lemma {:induction false} WordsShape(ws: seq<string>)
    requires ReadableWords(ws)
    ensures NoBar(Words(ws)) && Words(ws) != []
    ensures var last := Words(ws)[|Words(ws)| - 1]; PlainChar(last)
    decreases |ws|
  {
    assert Readable(ws[0]);
    if |ws| <= 1 {
    } else {
      WordsShape(ws[1..]);
    }
  }

  lemma {:induction false} BarsShape(cs: seq<Command>)
    requires cs != [] && forall i :: 0 <= i < |cs| ==> ReadableWords(cs[i].argv)
    ensures Bars(cs) != [] && PlainChar(Bars(cs)[|Bars(cs)| - 1])
    decreases |cs|
  {
    WordsShape(cs[0].argv);
    if |cs| <= 1 {
    } else {
      BarsShape(cs[1..]);
    }
  }

  /** What the parser makes of the words of each command. */
  function Parsed(cs: seq<Command>): (r: seq<Command>)
    ensures |r| == |cs|
  {
    seq(|cs|, i requires 0 <= i < |cs| => Redirected(cs[i].argv, NOTHING))
  }

  /** One printed command between its blanks parses to its words. */
  lemma CommandsFirst(lead: string, ws: seq<string>, trail: string, rest: seq<string>, env: Environment, room: nat)
    requires ReadableWords(ws) && |ws| < MAX_ARGS && Padding(lead) && Padding(trail) && |Words(ws)| < MAX_LINE && room > 0
    ensures Commands([lead + Words(ws) + trail] + rest, env, room)
            == [Redirected(ws, NOTHING)] + Commands(rest, env, room - 1)
  {
    hide Tokens, Words, Redirected, Padding;
    TokensOfWords(lead, ws, trail, env, MAX_ARGS - 1);
    assert ([lead + Words(ws) + trail] + rest)[1..] == rest;
  }

  lemma SegmentsOfBars(lead: string, cs: seq<Command>)
    requires Padding(lead) && cs != [] && ReadableWords(cs[0].argv)
    ensures var a := lead + Words(cs[0].argv);
            Segments(lead + Bars(cs)) ==
            if |cs| == 1 then [a + ""] + [] else [a + " "] + Segments(" " + Bars(cs[1..]))
  {
    var a := lead + Words(cs[0].argv);
    WordsShape(cs[0].argv);
    if |cs| == 1 {
      SegmentsFirst(a, "");
      assert a + "" == a == lead + Bars(cs);
    } else {
      SegmentsAtBar(lead, Words(cs[0].argv), Bars(cs[1..]));
    }
  }

  /** " | " read as the end of one segment, the bar, and the start of the next. */
  lemma AroundBar(lead: string, first: string, others: string)
    ensures lead + (first + " | " + others) == (lead + first + " ") + ("| " + others)
    ensures ("| " + others)[1..] == " " + others
  {
  }

  lemma SegmentsAtBar(lead: string, first: string, others: string)
    requires Padding(lead) && first != [] && NoBar(first)
    ensures Segments(lead + (first + " | " + others)) == [lead + first + " "] + Segments(" " + others)
  {
    hide Segments;
    AroundBar(lead, first, others);
    SegmentsFirst(lead + first + " ", "| " + others);
  }

  lemma NoSegments(env: Environment, room: nat)
    ensures Commands([], env, room) == []
  {
  }

  lemma BarsCons(cs: seq<Command>)
    requires cs != []
    ensures |Words(cs[0].argv)| <= |Bars(cs)| && |Bars(cs[1..])| <= |Bars(cs)|
  {
  }

  lemma ParsedCons(cs: seq<Command>)
    requires cs != []
    ensures Parsed(cs) == [Redirected(cs[0].argv, NOTHING)] + Parsed(cs[1..])
    ensures Parsed([]) == []
  {
    hide Redirected;
  }

  lemma {:induction false} CommandsOfBars(lead: string, cs: seq<Command>, env: Environment, room: nat)
    requires Padding(lead) && cs != [] && |Bars(cs)| < MAX_LINE
    requires forall i :: 0 <= i < |cs| ==> ReadableWords(cs[i].argv) && |cs[i].argv| < MAX_ARGS
    ensures Commands(Segments(lead + Bars(cs)), env, room) == First(Parsed(cs), room)
    decreases |cs|
  {
    hide ReadableWords, Segments, Commands, Words, Bars, Parsed, Redirected, Padding;
    var ws, rest := cs[0].argv, cs[1..];
    BarsCons(cs);
    SegmentsOfBars(lead, cs);
    ParsedCons(cs);
    Narrow();
    if room == 0 {
      NoPipes(Segments(lead + Bars(cs)), env);
    } else if rest == [] {
      CommandsFirst(lead, ws, "", [], env, room);
      NoSegments(env, room - 1);
    } else {
      CommandsFirst(lead, ws, " ", Segments(" " + Bars(rest)), env, room);
      CommandsOfBars(" ", rest, env, room - 1);
      assert First(Parsed(cs), room) == [Parsed(cs)[0]] + First(Parsed(rest), room - 1);
    }
  }

  lemma Narrow()
    ensures Padding("") && Padding(" ")
  {
  }

  lemma NoPipes(segments: seq<string>, env: Environment)
    ensures Commands(segments, env, 0) == []
  {
  }

  /** A pipeline has 16 places: the commands behind the sixteenth bar are lost. */
  lemma LongPipeline(cs: seq<Command>, env: Environment)
    requires |cs| > 16 && |Bars(cs)| < MAX_LINE
    requires forall i :: 0 <= i < |cs| ==> ReadableWords(cs[i].argv) && |cs[i].argv| < MAX_ARGS
    ensures var p := Parse(Bars(cs), env);
            p.Some? && p.value == Pipeline(Parsed(cs)[..16], false)
  {
    hide Segments, Commands, Words, Bars, Body, Ampersand, Redirected, Padding;
    Narrow();
    BarsShape(cs);
    BodyOfPrinted(Bars(cs), false);
    assert Bars(cs) + "" == Bars(cs) && "" + Bars(cs) == Bars(cs);
    CommandsOfBars("", cs, env, MAX_PIPES);
    NotBackground(cs[15].argv);
    assert MarkLast(Parsed(cs)[..16], false) == Parsed(cs)[..16];
  }

  /** No command is in the background by its words. */
  lemma NotBackground(ws: seq<string>)
    ensures !Redirected(ws, NOTHING).background
  {
    RedirectedKeeps(ws, NOTHING);
  }

  lemma {:induction false} RedirectedKeeps(ws: seq<string>, cmd: Command)
    ensures Redirected(ws, cmd).background == cmd.background
    decreases |ws|
  {
    if ws == [] {
    } else if ws[0] == "<" && |ws| > 1 {
      RedirectedKeeps(ws[2..], cmd.(input := Some(ws[1])));
    } else if ws[0] == ">>" && |ws| > 1 {
      RedirectedKeeps(ws[2..], cmd.(output := Some(ws[1]), append := true));
    } else if ws[0] == ">" && |ws| > 1 {
      RedirectedKeeps(ws[2..], cmd.(output := Some(ws[1]), append := false));
    } else {
      RedirectedKeeps(ws[1..], cmd.(argv := cmd.argv + [ws[0]]));
    }
  }

  /** The trailing ampersand is the printer's. */
  lemma BodyOfPrinted(body: string, background: bool)
    requires body != [] && PlainChar(body[|body| - 1])
    ensures var line := body + if background then " &" else "";
            Ampersand(line) == background && Body(line) == body
  {
    if background {
      var line := body + " &";
      assert TrimEnd(line) == line;
      assert line[..|line| - 1] == body + " ";
      assert (body + " ")[..|body|] == body;
      assert TrimEnd(body + " ") == TrimEnd(body) == body;
    } else {
      assert body + "" == body;
    }
  }

  lemma WrittenIsReadable(c: Command)
    requires PlainCommand(c)
    ensures ReadableWords(Written(c))
  {
    hide PlainChar;
    OperatorsAreReadable();
  }

  lemma OperatorsAreReadable()
    ensures Readable("<") && Readable(">") && Readable(">>")
  {
  }

  /** The pipeline with the redirections of each command among its words. */
  function Spelled(p: Pipeline): (r: Pipeline)
    ensures |r.commands| == |p.commands| && r.background == p.background
  {
    Pipeline(seq(|p.commands|, i requires 0 <= i < |p.commands| => p.commands[i].(argv := Written(p.commands[i]))),
             p.background)
  }

  /** Write, then parse: every plain pipeline, written with its redirections on a line that
      it fits, comes back whole, in every environment. */
  lemma WriteParse(p: Pipeline, env: Environment)
    requires PlainPipeline(p) && |Print(Spelled(p))| < MAX_LINE
    ensures Parse(Print(Spelled(p)), env) == Some(p)
  {
    hide Segments, Commands, Words, Bars, PlainCommand, Body, Ampersand, Redirected, Written;
    var cs := Spelled(p).commands;
    forall i | 0 <= i < |cs| ensures ReadableWords(cs[i].argv) && |cs[i].argv| < MAX_ARGS
                                     && Redirected(cs[i].argv, NOTHING) == p.commands[i].(background := false) {
      WrittenIsReadable(p.commands[i]);
      WrittenFits(p.commands[i]);
      RedirectedWritten(p.commands[i]);
    }
    BarsShape(cs);
    BodyOfPrinted(Bars(cs), p.background);
    assert "" + Bars(cs) == Bars(cs);
    CommandsOfBars("", cs, env, MAX_PIPES);
    assert MarkLast(Parsed(cs), p.background) == p.commands;
  }

  lemma WrittenFits(c: Command)
    requires PlainCommand(c)
    ensures |Written(c)| < MAX_ARGS
  {
  }

  predicate NotRedirected(c: Command) { c.input == None && c.output == None && !c.append }

  /** Print, then parse: every plain pipeline without redirections whose command string fits
      a line comes back, in every environment. */
  lemma PrintParse(p: Pipeline, env: Environment)
    requires PlainPipeline(p) && |Print(p)| < MAX_LINE
    requires forall i :: 0 <= i < |p.commands| ==> NotRedirected(p.commands[i])
    ensures Parse(Print(p), env) == Some(p)
  {
    hide PlainPipeline, Parse, Print;
    forall i | 0 <= i < |p.commands| ensures Written(p.commands[i]) == p.commands[i].argv {
    }
    assert Spelled(p).commands == p.commands;
    assert Spelled(p) == p;
    WriteParse(p, env);
  }

  // ---- what the printer and the expansion lose ----

  /** A pipeline without its redirections. */
  function Bare(p: Pipeline): (r: Pipeline)
    ensures |r.commands| == |p.commands| && r.background == p.background
    ensures forall i :: 0 <= i < |p.commands| ==> r.commands[i].argv == p.commands[i].argv && NotRedirected(r.commands[i])
  {
    Pipeline(seq(|p.commands|, i requires 0 <= i < |p.commands| =>
                 p.commands[i].(input := None, output := None, append := false)), p.background)
  }

  lemma {:induction false} BarsOfWords(cs: seq<Command>, ds: seq<Command>)
    requires |cs| == |ds| && forall i :: 0 <= i < |cs| ==> cs[i].argv == ds[i].argv
    ensures Bars(cs) == Bars(ds)
    decreases |cs|
  {
    if |cs| <= 1 {
    } else {
      BarsOfWords(cs[1..], ds[1..]);
    }
  }

  /** The command string leaves redirections out, so a pipeline of plain words comes back
      bare, and comes back whole exactly when it had no redirection. */
  lemma PrintParseBare(p: Pipeline, env: Environment)
    requires PlainPipeline(Bare(p)) && |Print(p)| < MAX_LINE
    ensures Parse(Print(p), env) == Some(Bare(p))
    ensures Parse(Print(p), env) == Some(p) <==>
            forall i :: 0 <= i < |p.commands| ==> NotRedirected(p.commands[i])
  {
    hide PlainPipeline, Parse, Bars;
    BarsOfWords(p.commands, Bare(p).commands);
    PrintParse(Bare(p), env);
    if Bare(p) == p {
      forall i | 0 <= i < |p.commands| ensures p.commands[i] == Bare(p).commands[i] {
      }
    }
  }

  /** The text that stands for a name behind `used` characters: its value, if it is set
      and fits the buffer. */
  lemma ValueIs(env: Environment, name: string, used: nat)
    ensures Value(env, name, used) == if name in env && used + |env[name]| <= 4094 then env[name] else ""
  {
  }

  /** ${NAME} is its value, and swallows the character after its brace. */
  lemma BraceSwallows(name: string, c: char, rest: string, env: Environment, used: nat)
    requires |name| <= MAX_NAME && '}' !in name && used < MAX_LINE - 1
    ensures var value := if name in env && used + |env[name]| <= 4094 then env[name] else "";
            Expand("${" + name + "}" + [c] + rest, env, used) == value + Expand(rest, env, used + |value|)
  {
    hide Expand, Reference, Drop, Value;
    BracedReference(name, c, rest);
    ExpandReference("${" + name + "}" + [c] + rest, env, used);
    ValueIs(env, name, used);
  }

  /** A digit, a letter or an underscore. */
  predicate Alphanumeric(c: char) {
    var n := c as int;
    48 <= n <= 57 || 65 <= n <= 90 || 97 <= n <= 122 || n == 95
  }

  /** $NAME is the value of the longest name that can be read, up to 255 characters. */
  lemma NameExpands(name: string, rest: string, env: Environment, used: nat)
    requires |name| <= 255 && used < MAX_LINE - 1 && (forall i :: 0 <= i < |name| ==> Alphanumeric(name[i]))
    requires |name| < 255 ==> rest == [] || !Alphanumeric(rest[0])
    requires name == [] ==> rest != [] && rest[0] != '{'
    ensures var value := if name in env && used + |env[name]| <= 4094 then env[name] else "";
            Expand("$" + name + rest, env, used) == value + Expand(rest, env, used + |value|)
  {
    hide Expand, Reference, Drop, Value, Alphanumeric;
    BareReference(name, rest);
    ExpandReference("$" + name + rest, env, used);
    ValueIs(env, name, used);
  }

  lemma BareReference(name: string, rest: string)
    requires |name| <= 255 && (forall i :: 0 <= i < |name| ==> Alphanumeric(name[i]))
    requires |name| < 255 ==> rest == [] || !Alphanumeric(rest[0])
    requires name == [] ==> rest != [] && rest[0] != '{'
    ensures var s := "$" + name + rest;
            Reference(s).0 == name && Drop(s, Reference(s).1) == rest
  {
    hide NameLength;
    var s := "$" + name + rest;
    BareName(name, rest, MAX_NAME);
    assert s[1..] == name + rest;
    assert s[1] == (name + rest)[0] != '{';
    assert s[1..1 + |name|] == name;
    assert s[1 + |name|..] == rest;
  }

  lemma {:induction false} BareName(name: string, rest: string, room: nat)
    requires |name| <= room && (forall i :: 0 <= i < |name| ==> Alphanumeric(name[i]))
    requires |name| < room ==> rest == [] || !Alphanumeric(rest[0])
    ensures NameLength(name + rest, false, room) == |name|
  {
    if name == [] {
      assert name + rest == rest;
    } else {
      assert (name + rest)[1..] == name[1..] + rest;
      assert Alphanumeric(name[0]);
      BareName(name[1..], rest, room - 1);
    }
  }

  lemma ExpandReference(s: string, env: Environment, used: nat)
    requires |s| > 1 && s[0] == '$' && used < MAX_LINE - 1
    ensures var value := Value(env, Reference(s).0, used);
            Expand(s, env, used) == value + Expand(Drop(s, Reference(s).1), env, used + |value|)
  {
    hide Reference, Value;
  }

  lemma BracedReference(name: string, c: char, rest: string)
    requires |name| <= MAX_NAME && '}' !in name
    ensures var s := "${" + name + "}" + [c] + rest;
            Reference(s).0 == name && Drop(s, Reference(s).1) == rest
  {
    var after := "}" + [c] + rest;
    var s := "${" + name + "}" + [c] + rest;
    BracedName(name, after, MAX_NAME);
    assert s[2..] == name + after;
    assert s[2..2 + |name|] == name;
    assert s[2 + |name|] == '}';
    assert s[|name| + 4..] == rest;
  }

  lemma {:induction false} BracedName(name: string, rest: string, room: nat)
    requires |name| <= room && '}' !in name && rest != [] && rest[0] == '}'
    ensures NameLength(name + rest, true, room) == |name|
  {
    if name == [] {
      assert name + rest == rest;
    } else {
      assert (name + rest)[1..] == name[1..] + rest;
      BracedName(name[1..], rest, room - 1);
    }
  }

  // ---- quoting ----

  /** A word with a backslash before every character. */
  function Escaped(w: string): string {
    if w == [] then [] else ['\\', w[0]] + Escaped(w[1..])
  }

  /** Backslashes protect every character: blanks, quotes and backslashes included. */
  lemma {:induction false} ScanEscaped(w: string, rest: string)
    requires rest != [] ==> Blank(rest[0])
    ensures Scan(Escaped(w) + rest, false, false) == (w, rest)
  {
    var s := Escaped(w) + rest;
    if w == [] {
      assert s == rest;
    } else {
      assert s[0] == '\\' && s[1] == w[0] && s[2..] == Escaped(w[1..]) + rest;
      ScanEscaped(w[1..], rest);
      assert [w[0]] + w[1..] == w;
    }
  }

  lemma {:induction false} InsideSingle(w: string, rest: string)
    requires '\'' !in w
    ensures Scan(w + (['\''] + rest), true, false)
            == (w + Scan(rest, false, false).0, Scan(rest, false, false).1)
  {
    var s := w + (['\''] + rest);
    if w == [] {
      assert s[0] == '\'' && s[1..] == rest;
      assert w + Scan(rest, false, false).0 == Scan(rest, false, false).0;
    } else {
      assert s[0] == w[0] && s[1..] == w[1..] + (['\''] + rest);
      InsideSingle(w[1..], rest);
      assert [w[0]] + (w[1..] + Scan(rest, false, false).0) == w + Scan(rest, false, false).0;
    }
  }

  /** Single quotes protect everything but a single quote. */
  lemma ScanSingleQuoted(w: string, rest: string)
    requires '\'' !in w && (rest != [] ==> Blank(rest[0]))
    ensures Scan(['\''] + (w + (['\''] + rest)), false, false) == (w, rest)
  {
    var s := ['\''] + (w + (['\''] + rest));
    assert s[0] == '\'' && s[1..] == w + (['\''] + rest);
    InsideSingle(w, rest);
    assert w + "" == w;
  }

  /** A word for double quotes: a backslash before every quote and backslash. */
  function InDouble(w: string): string {
    if w == [] then [] else (if w[0] == '"' || w[0] == '\\' then ['\\', w[0]] else [w[0]]) + InDouble(w[1..])
  }

  lemma {:induction false} InsideDouble(w: string, rest: string)
    ensures Scan(InDouble(w) + (['"'] + rest), false, true)
            == (w + Scan(rest, false, false).0, Scan(rest, false, false).1)
  {
    hide Scan;
    var end := Scan(rest, false, false);
    if w == [] {
      assert InDouble(w) + (['"'] + rest) == ['"'] + rest;
      DoubleEnd(rest);
      assert w + end.0 == end.0;
    } else {
      var tail := InDouble(w[1..]) + (['"'] + rest);
      InsideDouble(w[1..], rest);
      DoubleStep(w[0], tail);
      assert [w[0]] + (w[1..] + end.0) == w + end.0;
      assert InDouble(w) + (['"'] + rest) == (if w[0] == '"' || w[0] == '\\' then ['\\', w[0]] else [w[0]]) + tail;
    }
  }

  lemma DoubleEnd(rest: string)
    ensures Scan(['"'] + rest, false, true) == Scan(rest, false, false)
  {
    assert (['"'] + rest)[1..] == rest;
  }

  /** One character between double quotes. */
  lemma DoubleStep(c: char, tail: string)
    ensures var s := (if c == '"' || c == '\\' then ['\\', c] else [c]) + tail;
            Scan(s, false, true) == ([c] + Scan(tail, false, true).0, Scan(tail, false, true).1)
  {
    assert (['\\', c] + tail)[2..] == tail && ([c] + tail)[1..] == tail;
  }

  /** Double quotes protect everything but quotes and backslashes, and these can be
      escaped: every word can be written between them. */
  lemma ScanDoubleQuoted(w: string, rest: string)
    requires rest != [] ==> Blank(rest[0])
    ensures Scan(['"'] + (InDouble(w) + (['"'] + rest)), false, false) == (w, rest)
  {
    var s := ['"'] + (InDouble(w) + (['"'] + rest));
    assert s[0] == '"' && s[1..] == InDouble(w) + (['"'] + rest);
    InsideDouble(w, rest);
    assert w + "" == w;
  }

  /** The line is split at bars before quotes are looked at: a quoted bar still ends the
      command. */
  lemma QuotedBarSplits(a: string, b: string)
    requires NoBar(a) && NoBar(b)
    ensures Segments((['\''] + a) + (['|'] + (b + ['\'']))) == [['\''] + a, b + ['\'']]
  {
    hide Segments;
    var first, second := ['\''] + a, b + ['\''];
    SegmentsFirst(first, ['|'] + second);
    assert (['|'] + second)[1..] == second;
    SegmentsFirst(second, []);
    assert second + [] == second;
    NoSegmentsIn();
  }

  lemma NoSegmentsIn()
    ensures Segments([]) == []
  {
  }

  function EscapedWords(ws: seq<string>): string {
    if ws == [] then "" else if |ws| == 1 then Escaped(ws[0]) else Escaped(ws[0]) + (" " + EscapedWords(ws[1..]))
  }

  /** Within one segment any words without $ can be written: escaped and put one after
      the other, they are read back, whatever characters they hold. */
  lemma {:induction false} TokensOfEscaped(lead: string, ws: seq<string>, env: Environment, room: nat)
    requires Padding(lead) && ws != [] && |ws| <= room
    requires forall i :: 0 <= i < |ws| ==> 0 < |ws[i]| < MAX_LINE && '$' !in ws[i]
    ensures Tokens(lead + EscapedWords(ws), env, room) == ws
    decreases |ws|
  {
    hide Tokens, Scan;
    var rest := if |ws| == 1 then "" else " " + EscapedWords(ws[1..]);
    ScanEscaped(ws[0], rest);
    assert Escaped(ws[0])[0] == '\\';
    EscapedCons(ws);
    TokensFirst(lead, Escaped(ws[0]), ws[0], rest, env, room);
    if |ws| == 1 {
      TokensOfPadding("", env, room - 1);
    } else {
      TokensOfEscaped(" ", ws[1..], env, room - 1);
    }
  }

  lemma EscapedCons(ws: seq<string>)
    requires ws != []
    ensures EscapedWords(ws) == Escaped(ws[0]) + if |ws| == 1 then "" else " " + EscapedWords(ws[1..])
  {
  }

  lemma {:induction false} EscapedShape(w: string)
    requires w != []
    ensures |Escaped(w)| >= 2 && Escaped(w)[|Escaped(w)| - 1] == w[|w| - 1] && Escaped(w)[|Escaped(w)| - 2] == '\\'
    ensures '|' !in w ==> NoBar(Escaped(w))
  {
    if |w| == 1 {
      assert Escaped(w[1..]) == [];
    } else {
      EscapedShape(w[1..]);
    }
  }

  lemma {:induction false} EscapedWordsShape(ws: seq<string>)
    requires ws != [] && forall i :: 0 <= i < |ws| ==> ws[i] != [] && '|' !in ws[i]
    ensures var line, last := EscapedWords(ws), ws[|ws| - 1];
            && |line| >= 2 && line[|line| - 1] == last[|last| - 1] && line[|line| - 2] == '\\' && NoBar(line)
    decreases |ws|
  {
    EscapedShape(ws[0]);
    if |ws| == 1 {
    } else {
      EscapedWordsShape(ws[1..]);
    }
  }

  /** A line that ends in an escaped character other than & is not a background job. */
  lemma NoAmpersand(line: string)
    requires |line| >= 2 && line[|line| - 2] == '\\' && line[|line| - 1] != '&'
    ensures !Ampersand(line) && Body(line) == line
  {
    if Blank(line[|line| - 1]) {
      assert TrimEnd(line) == TrimEnd(line[..|line| - 1]) == line[..|line| - 1];
    }
  }

  /** A whole line: escaped words are read back as one command, unless they hold $ or a
      bar, are redirection operators, or the last one ends in &. These parse_line or
      the expansion acts on, escaped or not. */
  lemma ParseEscaped(ws: seq<string>, env: Environment)
    requires 0 < |ws| < MAX_ARGS
    requires forall i :: 0 <= i < |ws| ==> 0 < |ws[i]| < MAX_LINE && '$' !in ws[i] && '|' !in ws[i] && !Operator(ws[i])
    requires var last := ws[|ws| - 1]; last[|last| - 1] != '&'
    ensures Parse(EscapedWords(ws), env) == Some(Pipeline([NOTHING.(argv := ws)], false))
  {
    hide Tokens, Segments, Commands, EscapedWords, Redirected, Body, Ampersand;
    var line := EscapedWords(ws);
    EscapedWordsShape(ws);
    NoAmpersand(line);
    SegmentsFirst(line, []);
    NoSegmentsIn();
    assert line + [] == line && "" + line == line;
    TokensOfEscaped("", ws, env, MAX_ARGS - 1);
    RedirectedPlain(ws, [], NOTHING);
    NoWords(NOTHING.(argv := NOTHING.argv + ws));
    assert ws + [] == ws && NOTHING.argv + ws == ws;
    OneCommand(line, ws, env);
    var cs := [NOTHING.(argv := ws)];
    assert Segments(line) == [line] + [] == [line];
    assert Commands(Segments(line), env, MAX_PIPES) == cs;
    assert MarkLast(cs, false) == cs;
  }

  lemma OneCommand(segment: string, ws: seq<string>, env: Environment)
    requires Tokens(segment, env, MAX_ARGS - 1) == ws != []
    ensures Commands([segment], env, MAX_PIPES) == [Redirected(ws, NOTHING)]
  {
    hide Tokens, Redirected;
    assert [segment][1..] == [];
  }

  /** A trailing ampersand makes a background job, escaped or not. */
  lemma EscapedAmpersandCuts(line: string)
    requires line != [] && line[|line| - 1] == '&'
    ensures Ampersand(line) && |Body(line)| < |line|
  {
  }
}
