/**
 The files that start WarpHold: a Desktop Entry for the tray and a systemd unit.
 Both embed the path of the program. The readers below follow the Desktop Entry
 Specification (sections "Possible value types" and "The Exec key") and systemd's
 quoting, C-style unescaping and specifier expansion.
 */
module Launching {
  import opened Wrappers

  // ------------------------------------------------------------------ writing

  /** checkBinary */
  predicate BinaryOk(binary: string) {
    binary != "" && '"' !in binary && '\n' !in binary && '\r' !in binary && '=' !in binary
  }

  /** One pass over the text, one replacement for each character. */
  function Replace(s: string, f: char -> string): string {
    if s == "" then "" else f(s[0]) + Replace(s[1..], f)
  }

  function ExecChar(c: char): string {
    match c
    case '\\' => "\\\\\\\\"
    case '$' => "\\\\$"
    case '`' => "\\\\`"
    case '%' => "%%"
    case _ => [c]
  }

  function ExecArg(binary: string): Result<string> {
    if BinaryOk(binary) then Ok("\"" + Replace(binary, ExecChar) + "\"") else Err
  }

  function ScopeArgs(scope: string): Result<string> {
    if scope == "" || scope == "user" then Ok("")
    else if scope == "system" || scope == "app" then Ok(" --scope " + scope)
    else Err
  }

  /** A file of these lines. */
  function Unlines(lines: seq<string>): string {
    if lines == [] then "" else lines[0] + "\n" + Unlines(lines[1..])
  }

  const AUTOSTART_HEAD := ["[Desktop Entry]", "Type=Application", "Name=WarpHold", "Comment=WarpHold backup status"]

  const AUTOSTART_TAIL := ["Terminal=false", "NoDisplay=false", "X-GNOME-Autostart-enabled=true"]

  function AutostartLines(exec: string): seq<string> { AUTOSTART_HEAD + ["Exec=" + exec] + AUTOSTART_TAIL }

  function Autostart(binary: string, scope: string): Result<string> {
    if ExecArg(binary).Err? || ScopeArgs(scope).Err? then Err
    else Ok(Unlines(AutostartLines(ExecArg(binary).value + " agent tray" + ScopeArgs(scope).value)))
  }

  function SystemdChar(c: char): string {
    match c
    case '\\' => "\\\\"
    case '%' => "%%"
    case _ => [c]
  }

  function PercentChar(c: char): string { if c == '%' then "%%" else [c] }

  const UNIT_LIMITS := ["StartLimitIntervalSec=600", "StartLimitBurst=5", "", "[Service]"]

  /** The lines of a unit before its environment. */
  function UnitHead(desc: string): seq<string> {
    ["[Unit]", "Description=" + desc, "After=network-online.target", "Wants=network-online.target"] + UNIT_LIMITS
  }

  const UNIT_RESTART := ["Restart=on-failure", "RestartSec=30", "RestartPreventExitStatus=3"]

  const UNIT_INSTALL := ["Nice=19", "IOSchedulingClass=idle", "", "[Install]"]

  /** The lines of a unit after ExecStart. */
  function UnitRest(wantedBy: string): seq<string> { UNIT_RESTART + UNIT_INSTALL + ["WantedBy=" + wantedBy] }

  function ExecStart(binary: string, args: string): string {
    "\"" + Replace(binary, SystemdChar) + "\" " + args
  }

  predicate StateDirOk(dir: string) { '"' !in dir && '\n' !in dir && '\r' !in dir }

  const STATE_DIR := "WARPHOLD_STATE_DIR="

  /** A quoted assignment; only percent signs are escaped in it. */
  function Assignment(name: string, value: string): string {
    "\"" + (name + Replace(value, PercentChar) + "\"")
  }

  function EnvironmentLines(dir: string): seq<string> {
    if dir == "" then [] else ["Environment=" + Assignment(STATE_DIR, dir)]
  }

  /** unit, with the value of WARPHOLD_STATE_DIR, empty when unset. */
  function Unit(binary: string, desc: string, args: string, wantedBy: string, dir: string): Result<string> {
    if !BinaryOk(binary) || !StateDirOk(dir) then Err
    else Ok(Unlines(UnitHead(desc) + EnvironmentLines(dir) + ["ExecStart=" + ExecStart(binary, args)]
        + UnitRest(wantedBy)))
  }

  // ------------------------------------------------------------------ reading

  function IndexOfNewline(s: string): (i: nat)
    ensures i <= |s| && '\n' !in s[..i] && (i < |s| ==> s[i] == '\n')
  {
    if s == "" || s[0] == '\n' then 0 else 1 + IndexOfNewline(s[1..])
  }

  function Lines(file: string): seq<string>
    decreases |file|
  {
    if file == "" then []
    else
      var i := IndexOfNewline(file);
      if i == |file| then [file] else [file[..i]] + Lines(file[i + 1..])
  }

  predicate HasKey(line: string, key: string) { key + "=" <= line }

  predicate IsHeader(line: string) { line != "" && line[0] == '[' }

  /** Line i is in the section: the last header before it is this one. */
  ghost predicate InSection(lines: seq<string>, i: nat, section: string) {
    exists h :: 0 <= h < i <= |lines| && lines[h] == "[" + section + "]"
                && forall j :: h < j < i ==> !IsHeader(lines[j])
  }

  /** The file sets the key once, in this section and to this value. */
  ghost predicate Sets(file: string, section: string, key: string, value: string) {
    exists i :: 0 <= i < |Lines(file)| && Lines(file)[i] == key + "=" + value && InSection(Lines(file), i, section)
                && forall j :: 0 <= j < |Lines(file)| && j != i ==> !HasKey(Lines(file)[j], key)
  }

  /** The escape sequences of a string value. */
  function DesktopEscape(c: char): Option<char> {
    match c
    case 's' => Some(' ')
    case 'n' => Some('\n')
    case 't' => Some('\t')
    case 'r' => Some('\r')
    case '\\' => Some('\\')
    case _ => None
  }

  function Cons(c: Option<char>, rest: Option<string>): Option<string> {
    if c.Some? && rest.Some? then Some([c.value] + rest.value) else None
  }

  function DesktopString(s: string): Option<string> {
    if s == "" then Some("")
    else if s[0] != '\\' then Cons(Some(s[0]), DesktopString(s[1..]))
    else if |s| == 1 then None
    else Cons(DesktopEscape(s[1]), DesktopString(s[2..]))
  }

  predicate MustEscape(c: char) { c == '"' || c == '`' || c == '$' || c == '\\' }

  predicate Reserved(c: char) {
    || c == ' ' || c == '\t' || c == '\n' || c == '"' || c == '\'' || c == '\\' || c == '>' || c == '<' || c == '~'
    || c == '|' || c == '&' || c == ';' || c == '$' || c == '*' || c == '?' || c == '#' || c == '(' || c == ')'
    || c == '`'
  }

  /** An argument and what follows it. */
  datatype Word = Word(arg: string, rest: string)

  function Prefix(c: char, w: Option<Word>): Option<Word> {
    if w.Some? then Some(Word([c] + w.value.arg, w.value.rest)) else None
  }

  /** The rest of a quoted argument, after its opening quote. */
  function Quoted(s: string): (w: Option<Word>)
    ensures w.Some? ==> |w.value.rest| < |s|
  {
    if s == "" then None
    else if s[0] == '"' then Some(Word("", s[1..]))
    else if s[0] != '\\' then if MustEscape(s[0]) then None else Prefix(s[0], Quoted(s[1..]))
    else if |s| >= 2 && MustEscape(s[1]) then Prefix(s[1], Quoted(s[2..]))
    else None
  }

  /** An unquoted argument, up to a space or the end. */
  function Plain(s: string): (w: Option<Word>)
    ensures w.Some? ==> |w.value.rest| <= |s| && (s != "" && s[0] != ' ' ==> |w.value.rest| < |s|)
  {
    if s == "" || s[0] == ' ' then Some(Word("", s))
    else if Reserved(s[0]) then None
    else Prefix(s[0], Plain(s[1..]))
  }

  function Arguments(s: string): Option<seq<string>>
    decreases |s|
  {
    if s == "" then Some([])
    else if s[0] == ' ' then Arguments(s[1..])
    else
      var w := if s[0] == '"' then Quoted(s[1..]) else Plain(s);
      if w.None? || (w.value.rest != "" && w.value.rest[0] != ' ') then None
      else
        var more := Arguments(w.value.rest);
        if more.None? then None else Some([w.value.arg] + more.value)
  }

  /** "%%" is a percent sign; anything else after "%" is a field code or a specifier, not text. */
  function PercentText(s: string): Option<string> {
    if s == "" then Some("")
    else if s[0] != '%' then Cons(Some(s[0]), PercentText(s[1..]))
    else if |s| == 1 || s[1] != '%' then None
    else Cons(Some('%'), PercentText(s[2..]))
  }

  function AllPercentText(args: seq<string>): Option<seq<string>> {
    if args == [] then Some([])
    else
      var first, rest := PercentText(args[0]), AllPercentText(args[1..]);
      if first.None? || rest.None? then None else Some([first.value] + rest.value)
  }

  /** The command an Exec value stands for. */
  function Command(exec: string): Option<seq<string>> {
    var s := DesktopString(exec);
    if s.None? then None
    else
      var args := Arguments(s.value);
      if args.None? then None else AllPercentText(args.value)
  }

  /** systemd's one-character C escapes; its numeric ones stand for one character as well and are left out. */
  function CEscape(c: char): Option<char> {
    match c
    case 'a' => Some('\U{7}')
    case 'b' => Some('\U{8}')
    case 'f' => Some('\U{C}')
    case 'n' => Some('\n')
    case 'r' => Some('\r')
    case 't' => Some('\t')
    case 'v' => Some('\U{B}')
    case 's' => Some(' ')
    case '\\' => Some('\\')
    case '"' => Some('"')
    case '\'' => Some('\'')
    case _ => None
  }

  /** The rest of a double-quoted word of a unit file, after its opening quote. */
  function SystemdQuoted(s: string): (w: Option<Word>)
    ensures w.Some? ==> |w.value.arg| + |w.value.rest| < |s|
  {
    if s == "" then None
    else if s[0] == '"' then Some(Word("", s[1..]))
    else if s[0] != '\\' then Prefix(s[0], SystemdQuoted(s[1..]))
    else if |s| >= 2 && CEscape(s[1]).Some? then Prefix(CEscape(s[1]).value, SystemdQuoted(s[2..]))
    else None
  }

  /** A value's first word, when it is quoted, with its specifiers expanded, and what follows. */
  function FirstWord(value: string): Option<Word> {
    if value == "" || value[0] != '"' then None
    else
      var w := SystemdQuoted(value[1..]);
      if w.None? || PercentText(w.value.arg).None? then None
      else Some(Word(PercentText(w.value.arg).value, w.value.rest))
  }

  // ------------------------------------------------- the Desktop Entry's layers

  /** What the argument layer must see for each character. */
  function QuoteChar(c: char): string {
    match c
    case '\\' => "\\\\"
    case '$' => "\\$"
    case '`' => "\\`"
    case '%' => "%%"
    case _ => [c]
  }

  lemma DesktopSteps(c: char, s: string)
    ensures c != '\\' ==> DesktopString([c] + s) == Cons(Some(c), DesktopString(s))
    ensures DesktopString(['\\', c] + s) == Cons(DesktopEscape(c), DesktopString(s))
  {
    assert ([c] + s)[1..] == s;
    assert (['\\', c] + s)[2..] == s;
  }

  lemma {:induction false} NoEscapes(s: string)
    requires '\\' !in s
    ensures DesktopString(s) == Some(s)
  {
    if s != "" {
      NoEscapes(s[1..]);
      assert s == [s[0]] + s[1..];
    }
  }

  lemma StringLayerStep(c: char, s: string, t: string)
    requires DesktopString(s) == Some(t)
    ensures DesktopString(ExecChar(c) + s) == Some(QuoteChar(c) + t)
  {
    hide DesktopString;
    match c
    case '\\' =>
      DesktopSteps('\\', s);
      DesktopSteps('\\', ['\\', '\\'] + s);
      assert ExecChar(c) + s == ['\\', '\\'] + (['\\', '\\'] + s);
      assert QuoteChar(c) + t == ['\\'] + (['\\'] + t);
    case '$' =>
      DesktopSteps('$', s);
      DesktopSteps('\\', ['$'] + s);
      assert ExecChar(c) + s == ['\\', '\\'] + (['$'] + s);
      assert QuoteChar(c) + t == ['\\'] + (['$'] + t);
    case '`' =>
      DesktopSteps('`', s);
      DesktopSteps('\\', ['`'] + s);
      assert ExecChar(c) + s == ['\\', '\\'] + (['`'] + s);
      assert QuoteChar(c) + t == ['\\'] + (['`'] + t);
    case '%' =>
      DesktopSteps('%', s);
      DesktopSteps('%', ['%'] + s);
      assert ExecChar(c) + s == ['%'] + (['%'] + s);
      assert QuoteChar(c) + t == ['%'] + (['%'] + t);
    case _ =>
      DesktopSteps(c, s);
  }

  /** The string layer turns the file's text into the quoting layer's text. */
  lemma {:induction false} StringLayer(b: string, tail: string)
    requires '\\' !in tail
    ensures DesktopString(Replace(b, ExecChar) + tail) == Some(Replace(b, QuoteChar) + tail)
  {
    hide DesktopString, ExecChar, QuoteChar;
    if b == "" {
      assert Replace(b, ExecChar) + tail == tail == Replace(b, QuoteChar) + tail;
      NoEscapes(tail);
    } else {
      StringLayer(b[1..], tail);
      StringLayerStep(b[0], Replace(b[1..], ExecChar) + tail, Replace(b[1..], QuoteChar) + tail);
      assert Replace(b, ExecChar) + tail == ExecChar(b[0]) + (Replace(b[1..], ExecChar) + tail);
      assert Replace(b, QuoteChar) + tail == QuoteChar(b[0]) + (Replace(b[1..], QuoteChar) + tail);
    }
  }

  lemma QuotedSteps(c: char, s: string)
    ensures !MustEscape(c) ==> Quoted([c] + s) == Prefix(c, Quoted(s))
    ensures MustEscape(c) ==> Quoted(['\\', c] + s) == Prefix(c, Quoted(s))
  {
    assert ([c] + s)[1..] == s;
    assert (['\\', c] + s)[2..] == s;
  }

  lemma QuotingLayerStep(c: char, s: string, arg: string, rest: string)
    requires c != '"' && Quoted(s) == Some(Word(arg, rest))
    ensures Quoted(QuoteChar(c) + s) == Some(Word(PercentChar(c) + arg, rest))
  {
    hide Quoted;
    QuotedSteps(c, s);
    if c == '%' {
      QuotedSteps('%', ['%'] + s);
      assert "%%" + s == ['%'] + (['%'] + s);
      assert "%%" + arg == ['%'] + (['%'] + arg);
    }
  }

  /** The quoting layer ends the argument at the quote the writer put, not before. */
  lemma {:induction false} QuotingLayer(b: string, rest: string)
    requires '"' !in b
    ensures Quoted(Replace(b, QuoteChar) + "\"" + rest) == Some(Word(Replace(b, PercentChar), rest))
  {
    if b == "" {
      assert Replace(b, QuoteChar) + "\"" + rest == "\"" + rest;
      assert ("\"" + rest)[1..] == rest;
    } else {
      hide Quoted, QuoteChar, PercentChar;
      QuotingLayer(b[1..], rest);
      var s := Replace(b[1..], QuoteChar) + "\"" + rest;
      assert Replace(b, QuoteChar) + "\"" + rest == QuoteChar(b[0]) + s;
      QuotingLayerStep(b[0], s, Replace(b[1..], PercentChar), rest);
    }
  }

  /** The percent layer gives back the path. */
  lemma {:induction false} PercentLayer(b: string)
    ensures PercentText(Replace(b, PercentChar)) == Some(b)
  {
    if b != "" {
      PercentLayer(b[1..]);
      var s := Replace(b[1..], PercentChar);
      assert ([b[0]] + s)[1..] == s;
      assert ("%%" + s)[2..] == s;
      assert b == [b[0]] + b[1..];
    }
  }

  // ------------------------------------------------------- the words after it

  lemma Assoc(a: string, b: string, c: string)
    ensures a + b + c == a + (b + c)
  {
  }

  ghost predicate NoneReserved(w: string) { forall c :: c in w ==> !Reserved(c) }

  ghost predicate Bare(w: string) { w != "" && '%' !in w && NoneReserved(w) }

  lemma {:induction false} PlainWord(w: string, rest: string)
    requires NoneReserved(w) && (rest == "" || rest[0] == ' ')
    ensures Plain(w + rest) == Some(Word(w, rest))
  {
    if w == "" {
      assert w + rest == rest;
    } else {
      PlainWord(w[1..], rest);
      assert w[0] in w && (w + rest)[0] == w[0] && (w + rest)[1..] == w[1..] + rest;
      assert w == [w[0]] + w[1..];
    }
  }

  lemma FirstOfWord(w: string, rest: string)
    requires Bare(w)
    ensures (w + rest)[0] != ' ' && (w + rest)[0] != '"'
  {
    assert w[0] in w && (w + rest)[0] == w[0];
  }

  lemma SpaceThen(s: string)
    ensures Arguments(" " + s) == Arguments(s)
  {
    assert (" " + s)[1..] == s;
  }

  lemma WordThen(s: string, w: string, rest: string)
    requires s != "" && s[0] != ' ' && s[0] != '"' && Plain(s) == Some(Word(w, rest))
    requires (rest == "" || rest[0] == ' ') && Arguments(rest).Some?
    ensures Arguments(s) == Some([w] + Arguments(rest).value)
  {
    hide Plain, Quoted;
  }

  /** A space and a bare word read as one more argument. */
  lemma BareArgument(w: string, rest: string)
    requires Bare(w) && (rest == "" || rest[0] == ' ') && Arguments(rest).Some?
    ensures Arguments(" " + w + rest) == Some([w] + Arguments(rest).value)
  {
    FirstOfWord(w, rest);
    hide Arguments, Plain, Quoted, NoneReserved;
    PlainWord(w, rest);
    WordThen(w + rest, w, rest);
    SpaceThen(w + rest);
    Assoc(" ", w, rest);
  }

  lemma {:induction false} NoPercent(s: string)
    requires '%' !in s
    ensures PercentText(s) == Some(s)
  {
    if s != "" {
      NoPercent(s[1..]);
      assert s == [s[0]] + s[1..];
    }
  }

  lemma {:induction false} NoPercents(args: seq<string>)
    requires forall a :: a in args ==> '%' !in a
    ensures AllPercentText(args) == Some(args)
  {
    if args != [] {
      NoPercent(args[0]);
      NoPercents(args[1..]);
      assert args == [args[0]] + args[1..];
    }
  }

  function TrayArgs(scope: string): seq<string> {
    ["agent", "tray"] + if scope == "" || scope == "user" then [] else ["--scope", scope]
  }

  lemma TrayWordsAreBare()
    ensures Bare("agent") && Bare("tray")
  {
  }

  lemma ScopeWordsAreBare()
    ensures Bare("--scope") && Bare("system") && Bare("app")
  {
  }

  lemma ScopeWords(scope: string)
    requires Bare(scope) && Bare("--scope")
    ensures Arguments(" --scope " + scope) == Some(["--scope", scope])
  {
    hide Bare;
    BareArgument(scope, "");
    assert " " + scope + "" == " " + scope;
    assert Arguments("") == Some([]) && [scope] + [] == [scope];
    hide Arguments;
    BareArgument("--scope", " " + scope);
    assert " " + "--scope" + (" " + scope) == " --scope " + scope;
    assert ["--scope"] + [scope] == ["--scope", scope];
  }

  lemma TrayWords(tail: string, args: seq<string>)
    requires (tail == "" || tail[0] == ' ') && Arguments(tail) == Some(args)
    ensures Arguments(" agent tray" + tail) == Some(["agent", "tray"] + args)
  {
    TrayWordsAreBare();
    hide Arguments, Bare;
    BareArgument("tray", tail);
    BareArgument("agent", " " + "tray" + tail);
    assert " " + "agent" + (" " + "tray" + tail) == " agent tray" + tail;
    assert ["agent"] + (["tray"] + args) == ["agent", "tray"] + args;
  }

  lemma ScopedTrayWords(scope: string)
    requires ScopeArgs(scope).Ok?
    ensures Arguments(" agent tray" + ScopeArgs(scope).value) == Some(TrayArgs(scope))
  {
    ScopeWordsAreBare();
    hide Bare;
    if scope == "" || scope == "user" {
      TrayWords("", []);
    } else {
      ScopeWords(scope);
      hide Arguments;
      TrayWords(" --scope " + scope, ["--scope", scope]);
    }
  }

  lemma StringLayerOfValue(binary: string, words: string)
    requires '\\' !in words
    ensures DesktopString("\"" + Replace(binary, ExecChar) + "\"" + words)
              == Some("\"" + (Replace(binary, QuoteChar) + "\"" + words))
  {
    hide DesktopString;
    var tail := "\"" + words;
    StringLayer(binary, tail);
    DesktopSteps('"', Replace(binary, ExecChar) + tail);
    assert "\"" + Replace(binary, ExecChar) + "\"" + words == ['"'] + (Replace(binary, ExecChar) + tail);
    assert "\"" + (Replace(binary, QuoteChar) + "\"" + words) == ['"'] + (Replace(binary, QuoteChar) + tail);
  }

  /** The three layers on an argument list that starts with the quoted path. */
  lemma LayersCompose(binary: string, words: string, args: seq<string>)
    requires BinaryOk(binary) && '\\' !in words && words != "" && words[0] == ' '
    requires Arguments(words) == Some(args) && forall a :: a in args ==> '%' !in a
    ensures Command("\"" + Replace(binary, ExecChar) + "\"" + words) == Some([binary] + args)
  {
    hide Quoted, PercentText, Replace;
    var unescaped := Replace(binary, QuoteChar) + "\"" + words;
    StringLayerOfValue(binary, words);
    QuotingLayer(binary, words);
    assert ("\"" + unescaped)[1..] == unescaped;
    var arg := Replace(binary, PercentChar);
    assert Arguments("\"" + unescaped) == Some([arg] + args);
    hide Arguments, DesktopString;
    PercentLayer(binary);
    NoPercents(args);
    assert ([arg] + args)[1..] == args;
  }

  /**
   Read through all three layers, the Exec value is the program's own path as one
   argument, whatever characters it has, and then the tray's arguments.
   */
  lemma ExecRunsTheBinary(binary: string, scope: string)
    requires BinaryOk(binary) && ScopeArgs(scope).Ok?
    ensures Command(ExecArg(binary).value + " agent tray" + ScopeArgs(scope).value) == Some([binary] + TrayArgs(scope))
  {
    var words := " agent tray" + ScopeArgs(scope).value;
    ScopedTrayWords(scope);
    hide Command, Arguments, Replace;
    LayersCompose(binary, words, TrayArgs(scope));
    Assoc(ExecArg(binary).value, " agent tray", ScopeArgs(scope).value);
  }

  // ------------------------------------------------------------------- lines

  lemma {:induction false} FirstNewline(l: string, rest: string)
    requires '\n' !in l
    ensures IndexOfNewline(l + "\n" + rest) == |l|
  {
    if l == "" {
      assert l + "\n" + rest == "\n" + rest;
    } else {
      FirstNewline(l[1..], rest);
      assert (l + "\n" + rest)[1..] == l[1..] + "\n" + rest;
    }
  }

  lemma {:induction false} LinesOfUnlines(lines: seq<string>)
    requires forall l :: l in lines ==> '\n' !in l
    ensures Lines(Unlines(lines)) == lines
  {
    if lines != [] {
      var l, rest := lines[0], Unlines(lines[1..]);
      LinesOfUnlines(lines[1..]);
      FirstNewline(l, rest);
      assert (l + "\n" + rest)[..|l|] == l;
      assert (l + "\n" + rest)[|l| + 1..] == rest;
    }
  }

  /** Replacing brings in no character that the replacements do not have. */
  lemma {:induction false} ReplaceKeepsOut(s: string, f: char -> string, c: char)
    requires forall x :: x in s ==> c !in f(x)
    ensures c !in Replace(s, f)
  {
    if s != "" {
      ReplaceKeepsOut(s[1..], f, c);
    }
  }

  /** A line that neither breaks nor sets the key. */
  ghost predicate Beside(l: string, key: string) { '\n' !in l && !HasKey(l, key) }

  ghost predicate AllBeside(lines: seq<string>, key: string) { forall i :: 0 <= i < |lines| ==> Beside(lines[i], key) }

  lemma SetsOnce(before: seq<string>, section: string, key: string, value: string, after: seq<string>)
    requires AllBeside(before, key) && AllBeside(after, key) && '\n' !in key && '\n' !in value
    requires InSection(before, |before|, section)
    ensures Sets(Unlines(before + [key + "=" + value] + after), section, key, value)
  {
    hide HasKey;
    var lines := before + [key + "=" + value] + after;
    forall l | l in lines
      ensures '\n' !in l
    {
      var i :| 0 <= i < |lines| && lines[i] == l;
      assert i < |before| ==> Beside(before[i], key);
      assert i > |before| ==> Beside(after[i - |before| - 1], key);
    }
    LinesOfUnlines(lines);
    forall j | 0 <= j < |lines| && j != |before|
      ensures !HasKey(lines[j], key)
    {
      assert j < |before| ==> Beside(before[j], key);
      assert j > |before| ==> Beside(after[j - |before| - 1], key);
    }
    assert lines[|before|] == key + "=" + value;
    var h :| 0 <= h < |before| && before[h] == "[" + section + "]"
        && forall j :: h < j < |before| ==> !IsHeader(before[j]);
    assert lines[h] == before[h] && forall j :: h < j < |before| ==> lines[j] == before[j];
  }

  lemma AllBesideNone(key: string)
    ensures AllBeside([], key)
  {
  }

  lemma AllBesideConcat(a: seq<string>, b: seq<string>, key: string)
    requires AllBeside(a, key) && AllBeside(b, key)
    ensures AllBeside(a + b, key)
  {
    hide Beside;
  }

  lemma OtherFirstLetter(l: string, key: string)
    requires '\n' !in l && key != "" && (l == "" || l[0] != key[0])
    ensures Beside(l, key)
  {
  }

  lemma AutostartHead()
    ensures AllBeside(AUTOSTART_HEAD, "Exec")
  {
    hide Beside;
    OtherFirstLetter("[Desktop Entry]", "Exec");
    OtherFirstLetter("Type=Application", "Exec");
    OtherFirstLetter("Name=WarpHold", "Exec");
    OtherFirstLetter("Comment=WarpHold backup status", "Exec");
  }

  lemma AutostartTail()
    ensures AllBeside(AUTOSTART_TAIL, "Exec")
  {
    hide Beside;
    OtherFirstLetter("Terminal=false", "Exec");
    OtherFirstLetter("NoDisplay=false", "Exec");
    OtherFirstLetter("X-GNOME-Autostart-enabled=true", "Exec");
  }

  lemma AutostartSetsExec(exec: string)
    requires '\n' !in exec
    ensures Sets(Unlines(AutostartLines(exec)), "Desktop Entry", "Exec", exec)
  {
    AutostartHead();
    AutostartTail();
    assert InSection(AUTOSTART_HEAD, |AUTOSTART_HEAD|, "Desktop Entry") by {
      assert AUTOSTART_HEAD[0] == "[" + "Desktop Entry" + "]";
    }
    hide AllBeside, Sets, Unlines, InSection;
    SetsOnce(AUTOSTART_HEAD, "Desktop Entry", "Exec", exec, AUTOSTART_TAIL);
    assert "Exec" + "=" + exec == "Exec=" + exec;
  }

  /** The text has none of these characters. */
  ghost predicate Without(text: string, chars: string) { forall c :: c in text ==> c !in chars }

  lemma ChecksAreExact(binary: string, dir: string)
    ensures BinaryOk(binary) <==> binary != "" && Without(binary, "\"\n\r=")
    ensures StateDirOk(dir) <==> Without(dir, "\"\n\r")
  {
    assert forall c :: c in "\"\n\r=" <==> c == '"' || c == '\n' || c == '\r' || c == '=';
    assert forall c :: c in "\"\n\r" <==> c == '"' || c == '\n' || c == '\r';
  }

  /**
   An autostart entry is written exactly for a path that passes the check and a
   known scope; it has one Exec key, and that starts the program at this path with
   the tray's arguments.
   */
  lemma AutostartStartsTheTray(binary: string, scope: string)
    ensures Autostart(binary, scope).Ok? <==>
              binary != "" && Without(binary, "\"\n\r=") && scope in ["", "user", "system", "app"]
    ensures Autostart(binary, scope).Ok? ==>
              exists exec :: Sets(Autostart(binary, scope).value, "Desktop Entry", "Exec", exec)
                  && Command(exec) == Some([binary, "agent", "tray"]
                      + if scope in ["", "user"] then [] else ["--scope", scope])
  {
    assert [binary] + TrayArgs(scope)
        == [binary, "agent", "tray"] + if scope in ["", "user"] then [] else ["--scope", scope];
    ChecksAreExact(binary, "");
    hide Without;
    if BinaryOk(binary) && ScopeArgs(scope).Ok? {
      ReplaceKeepsOut(binary, ExecChar, '\n');
      hide Sets, Unlines, AutostartLines, Command, TrayArgs, Replace;
      var exec := ExecArg(binary).value + " agent tray" + ScopeArgs(scope).value;
      AutostartSetsExec(exec);
      ExecRunsTheBinary(binary, scope);
    }
  }

  // ----------------------------------------------------------------- the unit

  lemma SystemdPlainStep(c: char, s: string)
    requires c != '"' && c != '\\'
    ensures SystemdQuoted([c] + s) == Prefix(c, SystemdQuoted(s))
  {
    assert ([c] + s)[0] == c && ([c] + s)[1..] == s;
  }

  lemma SystemdBackslashStep(s: string)
    ensures SystemdQuoted("\\\\" + s) == Prefix('\\', SystemdQuoted(s))
  {
    var t := "\\\\" + s;
    assert t[0] == '\\' && t[1] == '\\' && t[2..] == s;
  }

  lemma UnquotingLayerStep(c: char, s: string, arg: string, rest: string)
    requires c != '"' && SystemdQuoted(s) == Some(Word(arg, rest))
    ensures SystemdQuoted(SystemdChar(c) + s) == Some(Word(PercentChar(c) + arg, rest))
  {
    hide SystemdQuoted;
    if c == '\\' {
      SystemdBackslashStep(s);
    } else {
      SystemdPlainStep(c, s);
    }
    if c == '%' {
      SystemdPlainStep('%', ['%'] + s);
      assert "%%" + s == ['%'] + (['%'] + s);
      assert "%%" + arg == ['%'] + (['%'] + arg);
    }
  }

  /** systemd's unquoting ends the word at the quote the writer put and halves the backslashes. */
  lemma {:induction false} UnquotingLayer(b: string, rest: string)
    requires '"' !in b
    ensures SystemdQuoted(Replace(b, SystemdChar) + "\"" + rest) == Some(Word(Replace(b, PercentChar), rest))
  {
    if b == "" {
      assert Replace(b, SystemdChar) + "\"" + rest == "\"" + rest;
      assert ("\"" + rest)[1..] == rest;
    } else {
      hide SystemdQuoted, SystemdChar, PercentChar;
      UnquotingLayer(b[1..], rest);
      var s := Replace(b[1..], SystemdChar) + "\"" + rest;
      assert Replace(b, SystemdChar) + "\"" + rest == SystemdChar(b[0]) + s;
      UnquotingLayerStep(b[0], s, Replace(b[1..], PercentChar), rest);
    }
  }

  /** The two keys looked up in a unit. Only their own lines start with this letter. */
  predicate UnitKey(key: string) { key != "" && key[0] == 'E' }

  lemma UnitTargetsBeside(key: string)
    requires UnitKey(key)
    ensures Beside("After=network-online.target", key) && Beside("Wants=network-online.target", key)
  {
    OtherFirstLetter("After=network-online.target", key);
    OtherFirstLetter("Wants=network-online.target", key);
  }

  lemma UnitLimitsBeside(key: string)
    requires key != "" && (key[0] == 'E' || key[0] == 'W')
    ensures AllBeside(UNIT_LIMITS, key)
  {
    hide Beside;
    OtherFirstLetter("StartLimitIntervalSec=600", key);
    OtherFirstLetter("StartLimitBurst=5", key);
    OtherFirstLetter("", key);
    OtherFirstLetter("[Service]", key);
  }

  lemma UnitHeadBeside(desc: string, key: string)
    requires '\n' !in desc && UnitKey(key)
    ensures AllBeside(UnitHead(desc), key)
  {
    hide Beside;
    OtherFirstLetter("[Unit]", key);
    OtherFirstLetter("Description=" + desc, key);
    UnitTargetsBeside(key);
    UnitLimitsBeside(key);
  }

  lemma EnvironmentBeside(dir: string)
    requires '\n' !in dir
    ensures AllBeside(EnvironmentLines(dir), "ExecStart") && '\n' !in Assignment(STATE_DIR, dir)
  {
    ReplaceKeepsOut(dir, PercentChar, '\n');
    hide Replace;
    assert '\n' !in Assignment(STATE_DIR, dir);
    if dir != "" {
      var l := EnvironmentLines(dir)[0];
      assert l[1] == 'n' && '\n' !in l;
      assert !HasKey(l, "ExecStart");
    }
  }

  lemma ExecStartBeside(exec: string)
    requires '\n' !in exec
    ensures AllBeside(["ExecStart=" + exec], "Environment")
  {
    var l := "ExecStart=" + exec;
    assert l[1] == 'x' && '\n' !in l;
    assert !HasKey(l, "Environment");
  }

  /** Only the lines of the keys looked up in a unit, and of Wants, start with one of these letters. */
  lemma UnitRestLinesBeside(key: string)
    requires key != "" && (key[0] == 'E' || key[0] == 'W')
    ensures AllBeside(UNIT_RESTART + UNIT_INSTALL, key)
  {
    hide Beside;
    OtherFirstLetter("Restart=on-failure", key);
    OtherFirstLetter("RestartSec=30", key);
    OtherFirstLetter("RestartPreventExitStatus=3", key);
    OtherFirstLetter("Nice=19", key);
    OtherFirstLetter("IOSchedulingClass=idle", key);
    OtherFirstLetter("", key);
    OtherFirstLetter("[Install]", key);
  }

  lemma UnitRestBeside(wantedBy: string, key: string)
    requires '\n' !in wantedBy && UnitKey(key)
    ensures AllBeside(UnitRest(wantedBy), key)
  {
    UnitRestLinesBeside(key);
    hide Beside;
    OtherFirstLetter("WantedBy=" + wantedBy, key);
  }

  lemma ServiceIsLast(desc: string, dir: string)
    ensures InSection(UnitHead(desc), |UnitHead(desc)|, "Service")
    ensures var before := UnitHead(desc) + EnvironmentLines(dir); InSection(before, |before|, "Service")
  {
    assert UnitHead(desc)[7] == "[" + "Service" + "]";
    var before := UnitHead(desc) + EnvironmentLines(dir);
    assert before[7] == UnitHead(desc)[7];
    if dir != "" {
      assert before[8][0] == 'E';
    }
  }

  lemma UnitSetsExecStart(desc: string, dir: string, exec: string, wantedBy: string)
    requires '\n' !in desc && '\n' !in dir && '\n' !in exec && '\n' !in wantedBy
    ensures Sets(Unlines(UnitHead(desc) + EnvironmentLines(dir) + ["ExecStart=" + exec] + UnitRest(wantedBy)),
                 "Service", "ExecStart", exec)
  {
    hide AllBeside, Sets, Unlines, UnitHead, EnvironmentLines, UnitRest, InSection;
    ServiceIsLast(desc, dir);
    UnitHeadBeside(desc, "ExecStart");
    EnvironmentBeside(dir);
    UnitRestBeside(wantedBy, "ExecStart");
    AllBesideConcat(UnitHead(desc), EnvironmentLines(dir), "ExecStart");
    SetsOnce(UnitHead(desc) + EnvironmentLines(dir), "Service", "ExecStart", exec, UnitRest(wantedBy));
    assert "ExecStart" + "=" + exec == "ExecStart=" + exec;
  }

  lemma UnitSetsEnvironment(desc: string, dir: string, exec: string, wantedBy: string)
    requires '\n' !in desc && '\n' !in dir && '\n' !in exec && '\n' !in wantedBy && dir != ""
    ensures Sets(Unlines(UnitHead(desc) + EnvironmentLines(dir) + ["ExecStart=" + exec] + UnitRest(wantedBy)),
                 "Service", "Environment", Assignment(STATE_DIR, dir))
  {
    ServiceIsLast(desc, dir);
    UnitHeadBeside(desc, "Environment");
    EnvironmentBeside(dir);
    ExecStartBeside(exec);
    UnitRestBeside(wantedBy, "Environment");
    assert EnvironmentLines(dir) == ["Environment" + "=" + Assignment(STATE_DIR, dir)] by {
      assert "Environment" + "=" + Assignment(STATE_DIR, dir) == "Environment=" + Assignment(STATE_DIR, dir);
    }
    hide AllBeside, Sets, Unlines, UnitHead, EnvironmentLines, UnitRest, Assignment, InSection;
    AllBesideConcat(["ExecStart=" + exec], UnitRest(wantedBy), "Environment");
    SetsOnce(UnitHead(desc), "Service", "Environment", Assignment(STATE_DIR, dir),
        ["ExecStart=" + exec] + UnitRest(wantedBy));
    assert UnitHead(desc) + EnvironmentLines(dir) + (["ExecStart=" + exec] + UnitRest(wantedBy))
        == UnitHead(desc) + EnvironmentLines(dir) + ["ExecStart=" + exec] + UnitRest(wantedBy);
  }

  lemma ExecStartFirstWord(binary: string, args: string)
    requires BinaryOk(binary)
    ensures '\n' !in args ==> '\n' !in ExecStart(binary, args)
    ensures FirstWord(ExecStart(binary, args)) == Some(Word(binary, " " + args))
  {
    ReplaceKeepsOut(binary, SystemdChar, '\n');
    hide Replace, SystemdQuoted;
    UnquotingLayer(binary, " " + args);
    PercentLayer(binary);
    assert ExecStart(binary, args)[1..] == Replace(binary, SystemdChar) + "\"" + (" " + args);
  }

  /**
   A unit has one ExecStart key. Its quoted first word, unescaped and with
   specifiers expanded, is the program's own path, and the arguments follow.
   */
  lemma UnitRunsTheBinary(binary: string, desc: string, args: string, wantedBy: string, dir: string)
    requires '\n' !in desc && '\n' !in args && '\n' !in wantedBy
    ensures Unit(binary, desc, args, wantedBy, dir).Ok? <==>
              binary != "" && Without(binary, "\"\n\r=") && Without(dir, "\"\n\r")
    ensures Unit(binary, desc, args, wantedBy, dir).Ok? ==>
              exists exec :: Sets(Unit(binary, desc, args, wantedBy, dir).value, "Service", "ExecStart", exec)
                             && FirstWord(exec) == Some(Word(binary, " " + args))
  {
    ChecksAreExact(binary, dir);
    hide Without;
    if BinaryOk(binary) && StateDirOk(dir) {
      hide Sets, Unlines, UnitHead, EnvironmentLines, UnitRest, FirstWord, ExecStart;
      ExecStartFirstWord(binary, args);
      UnitSetsExecStart(desc, dir, ExecStart(binary, args), wantedBy);
    }
  }

  lemma HeadBesideWantedBy(desc: string)
    requires '\n' !in desc
    ensures AllBeside(UnitHead(desc), "WantedBy")
  {
    var wants := "Wants=network-online.target";
    assert wants[4] == 's' && "WantedBy="[4] == 'e' && '\n' !in wants;
    assert Beside(wants, "WantedBy");
    hide Beside;
    OtherFirstLetter("[Unit]", "WantedBy");
    OtherFirstLetter("Description=" + desc, "WantedBy");
    OtherFirstLetter("After=network-online.target", "WantedBy");
    UnitLimitsBeside("WantedBy");
  }

  lemma ServiceBesideWantedBy(dir: string, exec: string)
    requires '\n' !in dir && '\n' !in exec
    ensures AllBeside(EnvironmentLines(dir) + ["ExecStart=" + exec], "WantedBy")
  {
    EnvironmentBeside(dir);
    hide Beside, Assignment;
    OtherFirstLetter("ExecStart=" + exec, "WantedBy");
    OtherFirstLetter("Environment=" + Assignment(STATE_DIR, dir), "WantedBy");
  }

  lemma InstallIsLast(before: seq<string>)
    requires before != [] && before[|before| - 1] == "[Install]"
    ensures InSection(before, |before|, "Install")
  {
    assert "[" + "Install" + "]" == "[Install]";
  }

  lemma RestEndsInWantedBy(before: seq<string>, wantedBy: string)
    ensures before + UnitRest(wantedBy) == before + (UNIT_RESTART + UNIT_INSTALL) + ["WantedBy" + "=" + wantedBy] + []
  {
    assert "WantedBy" + "=" + wantedBy == "WantedBy=" + wantedBy;
  }

  /** A unit is enabled for the target it was written for. */
  lemma UnitIsWantedBy(binary: string, desc: string, args: string, wantedBy: string, dir: string)
    requires '\n' !in desc && '\n' !in args && '\n' !in wantedBy && Unit(binary, desc, args, wantedBy, dir).Ok?
    ensures Sets(Unit(binary, desc, args, wantedBy, dir).value, "Install", "WantedBy", wantedBy)
  {
    ExecStartFirstWord(binary, args);
    var service := EnvironmentLines(dir) + ["ExecStart=" + ExecStart(binary, args)];
    var before := UnitHead(desc) + service;
    var rest := UNIT_RESTART + UNIT_INSTALL;
    HeadBesideWantedBy(desc);
    ServiceBesideWantedBy(dir, ExecStart(binary, args));
    UnitRestLinesBeside("WantedBy");
    AllBesideNone("WantedBy");
    hide AllBeside, Sets, Unlines, UnitHead, EnvironmentLines, UnitRest, ExecStart, InSection;
    AllBesideConcat(UnitHead(desc), service, "WantedBy");
    AllBesideConcat(before, rest, "WantedBy");
    InstallIsLast(before + rest);
    SetsOnce(before + rest, "Install", "WantedBy", wantedBy, []);
    RestEndsInWantedBy(before, wantedBy);
    assert UnitHead(desc) + EnvironmentLines(dir) + ["ExecStart=" + ExecStart(binary, args)] == before;
  }

  // -------------------------------------------- the state directory in the unit

  lemma {:induction false} ReplaceConcat(a: string, b: string, f: char -> string)
    ensures Replace(a + b, f) == Replace(a, f) + Replace(b, f)
  {
    if a == "" {
      assert a + b == b;
    } else {
      ReplaceConcat(a[1..], b, f);
      assert (a + b)[0] == a[0] && (a + b)[1..] == a[1..] + b;
      hide Replace;
      Assoc(f(a[0]), Replace(a[1..], f), Replace(b, f));
    }
  }

  lemma {:induction false} NothingToReplace(s: string)
    requires '%' !in s
    ensures Replace(s, PercentChar) == s
  {
    if s != "" {
      NothingToReplace(s[1..]);
    }
  }

  /** Doubled percent signs are the only spelling of a text. */
  lemma {:induction false} PercentSpelling(s: string, text: string)
    requires PercentText(s) == Some(text)
    ensures s == Replace(text, PercentChar)
    decreases |s|
  {
    if s != "" {
      var rest := if s[0] == '%' then s[2..] else s[1..];
      assert text[0] == s[0] && PercentText(rest) == Some(text[1..]);
      PercentSpelling(rest, text[1..]);
    }
  }

  lemma {:induction false} NoBackslashKept(w: string, rest: string)
    requires '"' !in w && '\\' !in w
    ensures SystemdQuoted(w + "\"" + rest) == Some(Word(w, rest))
  {
    if w == "" {
      assert w + "\"" + rest == "\"" + rest;
      assert ("\"" + rest)[1..] == rest;
    } else {
      NoBackslashKept(w[1..], rest);
      var s := w[1..] + "\"" + rest;
      assert w + "\"" + rest == [w[0]] + s;
      SystemdPlainStep(w[0], s);
      assert w == [w[0]] + w[1..];
    }
  }

  lemma {:induction false} BackslashShrinks(w: string, rest: string)
    requires '"' !in w && '\\' in w
    ensures var r := SystemdQuoted(w + "\"" + rest); r.Some? ==> |r.value.arg| + |r.value.rest| < |w| + |rest|
  {
    var s := w + "\"" + rest;
    if w[0] != '\\' {
      BackslashShrinks(w[1..], rest);
      assert s[1..] == w[1..] + "\"" + rest;
    }
  }

  lemma AssignmentWritten(name: string, value: string)
    requires '%' !in name
    ensures Assignment(name, value)[0] == '"'
    ensures Assignment(name, value)[1..] == Replace(name + value, PercentChar) + "\"" + ""
  {
    ReplaceConcat(name, value, PercentChar);
    NothingToReplace(name);
    hide Replace, PercentChar;
    var quoted := name + Replace(value, PercentChar) + "\"";
    assert ("\"" + quoted)[1..] == quoted == quoted + "";
  }

  lemma NoBackslashWritten(s: string)
    requires '\\' !in s
    ensures '\\' !in Replace(s, PercentChar)
  {
    ReplaceKeepsOut(s, PercentChar, '\\');
  }

  lemma {:induction false} BackslashStays(s: string)
    requires '\\' in s
    ensures '\\' in Replace(s, PercentChar)
  {
    if s[0] != '\\' {
      BackslashStays(s[1..]);
    }
  }

  /** An assignment is read back as it was meant if and only if its value has no backslash. */
  lemma AssignmentSurvivesExactly(name: string, value: string)
    requires '"' !in value && '"' !in name && '\\' !in name && '%' !in name
    ensures FirstWord(Assignment(name, value)) == Some(Word(name + value, "")) <==> '\\' !in value
  {
    var full := name + value;
    var written := Replace(full, PercentChar);
    AssignmentWritten(name, value);
    ReplaceKeepsOut(full, PercentChar, '"');
    PercentLayer(full);
    hide Replace, SystemdQuoted, PercentText, PercentChar, Assignment;
    if '\\' !in value {
      NoBackslashWritten(full);
      NoBackslashKept(written, "");
    } else {
      BackslashStays(full);
      BackslashShrinks(written, "");
      if FirstWord(Assignment(name, value)).Some? {
        PercentSpelling(SystemdQuoted(Assignment(name, value)[1..]).value.arg,
            FirstWord(Assignment(name, value)).value.arg);
      }
    }
  }

  /**
   A unit written for a state directory has one Environment key, and the service sees the directory set at
   install time if and only if it has no backslash.
   */
  lemma StateDirSurvivesExactly(binary: string, desc: string, args: string, wantedBy: string, dir: string)
    requires '\n' !in desc && '\n' !in args && '\n' !in wantedBy
    requires Unit(binary, desc, args, wantedBy, dir).Ok? && dir != ""
    ensures Sets(Unit(binary, desc, args, wantedBy, dir).value, "Service", "Environment", Assignment(STATE_DIR, dir))
    ensures FirstWord(Assignment(STATE_DIR, dir)) == Some(Word(STATE_DIR + dir, "")) <==> '\\' !in dir
  {
    hide FirstWord, Assignment, Sets, Unlines, UnitHead, EnvironmentLines, UnitRest, ExecStart;
    ExecStartFirstWord(binary, args);
    UnitSetsEnvironment(desc, dir, ExecStart(binary, args), wantedBy);
    AssignmentSurvivesExactly(STATE_DIR, dir);
  }
}
