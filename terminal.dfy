/**
 * The terminal engine (internal/runtime/terminal.go): the quote-aware tokenizer, the
 * `--key value` flag parser, contextual help and its dispatch, the option loop of
 * `script run`, the subjects stored by `load`, and the order in which a command line is
 * routed to those handlers, ending with the rule that turns a bare "ok" into an error.
 *
 * What the handlers learn from the outside world (the "sessions" key-value bucket, the
 * broker, the scripts directory, JSON parsing of inputs) is a `World` parameter.
 */
module RuntimeTerminal {
  import opened Wrappers
  import opened Strs
  import opened Messages
  import MessageBuilders
  import RP = RuntimePresets

  // ---------------------------------------------------------------- tokenizer

  /** The state of `tokenizeCommand` between two characters. */
  datatype TokState = TokState(tokens: seq<string>, current: string, inQuote: bool, quote: char)

  predicate IsQuote(c: char) {
    c == '"' || c == '\''
  }

  const Start := TokState([], "", false, '\0')

  /** One character of the scan: open a quote, close it, end a token at an unquoted space, or keep the character. */
  function Step(st: TokState, r: char): TokState {
    if !st.inQuote && IsQuote(r) then st.(inQuote := true, quote := r)
    else if st.inQuote && r == st.quote then st.(inQuote := false, quote := '\0')
    else if !st.inQuote && r == ' ' then
      if |st.current| > 0 then st.(tokens := st.tokens + [st.current], current := "") else st
    else st.(current := st.current + [r])
  }

  /** The state after scanning all of `s`. */
  function Scan(s: string): TokState
    decreases |s|
  {
    if |s| == 0 then Start else Step(Scan(s[..|s| - 1]), s[|s| - 1])
  }

  /** The tokens of `s`: those ended by a space, then the pending one if non-empty. */
  function Tokens(s: string): seq<string> {
    var st := Scan(s);
    if |st.current| > 0 then st.tokens + [st.current] else st.tokens
  }

  /** `tokenizeCommand`. */
  method TokenizeCommand(cmd: string) returns (tokens: seq<string>)
    ensures tokens == Tokens(cmd)
  {
    tokens := [];
    var current := "";
    var inQuote := false;
    var quoteChar := '\0';
    var i := 0;
    while i < |cmd|
      invariant 0 <= i <= |cmd|
      invariant TokState(tokens, current, inQuote, quoteChar) == Scan(cmd[..i])
    {
      var r := cmd[i];
      if !inQuote && (r == '"' || r == '\'') {
        inQuote := true;
        quoteChar := r;
      } else if inQuote && r == quoteChar {
        inQuote := false;
        quoteChar := '\0';
      } else if !inQuote && r == ' ' {
        if |current| > 0 {
          tokens := tokens + [current];
          current := "";
        }
      } else {
        current := current + [r];
      }
      assert cmd[..i + 1][..i] == cmd[..i];
      i := i + 1;
    }
    assert cmd[..|cmd|] == cmd;
    if |current| > 0 {
      tokens := tokens + [current];
    }
  }

  lemma {:induction false} ScanTokensNonEmpty(s: string)
    ensures forall i :: 0 <= i < |Scan(s).tokens| ==> Scan(s).tokens[i] != ""
    decreases |s|
  {
    if |s| > 0 {
      ScanTokensNonEmpty(s[..|s| - 1]);
    }
  }

  /** No token is empty, so an empty quoted string (`""` or `''`) yields no token at all. */
  lemma TokensNonEmpty(s: string)
    ensures forall i :: 0 <= i < |Tokens(s)| ==> Tokens(s)[i] != ""
  {
    ScanTokensNonEmpty(s);
  }

  /** The open quote after reading `s`, if any: a quote opens only outside quotes and closes only on the same character. */
  function QuoteAfter(s: string): Option<char>
    decreases |s|
  {
    if |s| == 0 then None
    else
      var c := s[|s| - 1];
      match QuoteAfter(s[..|s| - 1])
      case None => if IsQuote(c) then Some(c) else None
      case Some(q) => if c == q then None else Some(q)
  }

  /** `c` is dropped when read in quote state `q`: an opening or closing quote, or an unquoted space. */
  predicate Delimiter(q: Option<char>, c: char) {
    if q.None? then IsQuote(c) || c == ' ' else c == q.value
  }

  /** The input minus its delimiters. */
  function Kept(s: string): string
    decreases |s|
  {
    if |s| == 0 then ""
    else
      var p := s[..|s| - 1];
      Kept(p) + (if Delimiter(QuoteAfter(p), s[|s| - 1]) then "" else [s[|s| - 1]])
  }

  /** Concatenation of strings, from the left. */
  function Concat(parts: seq<string>): string {
    if |parts| == 0 then "" else Concat(parts[..|parts| - 1]) + parts[|parts| - 1]
  }

  lemma ConcatSnoc(parts: seq<string>, x: string)
    ensures Concat(parts + [x]) == Concat(parts) + x
  {
    assert (parts + [x])[..|parts|] == parts;
  }

  lemma {:induction false} ScanKeeps(s: string)
    ensures Scan(s).inQuote <==> QuoteAfter(s).Some?
    ensures Scan(s).inQuote ==> Scan(s).quote == QuoteAfter(s).value
    ensures Concat(Scan(s).tokens) + Scan(s).current == Kept(s)
    decreases |s|
  {
    if |s| > 0 {
      var p := s[..|s| - 1];
      var c := s[|s| - 1];
      ScanKeeps(p);
      var st := Scan(p);
      if !st.inQuote && c == ' ' && |st.current| > 0 {
        ConcatSnoc(st.tokens, st.current);
      }
    }
  }

  /**
   * The tokens, concatenated, are the input with delimiters removed: the quote that opens
   * a run and the same character that closes it, and every unquoted space. Inside a run the
   * other quote character is ordinary.
   */
  lemma TokensKeep(s: string)
    ensures Concat(Tokens(s)) == Kept(s)
  {
    ScanKeeps(s);
    var st := Scan(s);
    if |st.current| > 0 {
      ConcatSnoc(st.tokens, st.current);
    }
  }

  predicate QuoteFree(s: string) {
    forall i :: 0 <= i < |s| ==> !IsQuote(s[i])
  }

  lemma {:induction false} ScanQuoteFree(s: string)
    requires QuoteFree(s)
    ensures var p := Split(s, ' ');
            && !Scan(s).inQuote
            && Scan(s).current == p[|p| - 1]
            && Scan(s).tokens == NonEmpty(p[..|p| - 1])
    decreases |s|
  {
    if |s| > 0 {
      var pre := s[..|s| - 1];
      var c := s[|s| - 1];
      assert QuoteFree(pre);
      ScanQuoteFree(pre);
      assert s == pre + [c];
      SplitOnSnoc(pre, c, {' '});
      QuoteFreeStep(Scan(pre), Split(pre, ' '), c);
    }
  }

  /** One unquoted character: a space closes the last piece of the split, anything else extends it. */
  lemma QuoteFreeStep(st: TokState, p: seq<string>, c: char)
    requires |p| > 0 && !IsQuote(c) && !st.inQuote
    requires st.current == p[|p| - 1] && st.tokens == NonEmpty(p[..|p| - 1])
    ensures var q := if c == ' ' then p + [""] else p[..|p| - 1] + [p[|p| - 1] + [c]];
            && !Step(st, c).inQuote
            && Step(st, c).current == q[|q| - 1]
            && Step(st, c).tokens == NonEmpty(q[..|q| - 1])
  {
    if c == ' ' {
      assert (p + [""])[..|p|] == p;
      assert p == p[..|p| - 1] + [p[|p| - 1]];
      NonEmptyAppend(p[..|p| - 1], [p[|p| - 1]]);
    } else {
      assert (p[..|p| - 1] + [p[|p| - 1] + [c]])[..|p| - 1] == p[..|p| - 1];
    }
  }

  /** Without quote characters the tokenizer is split-on-space with the empty pieces dropped. */
  lemma QuoteFreeTokens(s: string)
    requires QuoteFree(s)
    ensures Tokens(s) == NonEmpty(Split(s, ' '))
  {
    ScanQuoteFree(s);
    var p := Split(s, ' ');
    assert p == p[..|p| - 1] + [p[|p| - 1]];
    NonEmptyAppend(p[..|p| - 1], [p[|p| - 1]]);
  }

  // ---------------------------------------------------------------- flags

  datatype Flags = Flags(flags: map<string, string>, positionals: seq<string>)

  predicate IsFlag(p: string) {
    HasPrefix(p, "--")
  }

  /**
   * `parseFlags` read from the left: a flag with a following item takes it as its value
   * (whatever it looks like), a later value for the same key wins, and everything else,
   * including a trailing flag, is a positional.
   */
  function ParsedFlags(parts: seq<string>): Flags
    decreases |parts|
  {
    if |parts| == 0 then Flags(map[], [])
    else if IsFlag(parts[0]) && |parts| >= 2 then
      var rest := ParsedFlags(parts[2..]);
      Flags(map[parts[0][2..] := parts[1]] + rest.flags, rest.positionals)
    else
      var rest := ParsedFlags(parts[1..]);
      Flags(rest.flags, [parts[0]] + rest.positionals)
  }

  /** `parseFlags`. */
  method ParseFlags(parts: seq<string>) returns (flags: map<string, string>, positionals: seq<string>)
    ensures Flags(flags, positionals) == ParsedFlags(parts)
  {
    flags := map[];
    positionals := [];
    var i := 0;
    while i < |parts|
      invariant 0 <= i <= |parts|
      invariant ParsedFlags(parts) == Flags(flags + ParsedFlags(parts[i..]).flags, positionals + ParsedFlags(parts[i..]).positionals)
      decreases |parts| - i
    {
      var p := parts[i];
      var rest := ParsedFlags(parts[i..]);
      if IsFlag(p) && i + 1 < |parts| {
        var key := p[2..];
        assert parts[i..][2..] == parts[i + 2..];
        var after := ParsedFlags(parts[i + 2..]);
        assert flags + (map[key := parts[i + 1]] + after.flags) == flags[key := parts[i + 1]] + after.flags;
        flags := flags[key := parts[i + 1]];
        i := i + 2;
      } else {
        assert parts[i..][1..] == parts[i + 1..];
        assert positionals + ([p] + ParsedFlags(parts[i + 1..]).positionals)
            == (positionals + [p]) + ParsedFlags(parts[i + 1..]).positionals;
        positionals := positionals + [p];
        i := i + 1;
      }
    }
    assert parts[|parts|..] == [];
  }

  /** Every flag value is the item right after a `--key` item. */
  lemma {:induction false} FlagValuesFollowKeys(parts: seq<string>)
    ensures var f := ParsedFlags(parts).flags;
            forall k :: k in f ==> exists i :: 0 <= i < |parts| - 1 && parts[i] == "--" + k && f[k] == parts[i + 1]
    decreases |parts|
  {
    if |parts| > 0 {
      var f := ParsedFlags(parts).flags;
      if IsFlag(parts[0]) && |parts| >= 2 {
        FlagValuesFollowKeys(parts[2..]);
        var rest := ParsedFlags(parts[2..]).flags;
        forall k | k in f
          ensures exists i :: 0 <= i < |parts| - 1 && parts[i] == "--" + k && f[k] == parts[i + 1]
        {
          if k in rest {
            var j :| 0 <= j < |parts[2..]| - 1 && parts[2..][j] == "--" + k && rest[k] == parts[2..][j + 1];
            assert parts[j + 2] == "--" + k && f[k] == parts[j + 3];
          } else {
            assert parts[0] == "--" + parts[0][2..];
          }
        }
      } else {
        FlagValuesFollowKeys(parts[1..]);
        var rest := ParsedFlags(parts[1..]).flags;
        forall k | k in f
          ensures exists i :: 0 <= i < |parts| - 1 && parts[i] == "--" + k && f[k] == parts[i + 1]
        {
          var j :| 0 <= j < |parts[1..]| - 1 && parts[1..][j] == "--" + k && rest[k] == parts[1..][j + 1];
          assert parts[j + 1] == "--" + k && f[k] == parts[j + 2];
        }
      }
    }
  }

  /** Items that are not flags are all positionals, in order, and no flag is set. */
  lemma {:induction false} PlainItemsArePositional(parts: seq<string>)
    requires forall i :: 0 <= i < |parts| ==> !IsFlag(parts[i])
    ensures ParsedFlags(parts) == Flags(map[], parts)
    decreases |parts|
  {
    if |parts| > 0 {
      PlainItemsArePositional(parts[1..]);
      assert parts == [parts[0]] + parts[1..];
    }
  }

  /** A flag followed by anything, even another flag, takes it as its value; a later pair for the same key wins. */
  lemma FlagPairs(k: string, v: string, w: string, rest: seq<string>)
    ensures ParsedFlags(["--" + k, v] + rest) == Flags(map[k := v] + ParsedFlags(rest).flags, ParsedFlags(rest).positionals)
    ensures ParsedFlags(["--" + k, v, "--" + k, w]) == Flags(map[k := w], [])
  {
    var a := ["--" + k, v] + rest;
    assert a[0][2..] == k && a[2..] == rest;
    var b := ["--" + k, v, "--" + k, w];
    assert b[0][2..] == k && b[2..] == ["--" + k, w];
    var c := ["--" + k, w];
    assert c[0][2..] == k && c[2..] == [];
  }

  /** A flag with nothing after it is kept as a positional. */
  lemma TrailingFlag(before: seq<string>, k: string)
    requires forall i :: 0 <= i < |before| ==> !IsFlag(before[i])
    ensures ParsedFlags(before + ["--" + k]) == Flags(map[], before + ["--" + k])
  {
    var a := before + ["--" + k];
    PlainItemsArePositionalOrTrailing(a);
  }

  lemma {:induction false} PlainItemsArePositionalOrTrailing(parts: seq<string>)
    requires |parts| > 0
    requires forall i :: 0 <= i < |parts| - 1 ==> !IsFlag(parts[i])
    ensures ParsedFlags(parts) == Flags(map[], parts)
    decreases |parts|
  {
    if |parts| > 1 {
      PlainItemsArePositionalOrTrailing(parts[1..]);
      assert parts == [parts[0]] + parts[1..];
    }
  }

  // ---------------------------------------------------------------- help

  const HelpGeneral := "Quick Start Examples:\n  script create mybot python     Create a Python script\n  script run mybot --input '{\"message\":\"hello\"}'\n  env set API_KEY=sk-123        Set environment variable\n  view mybot                    View script source code\n  \nCommon Commands:\n  help [topic]           Show help (try: help script, help env)\n  ls scripts             List available scripts\n  script info <name>     Show script details and schemas\n  script create <name> <lang>  Create script (python|typescript)\n  script run <name> [options]  Run script with JSON input\n  env set KEY=VALUE      Set session environment variable\n  view <script> [what]   View script files/schemas/types\n  \nNavigation:\n  ls presets             List available presets\n  load <preset> [args]   Load a preset subscription\n  echo <text>            Echo text back\n  \nFor detailed help on any command, use: <command> --help"
  const HelpScript := "script commands:\n  script create <name> <lang>   Create a new script (python|typescript)\n  script run <name> [options]   Run a script with JSON input\n  script info <name>            Show script details and schemas\n\nRun Options:\n  --input <json>            Inline JSON input\n  --file <path>             Read JSON input from file\n  --env KEY=VALUE           Set environment variable\n\nExamples:\n  script create mybot python\n  script run mybot --input '{\"message\":\"hello\"}'\n  script run mybot --file input.json --env API_KEY=xyz\n  script info mybot"
  const HelpEnv := "env commands:\n  env set KEY=VALUE    Set an environment variable for this session\n  env list             List all session environment variables\n  env clear            Clear all session environment variables\n  \nExamples:\n  env set API_KEY=sk-123456\n  env set DATABASE_URL=postgres://localhost/mydb\n  env list\n  \nEnvironment variables are layered in this order (highest priority first):\n  1. Command-line --env flags\n  2. Session env (set with 'env set')\n  3. Script .env file\n  4. Repository .env file\n  5. OS environment"
  const HelpLoad := "load <presetID> [--key value ...]\nSubscribe this session to the preset's subjects.\n\nExample: load scriptsubs --script foo --job 42"
  const HelpLs := "ls commands:\n  ls scripts           List available scripts with their types\n  ls presets           List preset IDs\n  ls preset <id>       Show the subjects a preset subscribes to\n\nExamples:\n  ls scripts\n  ls presets\n  ls preset scriptsubs"
  const HelpView := "view commands:\n  view readme                    Show README.md\n  view <script>                  Show script source files\n  view <script> schema [in|out]  Show script's JSON schemas\n  view <script> types            Show generated type definitions\n  view <script> env              Show script's .env file\n\nExamples:\n  view mybot                     # Shows README + main script file\n  view mybot schema in           # Shows input schema\n  view mybot types               # Shows generated TypeScript/Python types"

  const HelpTopics: set<string> := {"", "general", "script", "env", "load", "ls", "view"}

  const NoHelpPrefix := "no help available for "

  /** `helpText`. */
  function HelpText(cmd: string): string {
    if cmd == "" || cmd == "general" then HelpGeneral
    else if cmd == "script" then HelpScript
    else if cmd == "env" then HelpEnv
    else if cmd == "load" then HelpLoad
    else if cmd == "ls" then HelpLs
    else if cmd == "view" then HelpView
    else NoHelpPrefix + cmd
  }

  /** The empty topic is the general overview; any other unknown topic is named in a fixed message. */
  lemma HelpTopicsCovered(t: string)
    ensures HelpText("") == HelpText("general")
    ensures t !in HelpTopics ==> HelpText(t) == NoHelpPrefix + t
  {
  }

  /**
   * The help branch of `handleCommand` on the whitespace-separated words: `help [topic]`,
   * or any command whose last word is `-h` or `--help`, which asks about its first word.
   */
  function HelpReply(parts: seq<string>): (r: Option<string>)
    ensures r.Some? <==> |parts| > 0 && (parts[0] == "help" || parts[|parts| - 1] in {"-h", "--help"})
  {
    if |parts| == 0 then None
    else if parts[0] == "help" then Some(HelpText(if |parts| > 1 then parts[1] else ""))
    else if parts[|parts| - 1] == "-h" || parts[|parts| - 1] == "--help" then Some(HelpText(parts[0]))
    else None
  }

  /** `help` wins over a trailing `--help`: `help script --help` is the script help. */
  lemma HelpWordFirst(topic: string, rest: seq<string>)
    ensures HelpReply(["help"]) == Some(HelpGeneral)
    ensures HelpReply(["help", topic] + rest) == Some(HelpText(topic))
  {
    assert (["help", topic] + rest)[0] == "help" && (["help", topic] + rest)[1] == topic;
  }

  /** A trailing `-h` or `--help` asks for the help of the first word, whatever lies between. */
  lemma TrailingHelpFlag(first: string, middle: seq<string>, flag: string)
    requires first != "help" && flag in {"-h", "--help"}
    ensures HelpReply([first] + middle + [flag]) == Some(HelpText(first))
  {
    var p := [first] + middle + [flag];
    assert p[0] == first && p[|p| - 1] == flag;
  }

  // ---------------------------------------------------------------- script run

  /** What the option words of `script run` set, or the error that stops the loop. */
  datatype RunOptions = BadOption(msg: string) | Options(input: Option<string>, env: map<string, string>)

  /** Options set first, then overridden by what the following words set; an error later on stops everything. */
  function Then(input: Option<string>, env: map<string, string>, later: RunOptions): RunOptions {
    match later
    case BadOption(_) => later
    case Options(i, e) => Options(if i.Some? then i else input, env + e)
  }

  /**
   * The option words read from the left. `--input` takes inline JSON, `--file` names a file
   * whose contents are the JSON, `--env` takes `KEY=VALUE` split at the first `=`; each needs
   * a following word. `jsonError` stands for `json.Unmarshal` (the error text, if the text is
   * not JSON) and `readFile` for `os.ReadFile`.
   */
  function OptionsFrom(opts: seq<string>, jsonError: string -> Option<string>, readFile: string -> Result<string>): RunOptions
    decreases |opts|
  {
    if |opts| == 0 then Options(None, map[])
    else
      var rest := if |opts| >= 2 then OptionsFrom(opts[2..], jsonError, readFile) else Options(None, map[]);
      OneOption(opts, rest, jsonError, readFile)
  }

  /** The first option word and its value, followed by `rest`, what the words after them give. */
  function OneOption(opts: seq<string>, rest: RunOptions, jsonError: string -> Option<string>, readFile: string -> Result<string>): RunOptions
    requires |opts| > 0
  {
    if opts[0] == "--input" then
      if |opts| < 2 then BadOption("error: --input requires a value")
      else if jsonError(opts[1]).Some? then BadOption("error: invalid JSON input: " + jsonError(opts[1]).value)
      else Then(Some(opts[1]), map[], rest)
    else if opts[0] == "--file" then
      if |opts| < 2 then BadOption("error: --file requires a path")
      else
        match readFile(opts[1])
        case Err(e) => BadOption("error: cannot read file: " + e)
        case Ok(data) =>
          if jsonError(data).Some? then BadOption("error: invalid JSON in file: " + jsonError(data).value)
          else Then(Some(data), map[], rest)
    else if opts[0] == "--env" then
      if |opts| < 2 then BadOption("error: --env requires KEY=VALUE")
      else
        var kv := opts[1];
        var k := IndexOf(kv, '=');
        if k == |kv| then BadOption("error: --env format is KEY=VALUE")
        else Then(None, map[kv[..k] := kv[k + 1..]], rest)
    else BadOption("error: unknown option: " + opts[0])
  }

  lemma ThenThen(input: Option<string>, env: map<string, string>, i2: Option<string>, e2: map<string, string>, r: RunOptions)
    ensures Then(input, env, Then(i2, e2, r)) == Then(if i2.Some? then i2 else input, env + e2, r)
  {
    if r.Options? {
      assert env + (e2 + r.env) == (env + e2) + r.env;
    }
  }

  /**
   * One pass of the option loop of `handleScriptRun`: the error the first option word and its
   * value give, or what they set before the words after them are read.
   */
  method ReadOption(opts: seq<string>, ghost rest: RunOptions, jsonError: string -> Option<string>, readFile: string -> Result<string>)
    returns (step: RunOptions)
    requires |opts| > 0
    ensures step.BadOption? ==> OneOption(opts, rest, jsonError, readFile) == step
    ensures step.Options? ==>
      |opts| >= 2 && |step.env| <= 1 && OneOption(opts, rest, jsonError, readFile) == Then(step.input, step.env, rest)
  {
    if opts[0] == "--input" {
      step := ReadInput(opts, rest, jsonError, readFile);
    } else if opts[0] == "--file" {
      step := ReadFile(opts, rest, jsonError, readFile);
    } else if opts[0] == "--env" {
      step := ReadEnv(opts, rest, jsonError, readFile);
    } else {
      step := BadOption("error: unknown option: " + opts[0]);
    }
  }

  method ReadInput(opts: seq<string>, ghost rest: RunOptions, jsonError: string -> Option<string>, readFile: string -> Result<string>)
    returns (step: RunOptions)
    requires |opts| > 0 && opts[0] == "--input"
    ensures step.BadOption? ==> OneOption(opts, rest, jsonError, readFile) == step
    ensures step.Options? ==>
      |opts| >= 2 && step.env == map[] && OneOption(opts, rest, jsonError, readFile) == Then(step.input, step.env, rest)
  {
    if |opts| < 2 {
      return BadOption("error: --input requires a value");
    }
    var e := jsonError(opts[1]);
    if e.Some? {
      return BadOption("error: invalid JSON input: " + e.value);
    }
    step := Options(Some(opts[1]), map[]);
  }

  method ReadFile(opts: seq<string>, ghost rest: RunOptions, jsonError: string -> Option<string>, readFile: string -> Result<string>)
    returns (step: RunOptions)
    requires |opts| > 0 && opts[0] == "--file"
    ensures step.BadOption? ==> OneOption(opts, rest, jsonError, readFile) == step
    ensures step.Options? ==>
      |opts| >= 2 && step.env == map[] && OneOption(opts, rest, jsonError, readFile) == Then(step.input, step.env, rest)
  {
    if |opts| < 2 {
      return BadOption("error: --file requires a path");
    }
    var data := readFile(opts[1]);
    if data.Err? {
      return BadOption("error: cannot read file: " + data.error);
    }
    var e := jsonError(data.value);
    if e.Some? {
      return BadOption("error: invalid JSON in file: " + e.value);
    }
    step := Options(Some(data.value), map[]);
  }

  method ReadEnv(opts: seq<string>, ghost rest: RunOptions, jsonError: string -> Option<string>, readFile: string -> Result<string>)
    returns (step: RunOptions)
    requires |opts| > 0 && opts[0] == "--env"
    ensures step.BadOption? ==> OneOption(opts, rest, jsonError, readFile) == step
    ensures step.Options? ==>
      |opts| >= 2 && |step.env| == 1 && OneOption(opts, rest, jsonError, readFile) == Then(step.input, step.env, rest)
  {
    if |opts| < 2 {
      return BadOption("error: --env requires KEY=VALUE");
    }
    var kv := opts[1];
    var k := IndexOf(kv, '=');
    if k == |kv| {
      return BadOption("error: --env format is KEY=VALUE");
    }
    step := Options(None, map[kv[..k] := kv[k + 1..]]);
  }

  /** The option loop of `handleScriptRun`, starting from a copy of the session environment. */
  method ParseRunOptions(tokens: seq<string>, sessionEnv: map<string, string>,
                         jsonError: string -> Option<string>, readFile: string -> Result<string>)
    returns (r: RunOptions)
    requires |tokens| >= 3
    ensures r == Then(None, sessionEnv, OptionsFrom(tokens[3..], jsonError, readFile))
  {
    var input: Option<string> := None;
    var env := sessionEnv;
    var i := 3;
    while i < |tokens|
      invariant 3 <= i <= |tokens|
      invariant Then(None, sessionEnv, OptionsFrom(tokens[3..], jsonError, readFile))
             == Then(input, env, OptionsFrom(tokens[i..], jsonError, readFile))
      decreases |tokens| - i
    {
      ghost var rest := if i + 2 <= |tokens| then OptionsFrom(tokens[i + 2..], jsonError, readFile) else Options(None, map[]);
      assert i + 2 <= |tokens| ==> tokens[i..][2..] == tokens[i + 2..];
      assert OptionsFrom(tokens[i..], jsonError, readFile) == OneOption(tokens[i..], rest, jsonError, readFile);
      var step := ReadOption(tokens[i..], rest, jsonError, readFile);
      if step.BadOption? {
        return step;
      }
      ThenThen(input, env, step.input, step.env, OptionsFrom(tokens[i + 2..], jsonError, readFile));
      if step.input.Some? {
        input := step.input;
      }
      env := env + step.env;
      i := i + 2;
    }
    assert tokens[|tokens|..] == [];
    r := Options(input, env);
  }

  const RunUsage := "usage: script run <name> [--input <json>] [--file <path>] [--env KEY=VALUE ...]"

  /** The reply of `handleScriptRun` and the command it publishes, if any. */
  datatype RunReply = RunReply(text: string, published: Option<ScriptRunCommand>)

  /**
   * `handleScriptRun`: tokenize, read the options, default the input to `{}`, and publish a
   * `ScriptRunCommand` whose environment is the session's overridden by `--env`.
   * `publishOk` says whether the broker accepts it; `PublishCommand` also validates it.
   */
  function ScriptRun(cmdStr: string, sessionEnv: map<string, string>, jsonError: string -> Option<string>,
                     readFile: string -> Result<string>, publishOk: bool): (r: RunReply)
    ensures |Tokens(cmdStr)| < 3 ==> r == RunReply(RunUsage, None)
    ensures r.published.Some? ==>
      && var tokens := Tokens(cmdStr);
      && var opts := OptionsFrom(tokens[3..], jsonError, readFile);
      && opts.Options?
      && r.published.value.scriptName == tokens[2]
      && r.published.value.input == (if opts.input.Some? then opts.input.value else "{}")
      && r.published.value.env == Some(sessionEnv + opts.env)
      && r.published.value.correlationId == cmdStr
  {
    var tokens := Tokens(cmdStr);
    if |tokens| < 3 then RunReply(RunUsage, None)
    else
      match Then(None, sessionEnv, OptionsFrom(tokens[3..], jsonError, readFile))
      case BadOption(msg) => RunReply(msg, None)
      case Options(input, env) =>
        var cmd := ScriptRunCommand(tokens[2], if input.Some? then input.value else "{}", Some(env), cmdStr);
        if !publishOk || MessageBuilders.ValidateScriptRun(cmd).Some? then RunReply("error: failed to run script", None)
        else RunReply("running " + tokens[2] + " with " + NatToString(|cmd.input|) + " bytes of input and "
                      + NatToString(|env|) + " env overrides", Some(cmd))
  }

  /** Nothing is published unless every option was read; an option error is the reply itself. */
  lemma BadOptionPublishesNothing(cmdStr: string, sessionEnv: map<string, string>, jsonError: string -> Option<string>,
                                  readFile: string -> Result<string>, publishOk: bool)
    requires |Tokens(cmdStr)| >= 3
    requires OptionsFrom(Tokens(cmdStr)[3..], jsonError, readFile).BadOption?
    ensures ScriptRun(cmdStr, sessionEnv, jsonError, readFile, publishOk)
         == RunReply(OptionsFrom(Tokens(cmdStr)[3..], jsonError, readFile).msg, None)
  {
  }

  /** Every error message of the option loop starts with "error: ". */
  lemma {:induction false} OptionErrorsAreErrors(opts: seq<string>, jsonError: string -> Option<string>, readFile: string -> Result<string>)
    ensures var r := OptionsFrom(opts, jsonError, readFile); r.BadOption? ==> HasPrefix(r.msg, "error: ")
    decreases |opts|
  {
    if |opts| > 0 {
      var rest := if |opts| >= 2 then OptionsFrom(opts[2..], jsonError, readFile) else Options(None, map[]);
      if |opts| >= 2 {
        OptionErrorsAreErrors(opts[2..], jsonError, readFile);
      }
      OneOptionErrors(opts, rest, jsonError, readFile);
    }
  }

  /** One option's failure is "error: " and a text, given that the words after it fail so. */
  lemma OneOptionErrors(opts: seq<string>, rest: RunOptions, jsonError: string -> Option<string>, readFile: string -> Result<string>)
    requires |opts| > 0
    requires rest.BadOption? ==> HasPrefix(rest.msg, "error: ")
    ensures var r := OneOption(opts, rest, jsonError, readFile); r.BadOption? ==> HasPrefix(r.msg, "error: ")
  {
    LiteralErrors();
    PrefixErrors();
    if opts[0] == "--input" {
      if |opts| >= 2 && jsonError(opts[1]).Some? {
        ErrorText("error: invalid JSON input: ", jsonError(opts[1]).value);
      }
    } else if opts[0] == "--file" {
      if |opts| >= 2 {
        match readFile(opts[1])
        case Err(e) => ErrorText("error: cannot read file: ", e);
        case Ok(data) =>
          if jsonError(data).Some? {
            ErrorText("error: invalid JSON in file: ", jsonError(data).value);
          }
      }
    } else if opts[0] != "--env" {
      ErrorText("error: unknown option: ", opts[0]);
    }
  }

  lemma LiteralErrors()
    ensures HasPrefix("error: --input requires a value", "error: ")
    ensures HasPrefix("error: --file requires a path", "error: ")
    ensures HasPrefix("error: --env requires KEY=VALUE", "error: ")
    ensures HasPrefix("error: --env format is KEY=VALUE", "error: ")
  {
  }

  lemma PrefixErrors()
    ensures HasPrefix("error: invalid JSON input: ", "error: ")
    ensures HasPrefix("error: cannot read file: ", "error: ")
    ensures HasPrefix("error: invalid JSON in file: ", "error: ")
    ensures HasPrefix("error: unknown option: ", "error: ")
  {
  }

  lemma ErrorText(m: string, v: string)
    requires HasPrefix(m, "error: ")
    ensures HasPrefix(m + v, "error: ")
  {
    assert (m + v)[..7] == m[..7];
  }

  /** `--env` splits at the first `=`: the key has none, the value keeps any later ones. */
  lemma EnvSplitsAtFirstEquals(k: string, v: string, jsonError: string -> Option<string>, readFile: string -> Result<string>)
    requires '=' !in k
    ensures OptionsFrom(["--env", k + "=" + v], jsonError, readFile) == Options(None, map[k := v])
  {
    var kv := k + "=" + v;
    assert kv == k + ("=" + v);
    PrefixIndex(k, "=" + v, '=');
    IndexOfSingleton(kv, '=');
    assert kv[..|k|] == k && kv[|k| + 1..] == v;
    var opts := ["--env", kv];
    assert opts[2..] == [];
    assert map[k := v] + map[] == map[k := v];
  }

  /** Without `--input` or `--file` no input is set, so the command carries `{}`. */
  lemma {:induction false} NoInputOption(opts: seq<string>, jsonError: string -> Option<string>, readFile: string -> Result<string>)
    requires forall i :: 0 <= i < |opts| ==> opts[i] != "--input" && opts[i] != "--file"
    ensures var r := OptionsFrom(opts, jsonError, readFile); r.Options? ==> r.input.None?
    decreases |opts|
  {
    if |opts| >= 2 {
      NoInputOption(opts[2..], jsonError, readFile);
    }
  }

  /** The published environment keeps each session variable that no `--env` overrides, and holds every override. */
  lemma SessionEnvUnderOverrides(cmdStr: string, sessionEnv: map<string, string>, jsonError: string -> Option<string>,
                                 readFile: string -> Result<string>, publishOk: bool, key: string)
    requires ScriptRun(cmdStr, sessionEnv, jsonError, readFile, publishOk).published.Some?
    ensures var env := ScriptRun(cmdStr, sessionEnv, jsonError, readFile, publishOk).published.value.env.value;
            var over := OptionsFrom(Tokens(cmdStr)[3..], jsonError, readFile).env;
            && env.Keys == sessionEnv.Keys + over.Keys
            && (key in over ==> env[key] == over[key])
            && (key in sessionEnv && key !in over ==> env[key] == sessionEnv[key])
  {
  }

  // ---------------------------------------------------------------- load

  /** What the terminal writes for a session: its subscriptions and its environment (nil is `None`). */
  datatype SessionInfo = SessionInfo(subscriptions: seq<string>, env: Option<map<string, string>>)

  function WithFreeze(subs: seq<string>, sid: string): seq<string> {
    if TerminalFreezeSubject(sid) in subs then subs else subs + [TerminalFreezeSubject(sid)]
  }

  /** The subjects `load` stores: the preset's, plus the session's terminal freeze subject if missing, sorted. */
  function LoadSubjects(p: RP.Preset, flags: map<string, string>, sid: string): (r: seq<string>)
    ensures Sorted(r) && multiset(r) == multiset(WithFreeze(RP.Build(p, flags), sid))
  {
    Sort(WithFreeze(RP.Build(p, flags), sid))
  }

  /**
   * The stored list holds exactly the preset's subjects and the freeze subject, and is one
   * longer than the preset's list only when that did not contain the freeze subject.
   */
  lemma LoadSubjectsContent(p: RP.Preset, flags: map<string, string>, sid: string)
    ensures var built := RP.Build(p, flags);
            var r := LoadSubjects(p, flags, sid);
            && TerminalFreezeSubject(sid) in r
            && (forall x :: x in r <==> x in built || x == TerminalFreezeSubject(sid))
            && |r| == |built| + (if TerminalFreezeSubject(sid) in built then 0 else 1)
  {
    var built := RP.Build(p, flags);
    var r := LoadSubjects(p, flags, sid);
    var w := WithFreeze(built, sid);
    assert multiset(r) == multiset(w);
    forall x ensures x in r <==> x in w {
      assert x in r <==> x in multiset(r);
      assert x in w <==> x in multiset(w);
    }
    assert |r| == |multiset(r)| == |multiset(w)| == |w|;
  }

  datatype Reply = Reply(text: string, store: Option<SessionInfo>)

  const LoadUsage := "usage: load <presetID> [--key value ...]"

  /** The `load` branch of `handlePresetCommand`; the record it writes replaces the session's, environment included. */
  function LoadReply(parts: seq<string>, sid: string, bucket: bool, putOk: bool): (r: Reply)
    requires |parts| > 0 && parts[0] == "load"
    ensures r.store.Some? <==> |parts| >= 2 && parts[1] in RP.Presets && bucket && putOk
    ensures r.store.Some? ==>
      r.store.value == SessionInfo(LoadSubjects(RP.Presets[parts[1]], ParsedFlags(parts[2..]).flags, sid), None)
  {
    if |parts| < 2 then Reply(LoadUsage, None)
    else if parts[1] !in RP.Presets then Reply("unknown preset", None)
    else
      var subs := LoadSubjects(RP.Presets[parts[1]], ParsedFlags(parts[2..]).flags, sid);
      if !bucket then Reply("kv error", None)
      else if !putOk then Reply("failed to load preset", None)
      else Reply("preset " + parts[1] + " loaded (" + NatToString(|subs|) + " subjects)", Some(SessionInfo(subs, None)))
  }

  /** A loaded script preset subscribes the session to the four job subjects it asks for and to its own freeze subject. */
  lemma LoadScriptPreset(script: string, job: string, sid: string, bucket: bool, putOk: bool)
    requires bucket && putOk && script != "" && job != ""
    ensures var r := LoadReply(["load", RP.PresetKeyScriptSubs, "--script", script, "--job", job], sid, bucket, putOk);
            && r.store.Some?
            && (forall x :: x in r.store.value.subscriptions <==>
                   x in [ScriptJobStartedSubject(script, job), ScriptJobExitSubject(script, job),
                         ScriptJobStdoutSubject(script, job), ScriptJobStderrSubject(script, job),
                         TerminalFreezeSubject(sid)])
  {
    var parts := ["load", RP.PresetKeyScriptSubs, "--script", script, "--job", job];
    assert parts[2..] == ["--script", script, "--job", job];
    ScriptJobFlags(script, job);
    var flags := map["script" := script, "job" := job];
    assert RP.Lookup(flags, "script") == script && RP.Lookup(flags, "job") == job;
    RP.ScriptPresetIsBuilders(flags);
    LoadSubjectsContent(RP.Presets[RP.PresetKeyScriptSubs], flags, sid);
  }

  /** The flags `--script S --job J` read as the two keys they name. */
  lemma ScriptJobFlags(script: string, job: string)
    ensures ParsedFlags(["--script", script, "--job", job]).flags == map["script" := script, "job" := job]
  {
    var opts := ["--script", script, "--job", job];
    var tail := ["--job", job];
    assert IsFlag(opts[0]) && opts[0][2..] == "script" && opts[2..] == tail;
    assert IsFlag(tail[0]) && tail[0][2..] == "job" && tail[2..] == [];
    assert ParsedFlags(tail).flags == map["job" := job] + map[];
    assert ParsedFlags(opts).flags == map["script" := script] + (map["job" := job] + map[]);
  }

  // ---------------------------------------------------------------- env (terminal form)

  /** The stored session environment, or an empty one. */
  function EnvOf(info: Option<SessionInfo>): map<string, string> {
    if info.Some? && info.value.env.Some? then info.value.env.value else map[]
  }

  /** The `key=value` lines of an environment in byte order of the lines, as `slices.Sort` leaves them. */
  ghost function EnvLines(env: map<string, string>): (r: seq<string>)
    ensures Sorted(r) && |r| == |env|
  {
    var keys := SortedSet(env.Keys);
    var lines := seq(|keys|, i requires 0 <= i < |keys| => keys[i] + "=" + env[keys[i]]);
    var r := Sort(lines);
    assert |r| == |multiset(r)| == |multiset(lines)| == |lines|;
    r
  }

  /** `handleEnvCommand`: `None` when the first word is not `env`. */
  ghost function EnvReply(parts: seq<string>, bucket: bool, stored: Option<SessionInfo>, putOk: bool): (r: Option<Reply>)
    ensures r.Some? <==> |parts| > 0 && parts[0] == "env"
    ensures r.Some? && r.value.store.Some? ==> bucket && putOk && |parts| >= 2 && parts[1] in {"set", "clear"}
  {
    if |parts| == 0 || parts[0] != "env" then None
    else if |parts| == 1 then Some(Reply("usage: env [set|list|clear]", None))
    else if !bucket then Some(Reply("error: cannot access session store", None))
    else if parts[1] == "set" then
      if |parts| < 3 then Some(Reply("usage: env set KEY=VALUE", None))
      else
        var envStr := Join(parts[2..], " ");
        var eq := IndexOf(envStr, '=');
        if eq == |envStr| then Some(Reply("error: format is KEY=VALUE", None))
        else
          var key := envStr[..eq];
          var value := envStr[eq + 1..];
          var subs := if stored.Some? then stored.value.subscriptions else [];
          if !putOk then Some(Reply("error: failed to save env var", None))
          else Some(Reply("set " + key + "=" + value, Some(SessionInfo(subs, Some(EnvOf(stored)[key := value])))))
    else if parts[1] == "list" then
      var env := EnvOf(stored);
      if |env| == 0 then Some(Reply("no session environment variables set", None))
      else Some(Reply("session environment:\n  " + Join(EnvLines(env), "\n  "), None))
    else if parts[1] == "clear" then
      var subs := if stored.Some? then stored.value.subscriptions else [];
      if !putOk then Some(Reply("error: failed to clear env vars", None))
      else Some(Reply("cleared all session environment variables", Some(SessionInfo(subs, None))))
    else Some(Reply("unknown env command: " + parts[1], None))
  }

  /**
   * `env set` stores the subscriptions it read and the environment with one key changed:
   * the text up to the first `=` of the words after `set`, joined by spaces.
   */
  lemma EnvSetChangesOneKey(parts: seq<string>, stored: Option<SessionInfo>, other: string)
    requires |parts| >= 3 && parts[0] == "env" && parts[1] == "set"
    requires '=' in Join(parts[2..], " ")
    ensures var r := EnvReply(parts, true, stored, true).value;
            var envStr := Join(parts[2..], " ");
            var key := envStr[..IndexOf(envStr, '=')];
            && r.store.Some? && r.store.value.env.Some?
            && r.store.value.env.value[key] == envStr[IndexOf(envStr, '=') + 1..]
            && (other != key && other in EnvOf(stored) ==>
                  other in r.store.value.env.value && r.store.value.env.value[other] == EnvOf(stored)[other])
            && r.store.value.env.value.Keys == EnvOf(stored).Keys + {key}
  {
  }

  // ---------------------------------------------------------------- presets (terminal form)

  /** The preset ids in sorted order. */
  const PresetIds := [RP.PresetKeyChatSubs, RP.PresetKeyOrderSubs, RP.PresetKeyScriptSubs]

  lemma PresetIdsSorted()
    ensures PresetIds == SortedSet(RP.Presets.Keys)
  {
    assert Less(PresetIds[0], PresetIds[1]) && Less(PresetIds[1], PresetIds[2]) && Less(PresetIds[0], PresetIds[2]);
    SortedSetUnique(RP.Presets.Keys, PresetIds);
  }

  /** Go's `%v` of a `[]string`: the elements between brackets, separated by spaces. */
  function FormatList(xs: seq<string>): string {
    "[" + Join(xs, " ") + "]"
  }

  /** `handlePresetCommand`: `ls presets`, `ls scripts`, `ls preset <id>` and `load`; `None` when not handled. */
  function PresetReply(parts: seq<string>, sid: string, w: World): (r: Option<Reply>)
    ensures r.Some? ==> |parts| > 0 && parts[0] in {"ls", "load"}
    ensures |parts| > 0 && parts[0] == "load" ==> r == Some(LoadReply(parts, sid, w.bucket, w.putOk))
  {
    if |parts| == 0 then None
    else if parts[0] == "ls" then
      if |parts| >= 2 && parts[1] == "presets" then Some(Reply("available presets: " + Join(PresetIds, ", "), None))
      else if |parts| >= 2 && parts[1] == "scripts" then
        if w.scriptEntries.None? then Some(Reply("error reading scripts directory", None))
        else Some(Reply("available scripts:\n  " + Join(Sort(w.scriptEntries.value), "\n  "), None))
      else if |parts| >= 3 && parts[1] == "preset" then
        if parts[2] !in RP.Presets then Some(Reply("unknown preset", None))
        else Some(Reply(parts[2] + ": " + FormatList(RP.Build(RP.Presets[parts[2]], map[])), None))
      else None
    else if parts[0] == "load" then Some(LoadReply(parts, sid, w.bucket, w.putOk))
    else None
  }

  // ---------------------------------------------------------------- dispatch

  /** What the filesystem part of `view <script> ...` decides: the reply so far and the view kind. */
  datatype ViewOutcome = ViewOutcome(outText: string, docPath: string)

  /**
   * The outside world as the terminal sees it for one command: whether the "sessions"
   * bucket opens, this session's record (`None` when absent or unreadable), whether writes
   * and publishes succeed, the entries of ./scripts, the filesystem checks of `view` and
   * `script info`, JSON parsing and file reading.
   */
  datatype World = World(
    bucket: bool,
    stored: Option<SessionInfo>,
    putOk: bool,
    publishOk: bool,
    scriptEntries: Option<seq<string>>,
    viewScript: seq<string> -> ViewOutcome,
    scriptInfo: string -> string,
    jsonError: string -> Option<string>,
    readFile: string -> Result<string>)

  /** `getSessionEnv`: nil (here empty) when the bucket does not open. */
  function SessionEnv(w: World): map<string, string> {
    if w.bucket then EnvOf(w.stored) else map[]
  }

  /** The `view` branch: `readme` in any case opens README.md; a script name goes to the filesystem checks. */
  function ViewReply(cmd: string, w: World): ViewOutcome {
    var parts := Split(cmd, ' ');
    if |parts| < 2 then ViewOutcome("usage: view <doc|scriptname> [schema|types|env]", "")
    else
      var doc := Lower(parts[1]);
      if doc == "readme" || doc == "readme.md" then ViewOutcome("opening README.md", "README.md")
      else w.viewScript(parts)
  }

  /** The prefix switch of `handleCommand`, on the raw command text: the reply text and the document kind. */
  function SwitchReply(cmd: string, w: World): ViewOutcome {
    if HasPrefix(cmd, "view ") then ViewReply(cmd, w)
    else if HasPrefix(cmd, "echo ") then ViewOutcome(TrimSpace(cmd[|"echo "|..]), "")
    else if HasPrefix(cmd, "script create ") then
      var parts := Split(cmd, ' ');
      if |parts| < 4 then ViewOutcome("usage: script create <name> <lang>", "")
      else if w.publishOk && MessageBuilders.ValidateScriptCreate(ScriptCreateCommand(parts[2], parts[3], cmd)).None?
      then ViewOutcome("script create requested", "")
      else ViewOutcome("error: failed to create script", "")
    else if HasPrefix(cmd, "script run ") then
      ViewOutcome(ScriptRun(cmd, SessionEnv(w), w.jsonError, w.readFile, w.publishOk).text, "")
    else if HasPrefix(cmd, "script info ") then
      var parts := Split(cmd, ' ');
      if |parts| < 3 then ViewOutcome("usage: script info <name>", "") else ViewOutcome(w.scriptInfo(parts[2]), "")
    else ViewOutcome("error: unknown command", "")
  }

  const NotFound := "error: view target not found"

  /** The last step of `handleCommand`: an outcome still "ok" with no document kind set is an error. */
  function FinalOutput(o: ViewOutcome): (r: string)
    ensures r == NotFound <==> (o.outText == "ok" && o.docPath == "") || o.outText == NotFound
    ensures r != NotFound ==> r == o.outText
  {
    if o.docPath == "" && o.outText == "ok" then NotFound else o.outText
  }

  /**
   * `handleCommand`: nothing is sent for an empty session id; otherwise help, then the
   * preset commands, then `env`, then the prefix switch and the final rule, on the
   * whitespace-separated words of the command.
   */
  ghost function HandleCommand(m: TerminalCommandMessage, w: World): (r: Option<Reply>)
    ensures r.None? <==> m.sessionId == ""
    ensures r.Some? && HelpReply(Fields(m.cmd)).Some? ==> r.value == Reply(HelpReply(Fields(m.cmd)).value, None)
    ensures r.Some? && r.value.store.Some? ==> |Fields(m.cmd)| >= 2 && Fields(m.cmd)[0] in {"load", "env"}
  {
    if m.sessionId == "" then None
    else
      var parts := Fields(m.cmd);
      var help := HelpReply(parts);
      if help.Some? then Some(Reply(help.value, None))
      else
        var preset := PresetReply(parts, m.sessionId, w);
        if preset.Some? then preset
        else
          var env := EnvReply(parts, w.bucket, w.stored, w.putOk);
          if env.Some? then env
          else Some(Reply(FinalOutput(SwitchReply(m.cmd, w)), None))
  }

  /** `echo` says what follows it, trimmed, except that "ok" falls to the final rule and becomes an error. */
  lemma EchoOutput(t: string, w: World)
    ensures FinalOutput(SwitchReply("echo " + t, w)) == if TrimSpace(t) == "ok" then NotFound else TrimSpace(t)
  {
    var cmd := "echo " + t;
    assert cmd[0] == 'e';
    assert cmd[..|"echo "|] == "echo ";
    assert cmd[|"echo "|..] == t;
  }

  /** A `view ` command always splits into two or more words, so its usage reply cannot occur. */
  lemma ViewUsageUnreachable(cmd: string)
    requires HasPrefix(cmd, "view ")
    ensures |Split(cmd, ' ')| >= 2
  {
    assert cmd[4] == ' ';
    assert forall i :: 0 <= i < 4 ==> cmd[i] != ' ';
    IndexOfSingleton(cmd, ' ');
    assert IndexOf(cmd, ' ') == 4;
  }

  /** `script info ` always splits into three or more words (the name may be empty), so its usage reply cannot occur. */
  lemma ScriptInfoUsageUnreachable(cmd: string)
    requires HasPrefix(cmd, "script info ")
    ensures |Split(cmd, ' ')| >= 3
  {
    var rest := cmd[7..];
    assert cmd[6] == ' ' && forall i :: 0 <= i < 6 ==> cmd[i] != ' ';
    IndexOfSingleton(cmd, ' ');
    assert IndexOf(cmd, ' ') == 6;
    assert Split(cmd, ' ') == [cmd[..6]] + Split(rest, ' ');
    assert rest[4] == ' ' && forall i :: 0 <= i < 4 ==> rest[i] != ' ';
    IndexOfSingleton(rest, ' ');
    assert IndexOf(rest, ' ') == 4;
  }
}
