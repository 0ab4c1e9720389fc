/**
 * Command validation, command construction from UI form data, the fluent
 * `With*` setters and validate-before-publish (internal/messages/builders.go).
 */
module MessageBuilders {
  import opened Wrappers
  import opened Strs
  import opened Json
  import opened Messages
  import Subject

  // ---------------------------------------------------------------- validation

  /** A character of the script-name pattern `^[a-zA-Z0-9_-]+$`. */
  predicate NameChar(c: char) {
    ('a' <= c <= 'z') || ('A' <= c <= 'Z') || ('0' <= c <= '9') || c == '_' || c == '-'
  }

  /** The whole name matches `^[a-zA-Z0-9_-]+$`: at least one character, all from the class. */
  predicate ValidScriptName(s: string) {
    |s| > 0 && forall i :: 0 <= i < |s| ==> NameChar(s[i])
  }

  const NameRequired := "script_name is required"
  const NameCharset := "script_name must contain only alphanumeric characters, hyphens, and underscores"
  const TypeChoice := "script_type must be 'python' or 'typescript'"

  /** `validateScriptCreateCommand`: name present, name charset, then script type. */
  function ValidateScriptCreate(c: ScriptCreateCommand): (err: Option<string>)
    ensures err.None? <==> ValidScriptName(c.scriptName) && (c.scriptType == "python" || c.scriptType == "typescript")
    ensures c.scriptName == "" ==> err == Some(NameRequired)
    ensures c.scriptName != "" && !ValidScriptName(c.scriptName) ==> err == Some(NameCharset)
    ensures ValidScriptName(c.scriptName) && c.scriptType != "python" && c.scriptType != "typescript" ==> err == Some(TypeChoice)
  {
    if c.scriptName == "" then Some(NameRequired)
    else if !ValidScriptName(c.scriptName) then Some(NameCharset)
    else if c.scriptType != "python" && c.scriptType != "typescript" then Some(TypeChoice)
    else None
  }

  /** `validateScriptRunCommand`: only the name is checked; input, env and correlation id are free. */
  function ValidateScriptRun(c: ScriptRunCommand): (err: Option<string>)
    ensures err.None? <==> ValidScriptName(c.scriptName)
    ensures c.scriptName == "" ==> err == Some(NameRequired)
    ensures c.scriptName != "" && !ValidScriptName(c.scriptName) ==> err == Some(NameCharset)
  {
    if c.scriptName == "" then Some(NameRequired)
    else if !ValidScriptName(c.scriptName) then Some(NameCharset)
    else None
  }

  /** The `Validate()` method of each command type. */
  function ValidateCommand(c: Command): Option<string> {
    match c
    case CreateCommand(cc) => ValidateScriptCreate(cc)
    case RunCommand(rc) => ValidateScriptRun(rc)
    case TerminalCommand(tc) => ValidateTerminalCommand(tc)
  }

  /** A valid script name is one subject token and not a wildcard. */
  lemma ValidNameIsToken(n: string)
    requires ValidScriptName(n)
    ensures DotFree(n) && n != "*" && n != ">"
  {
    assert NameChar(n[0]);
  }

  /**
   * Accepted names route exactly: the created subject of a valid name matches the
   * wildcard pattern, and the subject built for one valid name matches the other's
   * only when the names are equal.
   */
  lemma ValidNamesRouteExactly(n: string, m: string)
    requires ValidScriptName(n) && ValidScriptName(m)
    ensures Subject.Matches(ScriptCreatedSubjectPattern, ScriptCreatedSubject(n))
    ensures Subject.Matches(ScriptCreatedSubject(n), ScriptCreatedSubject(m)) <==> n == m
  {
    ValidNameIsToken(n);
    ValidNameIsToken(m);
    CreatedFilter("*", n);
    CreatedFilter(n, m);
  }

  // ---------------------------------------------------------------- BuildCommand

  /** The command types `BuildCommand` understands (`GetCommandTypes`). */
  const CommandTypes: seq<string> := ["ScriptCreateCommand", "ScriptRunCommand", "TerminalCommandMessage"]

  /** `args`: an array prints element by element; a non-empty string splits on white space. */
  ghost function RunArgs(data: map<string, Value>): Option<seq<string>> {
    if "args" in data && data["args"].Array? then
      var xs := data["args"].items;
      Some(PrintedArgs(xs))
    else if "args" in data && data["args"].Str? && data["args"].s != "" then
      Some(Fields(data["args"].s))
    else None
  }

  /** `env`: an object becomes a string map of printed values; anything else leaves it nil. */
  ghost function RunEnv(data: map<string, Value>): Option<map<string, string>> {
    if "env" in data && data["env"].Object? then
      Some(PrintedEnv(data["env"].fields))
    else None
  }

  ghost function PrintedArgs(xs: seq<Value>): (r: seq<string>)
    ensures |r| == |xs|
  {
    seq(|xs|, i requires 0 <= i < |xs| => Sprint(xs[i]))
  }

  ghost function PrintedEnv(m: map<string, Value>): map<string, string> {
    map k | k in m :: Sprint(m[k])
  }

  /** The `[]interface{}` to `[]string` loop: each element printed with `%v`. */
  method SprintAll(xs: seq<Value>) returns (strArgs: seq<string>)
    ensures strArgs == PrintedArgs(xs)
  {
    strArgs := [];
    for i := 0 to |xs|
      invariant |strArgs| == i
      invariant forall k :: 0 <= k < i ==> strArgs[k] == Sprint(xs[k])
    {
      var t := SprintValue(xs[i]);
      strArgs := strArgs + [t];
    }
  }

  /** The `map[string]interface{}` to `map[string]string` loop: each value printed with `%v`. */
  method SprintEnv(envData: map<string, Value>) returns (envMap: map<string, string>)
    ensures envMap == PrintedEnv(envData)
  {
    envMap := map[];
    var rest := envData.Keys;
    while rest != {}
      invariant rest <= envData.Keys
      invariant forall k :: k in envMap <==> k in envData && k !in rest
      invariant forall k :: k in envMap ==> envMap[k] == Sprint(envData[k])
      decreases |rest|
    {
      var k :| k in rest;
      var t := SprintValue(envData[k]);
      envMap := envMap[k := t];
      rest := rest - {k};
    }
    assert envMap.Keys == PrintedEnv(envData).Keys;
  }

  /**
   * The command built from form data. A correlation id is copied only when it is a
   * non-empty string, which leaves the same text as `StringField`. No validation happens.
   */
  ghost function BuildCommandSpec(messageType: string, data: map<string, Value>): Result<Command> {
    if messageType == "ScriptCreateCommand" then
      Ok(CreateCommand(ScriptCreateCommand(StringField(data, "script_name"), StringField(data, "script_type"),
                                           StringField(data, "correlation_id"))))
    else if messageType == "ScriptRunCommand" then
      Ok(RunCommand(ScriptRunCommand(StringField(data, "script_name"), "", RunEnv(data),
                                     StringField(data, "correlation_id"))))
    else if messageType == "TerminalCommandMessage" then
      Ok(TerminalCommand(TerminalCommandMessage(StringField(data, "session_id"), StringField(data, "cmd"))))
    else Err("unknown command type: " + messageType)
  }

  /**
   * `BuildCommand`. `args` is the list a run command hands to `WithArgs`, which the
   * run command type has no field for (see README).
   */
  method BuildCommand(messageType: string, data: map<string, Value>) returns (r: Result<Command>, args: Option<seq<string>>)
    ensures r == BuildCommandSpec(messageType, data)
    ensures args == (if messageType == "ScriptRunCommand" then RunArgs(data) else None)
  {
    args := None;
    if messageType == "ScriptCreateCommand" {
      var cmd := new CreateCommandRef(StringField(data, "script_name"), StringField(data, "script_type"));
      if "correlation_id" in data && data["correlation_id"].Str? && data["correlation_id"].s != "" {
        cmd.WithCorrelation(data["correlation_id"].s);
      }
      r := Ok(CreateCommand(cmd.cmd));
    } else if messageType == "ScriptRunCommand" {
      var cmd := new RunCommandRef(StringField(data, "script_name"));
      if "args" in data && data["args"].Array? {
        var strArgs := SprintAll(data["args"].items);
        args := Some(strArgs);
      } else if "args" in data && data["args"].Str? && data["args"].s != "" {
        args := Some(Fields(data["args"].s));
      }
      if "env" in data && data["env"].Object? {
        var envMap := SprintEnv(data["env"].fields);
        cmd.WithEnv(Some(envMap));
      }
      if "correlation_id" in data && data["correlation_id"].Str? && data["correlation_id"].s != "" {
        cmd.WithCorrelation(data["correlation_id"].s);
      }
      r := Ok(RunCommand(cmd.cmd));
    } else if messageType == "TerminalCommandMessage" {
      r := Ok(TerminalCommand(TerminalCommandMessage(StringField(data, "session_id"), StringField(data, "cmd"))));
    } else {
      r := Err("unknown command type: " + messageType);
    }
  }

  /** Exactly the listed command types are built; every other name is an error. */
  lemma BuildAcceptsCommandTypes(messageType: string, data: map<string, Value>)
    ensures BuildCommandSpec(messageType, data).Ok? <==> messageType in CommandTypes
    ensures messageType !in CommandTypes ==> BuildCommandSpec(messageType, data) == Err("unknown command type: " + messageType)
  {
  }

  /** The form fields of a command rebuild that command (run commands with string env values). */
  lemma BuildRoundTrip(c: ScriptCreateCommand, t: TerminalCommandMessage, name: string, cid: string, env: map<string, string>)
    ensures BuildCommandSpec("ScriptCreateCommand",
      map["script_name" := Str(c.scriptName), "script_type" := Str(c.scriptType), "correlation_id" := Str(c.correlationId)])
      == Ok(CreateCommand(c))
    ensures BuildCommandSpec("TerminalCommandMessage", map["session_id" := Str(t.sessionId), "cmd" := Str(t.cmd)])
      == Ok(TerminalCommand(t))
    ensures BuildCommandSpec("ScriptRunCommand",
      map["script_name" := Str(name), "env" := Object(map k | k in env :: Str(env[k])), "correlation_id" := Str(cid)])
      == Ok(RunCommand(ScriptRunCommand(name, "", Some(env), cid)))
  {
    var m := map k | k in env :: Str(env[k]);
    var data := map["script_name" := Str(name), "env" := Object(m), "correlation_id" := Str(cid)];
    assert data["env"].fields == m;
    assert forall k :: k in m ==> Sprint(m[k]) == env[k];
    assert PrintedEnv(m) == env;
    assert RunEnv(data) == Some(env);
  }

  /** Building does not validate: empty form data yields a command that `Validate` rejects. */
  lemma BuildDoesNotValidate()
    ensures BuildCommandSpec("ScriptCreateCommand", map[]) == Ok(CreateCommand(ScriptCreateCommand("", "", "")))
    ensures ValidateCommand(CreateCommand(ScriptCreateCommand("", "", ""))) == Some(NameRequired)
  {
  }

  // ---------------------------------------------------------------- fluent setters

  /** A `*ScriptCreateCommand` being filled in. */
  class CreateCommandRef {
    var cmd: ScriptCreateCommand

    /** `NewScriptCreateCommand`. */
    constructor(name: string, scriptType: string)
      ensures cmd == ScriptCreateCommand(name, scriptType, "")
    {
      cmd := ScriptCreateCommand(name, scriptType, "");
    }

    method WithCorrelation(id: string)
      modifies this
      ensures cmd == old(cmd).(correlationId := id)
    {
      cmd := cmd.(correlationId := id);
    }
  }

  /** A `*ScriptRunCommand` being filled in. */
  class RunCommandRef {
    var cmd: ScriptRunCommand

    /** `NewScriptRunCommand`: only the name; input, env and correlation id are zero. */
    constructor(name: string)
      ensures cmd == ScriptRunCommand(name, "", None, "")
    {
      cmd := ScriptRunCommand(name, "", None, "");
    }

    /** Replaces the env map (a nil map is `None`). */
    method WithEnv(env: Option<map<string, string>>)
      modifies this
      ensures cmd == old(cmd).(env := env)
    {
      cmd := cmd.(env := env);
    }

    method WithCorrelation(id: string)
      modifies this
      ensures cmd == old(cmd).(correlationId := id)
    {
      cmd := cmd.(correlationId := id);
    }
  }

  /** An event held by reference, on which `WithCorrelation` / `WithError` are called. */
  class EventRef {
    var evt: Event

    constructor(e: Event)
      ensures evt == e
    {
      evt := e;
    }

    /** Defined on the created, create-error, started, output, exit and job-error events. */
    method WithCorrelation(id: string)
      requires !evt.ScriptJobData? && !evt.TerminalFreeze?
      modifies this
      ensures evt == WithCorrelationId(old(evt), id)
    {
      evt := WithCorrelationId(evt, id);
    }

    /** Defined on the exit event only. */
    method WithError(err: string)
      requires evt.ScriptJobExit?
      modifies this
      ensures evt == ScriptJobExit(old(evt).scriptName, old(evt).jobId, old(evt).exitCode, err, old(evt).correlationId)
    {
      evt := ScriptJobExit(evt.scriptName, evt.jobId, evt.exitCode, err, evt.correlationId);
    }
  }

  /** The event with its correlation id replaced; its kind, subject and other fields stay. */
  function WithCorrelationId(e: Event, id: string): (r: Event)
    requires !e.ScriptJobData? && !e.TerminalFreeze?
    ensures !r.ScriptJobData? && !r.TerminalFreeze? && r.correlationId == id
    ensures EventSubject(r) == EventSubject(e)
  {
    match e
    case ScriptCreated(n, t, _) => ScriptCreated(n, t, id)
    case ScriptCreateError(n, m, _) => ScriptCreateError(n, m, id)
    case ScriptJobStarted(n, j, p, _) => ScriptJobStarted(n, j, p, id)
    case ScriptJobOutput(n, j, st, d, _) => ScriptJobOutput(n, j, st, d, id)
    case ScriptJobExit(n, j, c, m, _) => ScriptJobExit(n, j, c, m, id)
    case ScriptJobError(n, m, _) => ScriptJobError(n, m, id)
  }

  /** Setting the old correlation id back restores the event: no other field moved. */
  lemma CorrelationRestores(e: Event, id: string)
    requires !e.ScriptJobData? && !e.TerminalFreeze?
    ensures WithCorrelationId(WithCorrelationId(e, id), e.correlationId) == e
  {
  }

  // ---------------------------------------------------------------- publishing

  /**
   * A publisher over a broker. The broker's answer to each publish is a parameter
   * (`None` for an acknowledgement); marshalling these types cannot fail.
   */
  class Publisher {
    var commands: seq<(string, Command)>
    var events: seq<(string, Event)>

    /** Everything sent passed validation and went out on its own subject. */
    ghost predicate Valid()
      reads this
    {
      (forall i :: 0 <= i < |commands| ==> ValidateCommand(commands[i].1).None? && commands[i].0 == CommandSubject(commands[i].1))
      && (forall i :: 0 <= i < |events| ==> events[i].0 == EventSubject(events[i].1))
    }

    constructor()
      ensures commands == [] && events == [] && Valid()
    {
      commands := [];
      events := [];
    }

    /** `PublishCommand`: a command that fails `Validate` is never sent. */
    method PublishCommand(cmd: Command, brokerErr: Option<string>) returns (err: Option<string>)
      requires Valid()
      modifies this
      ensures Valid()
      ensures events == old(events)
      ensures ValidateCommand(cmd).Some? ==>
        err == Some("command validation failed: " + ValidateCommand(cmd).value) && commands == old(commands)
      ensures ValidateCommand(cmd).None? && brokerErr.Some? ==>
        err == Some("publish command: " + brokerErr.value) && commands == old(commands)
      ensures ValidateCommand(cmd).None? && brokerErr.None? ==>
        err == None && commands == old(commands) + [(CommandSubject(cmd), cmd)]
    {
      var v := ValidateCommand(cmd);
      if v.Some? {
        return Some("command validation failed: " + v.value);
      }
      if brokerErr.Some? {
        return Some("publish command: " + brokerErr.value);
      }
      commands := commands + [(CommandSubject(cmd), cmd)];
      return None;
    }

    /** `PublishEvent`: events always validate, so only the broker can refuse. */
    method PublishEvent(evt: Event, brokerErr: Option<string>) returns (err: Option<string>)
      requires Valid()
      modifies this
      ensures Valid()
      ensures commands == old(commands)
      ensures brokerErr.Some? ==> err == Some("publish event: " + brokerErr.value) && events == old(events)
      ensures brokerErr.None? ==> err == None && events == old(events) + [(EventSubject(evt), evt)]
    {
      if brokerErr.Some? {
        return Some("publish event: " + brokerErr.value);
      }
      events := events + [(EventSubject(evt), evt)];
      return None;
    }
  }
}
