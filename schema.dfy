/**
 * Message types, subject constants and subject builders of the messaging
 * schema (internal/messages/schema.go). Timestamps are left out; every other
 * field is kept.
 */
module Messages {
  import opened Wrappers
  import opened Strs
  import Subject

  // ---------------------------------------------------------------- subject constants

  const ScriptCreateSubject := "command.script.create"
  const ScriptRunSubject := "command.script.run"

  // The pattern constants are the builders below applied to the wildcard `*`;
  // PatternTexts proves them equal to the literal pattern strings.
  const ScriptCreatedSubjectPattern := ScriptCreatedSubject("*")
  const ScriptCreateErrorSubjectPattern := ScriptCreateErrorSubject("*")
  const ScriptJobStartedSubjectPattern := ScriptJobStartedSubject("*", "*")
  const ScriptJobStdoutSubjectPattern := ScriptJobStdoutSubject("*", "*")
  const ScriptJobStderrSubjectPattern := ScriptJobStderrSubject("*", "*")
  const ScriptJobExitSubjectPattern := ScriptJobExitSubject("*", "*")
  const ScriptJobErrorSubjectPattern := ScriptJobErrorSubject("*")
  const ScriptJobDataSubjectPattern := ScriptJobDataSubject("*", "*")

  const TerminalCommandSubject := "terminal.command"
  const TerminalFreezeSubjectPattern := TerminalFreezeSubject("*")

  // ---------------------------------------------------------------- commands

  datatype ScriptCreateCommand = ScriptCreateCommand(scriptName: string, scriptType: string, correlationId: string)

  /** `Input` is the raw JSON text; a nil `Env` map is `None`. */
  datatype ScriptRunCommand =
    ScriptRunCommand(scriptName: string, input: string, env: Option<map<string, string>>, correlationId: string)

  datatype TerminalCommandMessage = TerminalCommandMessage(sessionId: string, cmd: string)

  /** The three command types behind the `Command` interface. */
  datatype Command =
    | CreateCommand(create: ScriptCreateCommand)
    | RunCommand(run: ScriptRunCommand)
    | TerminalCommand(terminal: TerminalCommandMessage)

  /** Commands publish on static subjects. */
  function CommandSubject(c: Command): (r: string)
    ensures r in {ScriptCreateSubject, ScriptRunSubject, TerminalCommandSubject}
  {
    match c
    case CreateCommand(_) => ScriptCreateSubject
    case RunCommand(_) => ScriptRunSubject
    case TerminalCommand(_) => TerminalCommandSubject
  }

  /** `TerminalCommandMessage.Validate`: the session id is checked before the command text. */
  function ValidateTerminalCommand(c: TerminalCommandMessage): (err: Option<string>)
    ensures err.None? <==> c.sessionId != "" && c.cmd != ""
    ensures c.sessionId == "" ==> err == Some("session_id is required")
    ensures c.sessionId != "" && c.cmd == "" ==> err == Some("cmd is required")
  {
    if c.sessionId == "" then Some("session_id is required")
    else if c.cmd == "" then Some("cmd is required")
    else None
  }

  // ---------------------------------------------------------------- events

  /** The event types; `Validate` of every event accepts. */
  datatype Event =
    | ScriptCreated(scriptName: string, scriptType: string, correlationId: string)
    | ScriptCreateError(scriptName: string, error: string, correlationId: string)
    | ScriptJobStarted(scriptName: string, jobId: string, pid: int, correlationId: string)
    | ScriptJobOutput(scriptName: string, jobId: string, stream: string, data: string, correlationId: string)
    | ScriptJobExit(scriptName: string, jobId: string, exitCode: int, error: string, correlationId: string)
    | ScriptJobError(scriptName: string, error: string, correlationId: string)
    | ScriptJobData(scriptName: string, jobId: string, payload: string, correlationId: string)
    | TerminalFreeze(sessionId: string, cmd: string, output: string)

  /** The `Subject()` method of each event type. */
  function EventSubject(e: Event): string {
    match e
    case ScriptCreated(s, _, _) => "event.script." + s + ".created"
    case ScriptCreateError(s, _, _) => "event.script." + s + ".create.error"
    case ScriptJobStarted(s, j, _, _) => "event.script." + s + ".job." + j + ".started"
    case ScriptJobOutput(s, j, stream, _, _) => "event.script." + s + ".job." + j + "." + stream
    case ScriptJobExit(s, j, _, _, _) => "event.script." + s + ".job." + j + ".exit"
    case ScriptJobError(s, _, _) => "event.script." + s + ".job.error"
    case ScriptJobData(s, j, _, _) => "event.script." + s + ".job." + j + ".data"
    case TerminalFreeze(sid, _, _) => "event.terminal.session." + sid + ".freeze"
  }

  // ---------------------------------------------------------------- subject builders

  function ScriptCreatedSubject(scriptName: string): string {
    "event.script." + scriptName + ".created"
  }

  function ScriptCreateErrorSubject(scriptName: string): string {
    "event.script." + scriptName + ".create.error"
  }

  function ScriptJobStartedSubject(scriptName: string, jobId: string): string {
    "event.script." + scriptName + ".job." + jobId + ".started"
  }

  function ScriptJobStdoutSubject(scriptName: string, jobId: string): string {
    "event.script." + scriptName + ".job." + jobId + ".stdout"
  }

  function ScriptJobStderrSubject(scriptName: string, jobId: string): string {
    "event.script." + scriptName + ".job." + jobId + ".stderr"
  }

  function ScriptJobExitSubject(scriptName: string, jobId: string): string {
    "event.script." + scriptName + ".job." + jobId + ".exit"
  }

  function ScriptJobErrorSubject(scriptName: string): string {
    "event.script." + scriptName + ".job.error"
  }

  function ScriptJobDataSubject(scriptName: string, jobId: string): string {
    "event.script." + scriptName + ".job." + jobId + ".data"
  }

  function TerminalFreezeSubject(sessionId: string): string {
    "event.terminal.session." + sessionId + ".freeze"
  }

  // ---------------------------------------------------------------- builders agree with events

  /** Each event's `Subject()` is the matching builder; output events pick the builder by stream. */
  lemma EventSubjectsAreBuilders(s: string, j: string, sid: string, t: string, x: string, n: int)
    ensures EventSubject(ScriptCreated(s, t, x)) == ScriptCreatedSubject(s)
    ensures EventSubject(ScriptCreateError(s, t, x)) == ScriptCreateErrorSubject(s)
    ensures EventSubject(ScriptJobStarted(s, j, n, x)) == ScriptJobStartedSubject(s, j)
    ensures EventSubject(ScriptJobOutput(s, j, "stdout", t, x)) == ScriptJobStdoutSubject(s, j)
    ensures EventSubject(ScriptJobOutput(s, j, "stderr", t, x)) == ScriptJobStderrSubject(s, j)
    ensures EventSubject(ScriptJobExit(s, j, n, t, x)) == ScriptJobExitSubject(s, j)
    ensures EventSubject(ScriptJobError(s, t, x)) == ScriptJobErrorSubject(s)
    ensures EventSubject(ScriptJobData(s, j, t, x)) == ScriptJobDataSubject(s, j)
    ensures EventSubject(TerminalFreeze(sid, t, x)) == TerminalFreezeSubject(sid)
  {
  }

  // ---------------------------------------------------------------- builders match their patterns

  /** No `.` in a name: the name stays one subject token. */
  predicate DotFree(s: string) {
    '.' !in s
  }

  /** A dot-free leading token splits off on its own. */
  lemma SplitCons(a: string, b: string)
    requires DotFree(a)
    ensures Split(a + "." + b, '.') == [a] + Split(b, '.')
  {
    Subject.SplitAppend(a, b, '.');
    JoinSplit([a], '.');
  }

  /** A dot-free string is a single token. */
  lemma SplitOne(a: string)
    requires DotFree(a)
    ensures Split(a, '.') == [a]
  {
    JoinSplit([a], '.');
  }

  /** Four dot-free tokens joined with `.` split back into themselves. */
  lemma SplitFour(a: string, b: string, c: string, d: string)
    requires DotFree(a) && DotFree(b) && DotFree(c) && DotFree(d)
    ensures Split(a + "." + b + "." + c + "." + d, '.') == [a, b, c, d]
  {
    var cd := c + "." + d;
    var bcd := b + "." + cd;
    assert a + "." + b + "." + c + "." + d == a + "." + bcd;
    SplitOne(d);
    SplitCons(c, d);
    assert Split(cd, '.') == [c, d];
    SplitCons(b, cd);
    assert Split(bcd, '.') == [b, c, d];
    SplitCons(a, bcd);
  }

  lemma SplitFive(a: string, b: string, c: string, d: string, e: string)
    requires DotFree(a) && DotFree(b) && DotFree(c) && DotFree(d) && DotFree(e)
    ensures Split(a + "." + b + "." + c + "." + d + "." + e, '.') == [a, b, c, d, e]
  {
    var rest := b + "." + c + "." + d + "." + e;
    assert a + "." + b + "." + c + "." + d + "." + e == a + "." + rest;
    SplitFour(b, c, d, e);
    SplitCons(a, rest);
  }

  lemma SplitSix(a: string, b: string, c: string, d: string, e: string, f: string)
    requires DotFree(a) && DotFree(b) && DotFree(c) && DotFree(d) && DotFree(e) && DotFree(f)
    ensures Split(a + "." + b + "." + c + "." + d + "." + e + "." + f, '.') == [a, b, c, d, e, f]
  {
    var rest := b + "." + c + "." + d + "." + e + "." + f;
    assert a + "." + b + "." + c + "." + d + "." + e + "." + f == a + "." + rest;
    SplitFive(b, c, d, e, f);
    SplitCons(a, rest);
  }

  /** The tokens of a job subject `event.script.<s>.job.<j>.<kind>`. */
  lemma JobSubjectTokens(s: string, j: string, kind: string)
    requires DotFree(s) && DotFree(j) && DotFree(kind)
    ensures Split("event.script." + s + ".job." + j + "." + kind, '.') == ["event", "script", s, "job", j, kind]
  {
    assert "event.script." + s + ".job." + j + "." + kind == "event" + "." + "script" + "." + s + "." + "job" + "." + j + "." + kind;
    SplitSix("event", "script", s, "job", j, kind);
  }

  /** The tokens of a script subject `event.script.<s>.<kind>`. */
  lemma ScriptSubjectTokens(s: string, kind: string)
    requires DotFree(s) && DotFree(kind)
    ensures Split("event.script." + s + "." + kind, '.') == ["event", "script", s, kind]
  {
    assert "event.script." + s + "." + kind == "event" + "." + "script" + "." + s + "." + kind;
    SplitFour("event", "script", s, kind);
  }

  /** The tokens of `event.script.<s>.<k1>.<k2>`. */
  lemma ScriptSubjectTokens5(s: string, k1: string, k2: string)
    requires DotFree(s) && DotFree(k1) && DotFree(k2)
    ensures Split("event.script." + s + "." + k1 + "." + k2, '.') == ["event", "script", s, k1, k2]
  {
    assert "event.script." + s + "." + k1 + "." + k2 == "event" + "." + "script" + "." + s + "." + k1 + "." + k2;
    SplitFive("event", "script", s, k1, k2);
  }

  /** The tokens of a freeze subject `event.terminal.session.<sid>.freeze`. */
  lemma FreezeSubjectTokens(sid: string)
    requires DotFree(sid)
    ensures Split("event.terminal.session." + sid + ".freeze", '.') == ["event", "terminal", "session", sid, "freeze"]
  {
    assert "event.terminal.session." + sid + ".freeze" == "event" + "." + "terminal" + "." + "session" + "." + sid + "." + "freeze";
    SplitFive("event", "terminal", "session", sid, "freeze");
  }

  /** The pattern constants spelled out. */
  lemma PatternTexts()
    ensures ScriptCreatedSubjectPattern == "event.script.*.created"
    ensures ScriptCreateErrorSubjectPattern == "event.script.*.create.error"
    ensures ScriptJobStartedSubjectPattern == "event.script.*.job.*.started"
    ensures ScriptJobStdoutSubjectPattern == "event.script.*.job.*.stdout"
    ensures ScriptJobStderrSubjectPattern == "event.script.*.job.*.stderr"
    ensures ScriptJobExitSubjectPattern == "event.script.*.job.*.exit"
    ensures ScriptJobErrorSubjectPattern == "event.script.*.job.error"
    ensures ScriptJobDataSubjectPattern == "event.script.*.job.*.data"
    ensures TerminalFreezeSubjectPattern == "event.terminal.session.*.freeze"
  {
  }

  /**
   * A job-subject filter whose script and job positions are `*` or a name matches a job
   * subject iff each position is a wildcard or equals the subject's.
   */
  lemma JobFilterMatches(ps: string, pj: string, s: string, j: string, kind: string)
    requires DotFree(ps) && DotFree(pj) && DotFree(s) && DotFree(j) && DotFree(kind)
    requires ps != ">" && pj != ">" && kind != ">"
    ensures Subject.Matches("event.script." + ps + ".job." + pj + "." + kind, "event.script." + s + ".job." + j + "." + kind)
        <==> (ps == "*" || ps == s) && (pj == "*" || pj == j)
  {
    var pt := ["event", "script", ps, "job", pj, kind];
    var st := ["event", "script", s, "job", j, kind];
    JobSubjectTokens(ps, pj, kind);
    JobSubjectTokens(s, j, kind);
    if Subject.TokensMatch(pt, st) {
      Subject.MatchPointwise(pt, st);
      assert pt[2] == "*" || pt[2] == st[2];
      assert pt[4] == "*" || pt[4] == st[4];
    }
    if (ps == "*" || ps == s) && (pj == "*" || pj == j) {
      Subject.PointwiseMatch(pt, st);
    }
  }

  /** The same for script-level subjects `event.script.<s>.<kind>`. */
  lemma ScriptFilterMatches(ps: string, s: string, kind: string)
    requires DotFree(ps) && DotFree(s) && DotFree(kind)
    requires ps != ">" && kind != ">"
    ensures Subject.Matches("event.script." + ps + "." + kind, "event.script." + s + "." + kind)
        <==> ps == "*" || ps == s
  {
    var pt := ["event", "script", ps, kind];
    var st := ["event", "script", s, kind];
    ScriptSubjectTokens(ps, kind);
    ScriptSubjectTokens(s, kind);
    if Subject.TokensMatch(pt, st) {
      Subject.MatchPointwise(pt, st);
      assert pt[2] == "*" || pt[2] == st[2];
    }
    if ps == "*" || ps == s {
      Subject.PointwiseMatch(pt, st);
    }
  }

  /** The same for `event.script.<s>.<k1>.<k2>` (create.error and job.error). */
  lemma ScriptFilterMatches5(ps: string, s: string, k1: string, k2: string)
    requires DotFree(ps) && DotFree(s) && DotFree(k1) && DotFree(k2)
    requires ps != ">" && k1 != ">" && k2 != ">"
    ensures Subject.Matches("event.script." + ps + "." + k1 + "." + k2, "event.script." + s + "." + k1 + "." + k2)
        <==> ps == "*" || ps == s
  {
    var pt := ["event", "script", ps, k1, k2];
    var st := ["event", "script", s, k1, k2];
    ScriptSubjectTokens5(ps, k1, k2);
    ScriptSubjectTokens5(s, k1, k2);
    if Subject.TokensMatch(pt, st) {
      Subject.MatchPointwise(pt, st);
      assert pt[2] == "*" || pt[2] == st[2];
    }
    if ps == "*" || ps == s {
      Subject.PointwiseMatch(pt, st);
    }
  }

  lemma FreezeFilterMatches(ps: string, sid: string)
    requires DotFree(ps) && DotFree(sid) && ps != ">"
    ensures Subject.Matches(TerminalFreezeSubject(ps), TerminalFreezeSubject(sid)) <==> ps == "*" || ps == sid
  {
    var pt := ["event", "terminal", "session", ps, "freeze"];
    var st := ["event", "terminal", "session", sid, "freeze"];
    FreezeSubjectTokens(ps);
    FreezeSubjectTokens(sid);
    if Subject.TokensMatch(pt, st) {
      Subject.MatchPointwise(pt, st);
      assert pt[3] == "*" || pt[3] == st[3];
    }
    if ps == "*" || ps == sid {
      Subject.PointwiseMatch(pt, st);
    }
  }

  // A builder applied to a filter position (`*` or a dot-free name) matches the same
  // builder applied to dot-free names iff every position is `*` or equal.

  lemma JobStartedFilter(ps: string, pj: string, s: string, j: string)
    requires DotFree(ps) && DotFree(pj) && DotFree(s) && DotFree(j)
    requires ps != ">" && pj != ">"
    ensures Subject.Matches(ScriptJobStartedSubject(ps, pj), ScriptJobStartedSubject(s, j)) <==> (ps == "*" || ps == s) && (pj == "*" || pj == j)
  {
    JobFilterMatches(ps, pj, s, j, "started");
    assert ScriptJobStartedSubject(ps, pj) == "event.script." + ps + ".job." + pj + "." + "started";
    assert ScriptJobStartedSubject(s, j) == "event.script." + s + ".job." + j + "." + "started";
  }

  lemma JobStdoutFilter(ps: string, pj: string, s: string, j: string)
    requires DotFree(ps) && DotFree(pj) && DotFree(s) && DotFree(j)
    requires ps != ">" && pj != ">"
    ensures Subject.Matches(ScriptJobStdoutSubject(ps, pj), ScriptJobStdoutSubject(s, j)) <==> (ps == "*" || ps == s) && (pj == "*" || pj == j)
  {
    JobFilterMatches(ps, pj, s, j, "stdout");
    assert ScriptJobStdoutSubject(ps, pj) == "event.script." + ps + ".job." + pj + "." + "stdout";
    assert ScriptJobStdoutSubject(s, j) == "event.script." + s + ".job." + j + "." + "stdout";
  }

  lemma JobStderrFilter(ps: string, pj: string, s: string, j: string)
    requires DotFree(ps) && DotFree(pj) && DotFree(s) && DotFree(j)
    requires ps != ">" && pj != ">"
    ensures Subject.Matches(ScriptJobStderrSubject(ps, pj), ScriptJobStderrSubject(s, j)) <==> (ps == "*" || ps == s) && (pj == "*" || pj == j)
  {
    JobFilterMatches(ps, pj, s, j, "stderr");
    assert ScriptJobStderrSubject(ps, pj) == "event.script." + ps + ".job." + pj + "." + "stderr";
    assert ScriptJobStderrSubject(s, j) == "event.script." + s + ".job." + j + "." + "stderr";
  }

  lemma JobExitFilter(ps: string, pj: string, s: string, j: string)
    requires DotFree(ps) && DotFree(pj) && DotFree(s) && DotFree(j)
    requires ps != ">" && pj != ">"
    ensures Subject.Matches(ScriptJobExitSubject(ps, pj), ScriptJobExitSubject(s, j)) <==> (ps == "*" || ps == s) && (pj == "*" || pj == j)
  {
    JobFilterMatches(ps, pj, s, j, "exit");
    assert ScriptJobExitSubject(ps, pj) == "event.script." + ps + ".job." + pj + "." + "exit";
    assert ScriptJobExitSubject(s, j) == "event.script." + s + ".job." + j + "." + "exit";
  }

  lemma JobDataFilter(ps: string, pj: string, s: string, j: string)
    requires DotFree(ps) && DotFree(pj) && DotFree(s) && DotFree(j)
    requires ps != ">" && pj != ">"
    ensures Subject.Matches(ScriptJobDataSubject(ps, pj), ScriptJobDataSubject(s, j)) <==> (ps == "*" || ps == s) && (pj == "*" || pj == j)
  {
    JobFilterMatches(ps, pj, s, j, "data");
    assert ScriptJobDataSubject(ps, pj) == "event.script." + ps + ".job." + pj + "." + "data";
    assert ScriptJobDataSubject(s, j) == "event.script." + s + ".job." + j + "." + "data";
  }

  lemma CreatedFilter(ps: string, s: string)
    requires DotFree(ps) && DotFree(s) && ps != ">"
    ensures Subject.Matches(ScriptCreatedSubject(ps), ScriptCreatedSubject(s)) <==> ps == "*" || ps == s
  {
    ScriptFilterMatches(ps, s, "created");
    assert ScriptCreatedSubject(ps) == "event.script." + ps + "." + "created";
    assert ScriptCreatedSubject(s) == "event.script." + s + "." + "created";
  }

  lemma CreateErrorFilter(ps: string, s: string)
    requires DotFree(ps) && DotFree(s) && ps != ">"
    ensures Subject.Matches(ScriptCreateErrorSubject(ps), ScriptCreateErrorSubject(s)) <==> ps == "*" || ps == s
  {
    ScriptFilterMatches5(ps, s, "create", "error");
    assert ScriptCreateErrorSubject(ps) == "event.script." + ps + "." + "create" + "." + "error";
    assert ScriptCreateErrorSubject(s) == "event.script." + s + "." + "create" + "." + "error";
  }

  lemma JobErrorFilter(ps: string, s: string)
    requires DotFree(ps) && DotFree(s) && ps != ">"
    ensures Subject.Matches(ScriptJobErrorSubject(ps), ScriptJobErrorSubject(s)) <==> ps == "*" || ps == s
  {
    ScriptFilterMatches5(ps, s, "job", "error");
    assert ScriptJobErrorSubject(ps) == "event.script." + ps + "." + "job" + "." + "error";
    assert ScriptJobErrorSubject(s) == "event.script." + s + "." + "job" + "." + "error";
  }

  /** For dot-free names every builder's subject matches its pattern constant. */
  lemma BuildersMatchPatterns(s: string, j: string, sid: string)
    requires DotFree(s) && DotFree(j) && DotFree(sid)
    ensures Subject.Matches(ScriptCreatedSubjectPattern, ScriptCreatedSubject(s))
    ensures Subject.Matches(ScriptCreateErrorSubjectPattern, ScriptCreateErrorSubject(s))
    ensures Subject.Matches(ScriptJobStartedSubjectPattern, ScriptJobStartedSubject(s, j))
    ensures Subject.Matches(ScriptJobStdoutSubjectPattern, ScriptJobStdoutSubject(s, j))
    ensures Subject.Matches(ScriptJobStderrSubjectPattern, ScriptJobStderrSubject(s, j))
    ensures Subject.Matches(ScriptJobExitSubjectPattern, ScriptJobExitSubject(s, j))
    ensures Subject.Matches(ScriptJobErrorSubjectPattern, ScriptJobErrorSubject(s))
    ensures Subject.Matches(ScriptJobDataSubjectPattern, ScriptJobDataSubject(s, j))
    ensures Subject.Matches(TerminalFreezeSubjectPattern, TerminalFreezeSubject(sid))
  {
    CreatedFilter("*", s);
    CreateErrorFilter("*", s);
    JobErrorFilter("*", s);
    JobStartedFilter("*", "*", s, j);
    JobStdoutFilter("*", "*", s, j);
    JobStderrFilter("*", "*", s, j);
    JobExitFilter("*", "*", s, j);
    JobDataFilter("*", "*", s, j);
    FreezeFilterMatches("*", sid);
  }

  /** A name containing `.` breaks the pattern: its subject has one token too many. */
  lemma DottedNameMisses(a: string, b: string)
    requires DotFree(a) && DotFree(b)
    ensures !Subject.Matches(ScriptCreatedSubject("*"), ScriptCreatedSubject(a + "." + b))
  {
    var pt := ["event", "script", "*", "created"];
    var st := ["event", "script", a, b, "created"];
    ScriptSubjectTokens("*", "created");
    assert ScriptCreatedSubject("*") == "event.script." + "*" + "." + "created";
    assert ScriptCreatedSubject(a + "." + b) == "event.script." + a + "." + b + "." + "created";
    ScriptSubjectTokens5(a, b, "created");
    if Subject.TokensMatch(pt, st) {
      Subject.NoGreaterSameLength(pt, st);
    }
  }
}
