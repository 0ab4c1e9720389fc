/**
 * The subscription presets of the terminal runtime (internal/runtime/presets.go): two
 * fixed lists and the script preset, parameterised by script name and job id.
 */
module RuntimePresets {
  import opened Messages
  import Subject

  const PresetKeyOrderSubs := "ordersubs"
  const PresetKeyChatSubs := "chatsubs"
  const PresetKeyScriptSubs := "scriptsubs"

  const SubjectOrders := "event.orders.*"
  const SubjectChat := "event.chat.*"

  /** A preset's `Build` function: a fixed list that ignores its arguments, or the script preset. */
  datatype Builder = Static(subjects: seq<string>) | ScriptBuilder

  datatype Preset = Preset(help: string, params: seq<string>, build: Builder)

  /** The registry filled by `init`. */
  const Presets: map<string, Preset> := map[
    PresetKeyOrderSubs := Preset("Order and invoice events", [], Static([SubjectOrders, "event.invoice.created"])),
    PresetKeyChatSubs := Preset("Chat events", [], Static([SubjectChat, "event.script.>"])),
    PresetKeyScriptSubs := Preset("Script lifecycle events", ["script", "job"], ScriptBuilder)]

  /** Go's `m[k]` on a `map[string]string`: "" for a missing key. */
  function Lookup(args: map<string, string>, key: string): string {
    if key in args then args[key] else ""
  }

  function OrWildcard(s: string): (r: string)
    ensures r != ""
    ensures s != "" ==> r == s
  {
    if s == "" then "*" else s
  }

  /**
   * `buildScriptPreset`: the started, exit, stdout and stderr subjects of one job, an empty
   * or missing script or job becoming `*`.
   */
  function BuildScriptPreset(args: map<string, string>): (r: seq<string>)
    ensures |r| == 4
  {
    var scriptName := OrWildcard(Lookup(args, "script"));
    var jobId := OrWildcard(Lookup(args, "job"));
    var base := "event.script." + scriptName + ".job." + jobId + ".";
    [base + "started", base + "exit", base + "stdout", base + "stderr"]
  }

  function Build(p: Preset, args: map<string, string>): seq<string> {
    match p.build
    case Static(subjects) => subjects
    case ScriptBuilder => BuildScriptPreset(args)
  }

  /** The four subjects are the message schema's builders, in the order started, exit, stdout, stderr. */
  lemma ScriptPresetIsBuilders(args: map<string, string>)
    ensures var s := OrWildcard(Lookup(args, "script"));
            var j := OrWildcard(Lookup(args, "job"));
            BuildScriptPreset(args)
            == [ScriptJobStartedSubject(s, j), ScriptJobExitSubject(s, j), ScriptJobStdoutSubject(s, j), ScriptJobStderrSubject(s, j)]
  {
    var s := OrWildcard(Lookup(args, "script"));
    var j := OrWildcard(Lookup(args, "job"));
    var base := "event.script." + s + ".job." + j + ".";
    assert base + "started" == "event.script." + s + ".job." + j + ".started";
    assert base + "exit" == "event.script." + s + ".job." + j + ".exit";
    assert base + "stdout" == "event.script." + s + ".job." + j + ".stdout";
    assert base + "stderr" == "event.script." + s + ".job." + j + ".stderr";
  }

  /** The fixed presets return the same list whatever the arguments. */
  lemma StaticIgnoresArgs(key: string, a: map<string, string>, b: map<string, string>)
    requires key in Presets && key != PresetKeyScriptSubs
    ensures Build(Presets[key], a) == Build(Presets[key], b)
  {
  }

  /** With no arguments the script preset is exactly the four job patterns of the schema. */
  lemma NoArgsGivesPatterns()
    ensures BuildScriptPreset(map[]) == [ScriptJobStartedSubjectPattern, ScriptJobExitSubjectPattern,
                                         ScriptJobStdoutSubjectPattern, ScriptJobStderrSubjectPattern]
  {
    ScriptPresetIsBuilders(map[]);
  }

  /**
   * For dot-free names each subject of the preset is a filter that catches exactly the
   * matching events: the started subject of job `j` of script `s` matches iff the script
   * argument is a wildcard or `s`, and the job argument a wildcard or `j`; so does each of
   * the other three.
   */
  lemma PresetFilters(args: map<string, string>, s: string, j: string)
    requires var a := OrWildcard(Lookup(args, "script")); DotFree(a) && a != ">"
    requires var b := OrWildcard(Lookup(args, "job")); DotFree(b) && b != ">"
    requires DotFree(s) && DotFree(j)
    ensures var a := OrWildcard(Lookup(args, "script"));
            var b := OrWildcard(Lookup(args, "job"));
            var r := BuildScriptPreset(args);
            && (Subject.Matches(r[0], ScriptJobStartedSubject(s, j)) <==> (a == "*" || a == s) && (b == "*" || b == j))
            && (Subject.Matches(r[1], ScriptJobExitSubject(s, j)) <==> (a == "*" || a == s) && (b == "*" || b == j))
            && (Subject.Matches(r[2], ScriptJobStdoutSubject(s, j)) <==> (a == "*" || a == s) && (b == "*" || b == j))
            && (Subject.Matches(r[3], ScriptJobStderrSubject(s, j)) <==> (a == "*" || a == s) && (b == "*" || b == j))
  {
    var a := OrWildcard(Lookup(args, "script"));
    var b := OrWildcard(Lookup(args, "job"));
    ScriptPresetIsBuilders(args);
    JobStartedFilter(a, b, s, j);
    JobExitFilter(a, b, s, j);
    JobStdoutFilter(a, b, s, j);
    JobStderrFilter(a, b, s, j);
  }

  /** With dot-free names, every subject built matches the schema's pattern for its kind. */
  lemma PresetMatchesPatterns(args: map<string, string>)
    requires DotFree(OrWildcard(Lookup(args, "script"))) && DotFree(OrWildcard(Lookup(args, "job")))
    ensures var r := BuildScriptPreset(args);
            && Subject.Matches(ScriptJobStartedSubjectPattern, r[0])
            && Subject.Matches(ScriptJobExitSubjectPattern, r[1])
            && Subject.Matches(ScriptJobStdoutSubjectPattern, r[2])
            && Subject.Matches(ScriptJobStderrSubjectPattern, r[3])
  {
    var s := OrWildcard(Lookup(args, "script"));
    var j := OrWildcard(Lookup(args, "job"));
    ScriptPresetIsBuilders(args);
    BuildersMatchPatterns(s, j, "");
  }
}
