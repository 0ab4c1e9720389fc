/**
 * The older preset table of the `core` package (internal/presets.go): two fixed lists and
 * a script preset taking its two parameters directly. It is proved to agree with the
 * runtime's script preset.
 */
module CorePresets {
  import RuntimePresets

  const PresetKeyOrders := "orders"
  const PresetKeyChat := "chat"
  const PresetKeyScripts := "scripts"
  const SubjectOrders := "event.orders.*"
  const SubjectChat := "event.chat.*"

  /** The static, non-parameterised presets. */
  const Presets: map<string, seq<string>> := map[
    PresetKeyOrders := [SubjectOrders, "event.invoice.created"],
    PresetKeyChat := [SubjectChat, "event.script.>"]]

  /** `BuildScriptPreset`: empty parameters become `*`; started, exit, stdout, stderr. */
  function BuildScriptPreset(scriptName: string, jobId: string): (r: seq<string>)
    ensures |r| == 4
  {
    var s := if scriptName == "" then "*" else scriptName;
    var j := if jobId == "" then "*" else jobId;
    var base := "event.script." + s + ".job." + j + ".";
    [base + "started", base + "exit", base + "stdout", base + "stderr"]
  }

  /** Both script presets give the same subjects for the same script and job. */
  lemma AgreesWithRuntime(args: map<string, string>)
    ensures BuildScriptPreset(RuntimePresets.Lookup(args, "script"), RuntimePresets.Lookup(args, "job"))
         == RuntimePresets.BuildScriptPreset(args)
  {
  }

  /** The static lists are the runtime's fixed presets, under other keys. */
  lemma StaticAgreesWithRuntime(args: map<string, string>)
    ensures Presets[PresetKeyOrders] == RuntimePresets.Build(RuntimePresets.Presets[RuntimePresets.PresetKeyOrderSubs], args)
    ensures Presets[PresetKeyChat] == RuntimePresets.Build(RuntimePresets.Presets[RuntimePresets.PresetKeyChatSubs], args)
  {
  }
}
