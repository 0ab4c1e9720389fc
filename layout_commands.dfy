/**
 * The layout command messages and their validation
 * (internal/messages/layout_commands.go). Raw JSON payloads are kept as text;
 * what the JSON decoder makes of the panel-set node is a parameter.
 */
module LayoutCommands {
  import opened Wrappers
  import opened Json

  const PanelSetSubject := "command.layout.panel.set"
  const ApplyPresetSubject := "command.layout.preset.apply"
  const LayoutPatchSubject := "command.layout.patch"

  const Panels: set<string> := {"left", "main", "right", "bottom"}

  datatype PanelSetCommand = PanelSetCommand(sessionId: string, panel: string, node: string)

  datatype ApplyPresetMode = ApplyPresetMode(name: string)
  const PresetReplaceAll := ApplyPresetMode("replace-all")
  const PresetMergePanels := ApplyPresetMode("merge")
  const PresetSinglePanel := ApplyPresetMode("panel-only")

  datatype ApplyPresetCommand = ApplyPresetCommand(
    sessionId: string, presetId: string, args: Option<map<string, string>>, panel: string, mode: ApplyPresetMode)

  datatype LayoutPatchCommand = LayoutPatchCommand(sessionId: string, patch: string, patchType: string)

  /** What `json.Unmarshal` makes of the node text: a syntax error, or a value. */
  datatype Decoded = SyntaxError(msg: string) | Decoded(value: Value)

  /** The name `encoding/json` uses for a value's type in an unmarshal error. */
  function KindName(v: Value): string {
    match v
    case Null => "null"
    case Bool(_) => "bool"
    case Number(_) => "number"
    case Str(_) => "string"
    case Array(_) => "array"
    case Object(_) => "object"
  }

  /**
   * Decoding into `map[string]any`: an object fills the map and `null` leaves it nil;
   * any other value is a type error.
   */
  function UnmarshalIntoMap(d: Decoded): (err: Option<string>)
    ensures err.None? <==> d.Decoded? && (d.value.Object? || d.value.Null?)
  {
    match d
    case SyntaxError(m) => Some(m)
    case Decoded(v) =>
      if v.Object? || v.Null? then None
      else Some("json: cannot unmarshal " + KindName(v) + " into Go value of type map[string]interface {}")
  }

  /**
   * `PanelSetCommand.Validate`: the three fields present, a known panel, and a node that
   * decodes as a JSON object (or `null`). The node is not checked as a layout.
   */
  function ValidatePanelSet(c: PanelSetCommand, node: Decoded): (err: Option<string>)
    ensures err.None? <==> c.sessionId != "" && c.panel in Panels && |c.node| > 0 && UnmarshalIntoMap(node).None?
    ensures (c.sessionId == "" || c.panel == "" || |c.node| == 0) ==> err == Some("session_id, panel and node are required")
    ensures c.sessionId != "" && c.panel != "" && |c.node| > 0 && c.panel !in Panels ==> err == Some("invalid panel: " + c.panel)
  {
    if c.sessionId == "" || c.panel == "" || |c.node| == 0 then Some("session_id, panel and node are required")
    else if c.panel !in Panels then Some("invalid panel: " + c.panel)
    else
      var u := UnmarshalIntoMap(node);
      if u.Some? then Some("node JSON: " + u.value) else None
  }

  /** Any object passes as a node, even one that is no layout at all. */
  lemma AnyObjectIsAcceptedNode(sid: string, text: string)
    requires sid != "" && |text| > 0
    ensures ValidatePanelSet(PanelSetCommand(sid, "main", text), Decoded(Object(map["foo" := Number("1")]))) == None
  {
  }

  /**
   * `ApplyPresetCommand.Validate`: both ids present. Defaulting the mode happens on a
   * copy of the receiver, so nothing but the ids is looked at.
   */
  function ValidateApplyPreset(c: ApplyPresetCommand): (err: Option<string>)
    ensures err.None? <==> c.sessionId != "" && c.presetId != ""
    ensures err.Some? ==> err == Some("session_id and preset_id are required")
  {
    if c.sessionId == "" || c.presetId == "" then Some("session_id and preset_id are required") else None
  }

  lemma ApplyPresetIgnoresRest(c: ApplyPresetCommand, args: Option<map<string, string>>, panel: string, mode: ApplyPresetMode)
    ensures ValidateApplyPreset(c) == ValidateApplyPreset(c.(args := args, panel := panel, mode := mode))
  {
  }

  /** `LayoutPatchCommand.Validate`: session id and a non-empty patch; the type is free. */
  function ValidateLayoutPatch(c: LayoutPatchCommand): (err: Option<string>)
    ensures err.None? <==> c.sessionId != "" && |c.patch| > 0
    ensures err.Some? ==> err == Some("session_id and patch are required")
  {
    if c.sessionId == "" || |c.patch| == 0 then Some("session_id and patch are required") else None
  }
}
