/**
 * The layout manager of the runtime (internal/runtime/layout_manager.go). It consumes
 * `command.layout.*` commands, reads the session's stored layout from the sessions
 * bucket, changes a copy of it and writes the copy back when it validates. The bucket
 * is an object holding the stored layout of each session; what the JSON decoder makes
 * of a message or a node, the preset registry and whether the write succeeds are
 * parameters.
 */
module RuntimeLayoutManager {
  import opened Wrappers
  import opened Layout
  import opened LayoutCommands
  import LP = LayoutPresets

  /** How a message is settled; `Fault` is a Go panic (a nil map written to, a nil entry read). */
  datatype Outcome = Ack | Nak | Term | Fault

  /** Which handler `Start` gives a message to. */
  datatype Route = ToPanelSet | ToPreset | ToPatch | Terminated

  /** `Start`'s switch on the subject: the three layout subjects, and `Term` for anything else. */
  function RouteOf(subject: string): (r: Route)
    ensures r == Terminated <==> subject !in {PanelSetSubject, ApplyPresetSubject, LayoutPatchSubject}
    ensures r == ToPanelSet <==> subject == PanelSetSubject
    ensures r == ToPreset <==> subject == ApplyPresetSubject
  {
    if subject == "command.layout.panel.set" then ToPanelSet
    else if subject == "command.layout.preset.apply" then ToPreset
    else if subject == "command.layout.patch" then ToPatch
    else Terminated
  }

  type Store = map<string, Option<PanelLayout>>

  /** A layout with an empty, non-nil panel map. */
  const NewLayout := PanelLayout(Some(map[]))

  /** A stored layout that `Validate` accepts (a nil layout is not validated). */
  predicate Acceptable(l: Option<PanelLayout>) {
    l.None? || LayoutValid(l.value)
  }

  // ---------------------------------------------------------------- panel.set

  /**
   * `applyPanelSet`. An undecodable message or node is `Term`; a session with no entry
   * panics; a nil layout becomes an empty one, but a layout with a nil panel map panics
   * when written to; a layout that then fails `Validate` is `Nak`.
   */
  function PanelSetResult(store: Store, c: Option<PanelSetCommand>, parseNode: string -> Option<Node>, putOk: bool): (r: (Outcome, Store))
    ensures r.0 != Ack || !putOk ==> r.1 == store
    ensures r.0 == Ack ==> c.Some? && c.value.sessionId in store
    ensures r.0 == Ack && putOk ==> c.value.sessionId in r.1 && r.1 == store[c.value.sessionId := r.1[c.value.sessionId]] && Acceptable(r.1[c.value.sessionId])
  {
    if c.None? then (Term, store)
    else if c.value.sessionId !in store then (Fault, store)
    else
      var st := if store[c.value.sessionId].None? then NewLayout else store[c.value.sessionId].value;
      var node := parseNode(c.value.node);
      if node.None? then (Term, store)
      else if st.panels.None? then (Fault, store)
      else
        var next := PanelLayout(Some(st.panels.value[c.value.panel := Some(node.value)]));
        if !LayoutValid(next) then (Nak, store)
        else (Ack, if putOk then store[c.value.sessionId := Some(next)] else store)
  }

  /**
   * An acknowledged `panel.set` writes the node into exactly the named panel of that session:
   * every other panel keeps its node, and a session without a layout gets one with that panel only.
   */
  lemma PanelSetReplacesOnlyPanel(store: Store, c: PanelSetCommand, parseNode: string -> Option<Node>, name: string)
    requires PanelSetResult(store, Some(c), parseNode, true).0 == Ack
    ensures var after := PanelSetResult(store, Some(c), parseNode, true).1[c.sessionId];
            var before := store[c.sessionId];
            && after.Some? && after.value.panels.Some?
            && parseNode(c.node).Some?
            && c.panel in after.value.panels.value
            && after.value.panels.value[c.panel] == Some(parseNode(c.node).value)
            && (name != c.panel && before.Some? ==>
                  (name in after.value.panels.value <==> name in before.value.panels.value)
                  && (name in after.value.panels.value ==> after.value.panels.value[name] == before.value.panels.value[name]))
            && (before.None? ==> after.value.panels.value.Keys == {c.panel})
  {
  }

  /** A node that fails validation, or a panel name outside the four, is `Nak` and writes nothing. */
  lemma PanelSetRejectsInvalid(store: Store, c: PanelSetCommand, parseNode: string -> Option<Node>, putOk: bool)
    requires c.sessionId in store && parseNode(c.node).Some?
    requires store[c.sessionId].Some? ==> store[c.sessionId].value.panels.Some?
    requires Validate(parseNode(c.node).value).Some? || c.panel !in PanelNames
    ensures PanelSetResult(store, Some(c), parseNode, putOk) == (Nak, store)
  {
    var st := if store[c.sessionId].None? then NewLayout else store[c.sessionId].value;
    var next := PanelLayout(Some(st.panels.value[c.panel := Some(parseNode(c.node).value)]));
    assert c.panel in next.panels.value && next.panels.value[c.panel] == Some(parseNode(c.node).value);
    assert !LayoutValid(next);
  }

  // ---------------------------------------------------------------- preset.apply

  /** The mode after defaulting: an empty mode is merge. */
  function EffectiveMode(m: ApplyPresetMode): (r: ApplyPresetMode)
    ensures m.name != "" ==> r == m
    ensures m.name == "" ==> r == PresetMergePanels
  {
    if m.name == "" then PresetMergePanels else m
  }

  /** Go's `built.Panels[name]`: nil when the panel is absent. */
  function PanelOf(l: PanelLayout, name: string): Option<Node>
    requires l.panels.Some?
  {
    if name in l.panels.value then l.panels.value[name] else None
  }

  /**
   * The layout a preset mode produces from the stored one, before validation; `None` is a
   * `Nak` (an empty panel for panel-only, an unknown mode) and `Some(None)` a panic
   * (writing into a nil panel map).
   */
  function Combine(cur: Option<PanelLayout>, built: Option<PanelLayout>, mode: ApplyPresetMode, panel: string): (r: Option<Option<Option<PanelLayout>>>)
    requires built.Some? ==> built.value.panels.Some?
    ensures r.None? <==> mode !in {PresetReplaceAll, PresetMergePanels, PresetSinglePanel} || (mode == PresetSinglePanel && panel == "")
    ensures mode == PresetReplaceAll ==> r == Some(Some(built))
  {
    if mode == PresetReplaceAll then Some(Some(built))
    else if mode == PresetMergePanels then
      var base := if cur.None? then NewLayout else cur.value;
      if built.None? then Some(Some(Some(base)))
      else if base.panels.None? then
        if |built.value.panels.value| == 0 then Some(Some(Some(base))) else Some(None)
      else Some(Some(Some(PanelLayout(Some(base.panels.value + built.value.panels.value)))))
    else if mode == PresetSinglePanel then
      if panel == "" then None
      else
        var base := if cur.None? then NewLayout else cur.value;
        if built.None? then Some(Some(Some(base)))
        else if base.panels.None? then Some(None)
        else Some(Some(Some(PanelLayout(Some(base.panels.value[panel := PanelOf(built.value, panel)])))))
    else None
  }

  /** `c.Args`, a nil map reading as empty. */
  function ArgsOf(c: ApplyPresetCommand): map<string, string> {
    if c.args.Some? then c.args.value else map[]
  }

  /**
   * `applyPreset`: an undecodable message is `Term`; an unknown preset id `Nak`; a missing
   * session entry panics; then the mode decides the new layout, which must validate unless nil.
   */
  function PresetResult(store: Store, c: Option<ApplyPresetCommand>, registry: map<string, LP.Preset>, putOk: bool): (r: (Outcome, Store))
    ensures r.0 != Ack || !putOk ==> r.1 == store
    ensures r.0 == Ack ==> c.Some? && c.value.presetId in registry && c.value.sessionId in store
    ensures r.0 == Ack && putOk ==> c.value.sessionId in r.1 && r.1 == store[c.value.sessionId := r.1[c.value.sessionId]] && Acceptable(r.1[c.value.sessionId])
    ensures c.Some? && c.value.presetId !in registry ==> r == (Nak, store)
  {
    if c.None? then (Term, store)
    else if c.value.presetId !in registry then (Nak, store)
    else
      var built := LP.BuildLayout(registry[c.value.presetId], ArgsOf(c.value));
      if c.value.sessionId !in store then (Fault, store)
      else
        var combined := Combine(store[c.value.sessionId], built, EffectiveMode(c.value.mode), c.value.panel);
        if combined.None? then (Nak, store)
        else if combined.value.None? then (Fault, store)
        else if !Acceptable(combined.value.value) then (Nak, store)
        else (Ack, if putOk then store[c.value.sessionId := combined.value.value] else store)
  }

  /** The layout an acknowledged preset leaves in the session. */
  function Built(c: ApplyPresetCommand, registry: map<string, LP.Preset>): Option<PanelLayout>
    requires c.presetId in registry
  {
    LP.BuildLayout(registry[c.presetId], ArgsOf(c))
  }

  /** An empty mode behaves as merge in every respect. */
  lemma EmptyModeIsMerge(store: Store, c: ApplyPresetCommand, registry: map<string, LP.Preset>, putOk: bool)
    requires c.mode.name == ""
    ensures PresetResult(store, Some(c), registry, putOk) == PresetResult(store, Some(c.(mode := PresetMergePanels)), registry, putOk)
  {
  }

  /** An unknown mode is `Nak`, whatever the session holds. */
  lemma UnknownModeNaks(store: Store, c: ApplyPresetCommand, registry: map<string, LP.Preset>, putOk: bool)
    requires c.presetId in registry && c.sessionId in store
    requires c.mode.name != "" && c.mode !in {PresetReplaceAll, PresetMergePanels, PresetSinglePanel}
    ensures PresetResult(store, Some(c), registry, putOk) == (Nak, store)
  {
  }

  /** replace-all stores the built layout itself, nil when the preset has none. */
  lemma ReplaceAllStoresBuilt(store: Store, c: ApplyPresetCommand, registry: map<string, LP.Preset>)
    requires c.mode == PresetReplaceAll
    requires PresetResult(store, Some(c), registry, true).0 == Ack
    ensures PresetResult(store, Some(c), registry, true).1[c.sessionId] == Built(c, registry)
    ensures registry[c.presetId].layout.None? ==> PresetResult(store, Some(c), registry, true).1[c.sessionId].None?
  {
  }

  /** merge overwrites exactly the built panels and keeps every other panel of the stored layout. */
  lemma MergeOverwritesBuiltPanels(store: Store, c: ApplyPresetCommand, registry: map<string, LP.Preset>, name: string)
    requires EffectiveMode(c.mode) == PresetMergePanels
    requires PresetResult(store, Some(c), registry, true).0 == Ack
    ensures var after := PresetResult(store, Some(c), registry, true).1[c.sessionId];
            var built := Built(c, registry);
            var before := store[c.sessionId];
            && after.Some? && after.value.panels.Some?
            && (built.Some? && name in built.value.panels.value ==>
                  name in after.value.panels.value && after.value.panels.value[name] == built.value.panels.value[name])
            && (before.Some? && before.value.panels.Some? && (built.None? || name !in built.value.panels.value) ==>
                  (name in after.value.panels.value <==> name in before.value.panels.value)
                  && (name in after.value.panels.value ==> after.value.panels.value[name] == before.value.panels.value[name]))
  {
  }

  /**
   * panel-only sets the one named panel to the built layout's panel of that name, nil when the
   * preset does not define it, and keeps the others.
   */
  lemma PanelOnlySetsOnePanel(store: Store, c: ApplyPresetCommand, registry: map<string, LP.Preset>, name: string)
    requires c.mode == PresetSinglePanel
    requires c.presetId in registry && registry[c.presetId].layout.Some?
    requires PresetResult(store, Some(c), registry, true).0 == Ack
    ensures var after := PresetResult(store, Some(c), registry, true).1[c.sessionId];
            var built := Built(c, registry).value;
            var before := store[c.sessionId];
            && after.Some? && after.value.panels.Some?
            && c.panel in after.value.panels.value
            && after.value.panels.value[c.panel] == (if c.panel in built.panels.value then built.panels.value[c.panel] else None)
            && (name != c.panel && before.Some? ==>
                  (name in after.value.panels.value <==> name in before.value.panels.value)
                  && (name in after.value.panels.value ==> after.value.panels.value[name] == before.value.panels.value[name]))
  {
  }

  /** panel-only without a panel name is `Nak`. */
  lemma PanelOnlyNeedsPanel(store: Store, c: ApplyPresetCommand, registry: map<string, LP.Preset>, putOk: bool)
    requires c.mode == PresetSinglePanel && c.panel == ""
    requires c.presetId in registry && c.sessionId in store
    ensures PresetResult(store, Some(c), registry, putOk) == (Nak, store)
  {
  }

  // ---------------------------------------------------------------- the bucket

  /** Copy every panel of `src` into `panels`, as the merge loop does; the built panels win. */
  method CopyPanels(panels: map<string, Option<Node>>, src: map<string, Option<Node>>) returns (r: map<string, Option<Node>>)
    ensures r == panels + src
  {
    r := panels;
    var rest := src.Keys;
    while rest != {}
      invariant rest <= src.Keys
      invariant forall k :: k in r <==> k in panels || (k in src && k !in rest)
      invariant forall k :: k in src && k !in rest ==> r[k] == src[k]
      invariant forall k :: k in panels && (k !in src || k in rest) ==> r[k] == panels[k]
      decreases |rest|
    {
      var name :| name in rest;
      r := r[name := src[name]];
      rest := rest - {name};
    }
    CopyDone(panels, src, r);
  }

  lemma CopyDone(panels: map<string, Option<Node>>, src: map<string, Option<Node>>, r: map<string, Option<Node>>)
    requires forall k :: k in r <==> k in panels || k in src
    requires forall k :: k in src ==> r[k] == src[k]
    requires forall k :: k in panels && k !in src ==> r[k] == panels[k]
    ensures r == panels + src
  {
    var t := panels + src;
    assert r.Keys == t.Keys;
    forall k | k in r ensures r[k] == t[k] {
    }
  }

  /** The switch on the mode in `applyPreset`, with the outcomes of `Combine`. */
  method ApplyMode(cur: Option<PanelLayout>, built: Option<PanelLayout>, mode: ApplyPresetMode, panel: string)
    returns (r: Option<Option<Option<PanelLayout>>>)
    requires built.Some? ==> built.value.panels.Some?
    ensures r == Combine(cur, built, mode, panel)
  {
    var st := cur;
    if mode == PresetReplaceAll {
      st := built;
    } else if mode == PresetMergePanels {
      if st.None? {
        st := Some(NewLayout);
      }
      if built.Some? {
        var src := built.value.panels.value;
        if st.value.panels.None? {
          if |src| > 0 {
            return Some(None);
          }
        } else {
          var panels := CopyPanels(st.value.panels.value, src);
          st := Some(PanelLayout(Some(panels)));
        }
      }
    } else if mode == PresetSinglePanel {
      if panel == "" {
        return None;
      }
      if st.None? {
        st := Some(NewLayout);
      }
      if built.Some? {
        if st.value.panels.None? {
          return Some(None);
        }
        st := Some(PanelLayout(Some(st.value.panels.value[panel := PanelOf(built.value, panel)])));
      }
    } else {
      return None;
    }
    return Some(Some(st));
  }


  /** The sessions bucket, reduced to the stored layout of each session. */
  class SessionsBucket {
    var layouts: Store

    constructor (layouts: Store)
      ensures this.layouts == layouts
    {
      this.layouts := layouts;
    }

    /** `applyPanelSet` on this bucket. */
    method ApplyPanelSet(c: Option<PanelSetCommand>, parseNode: string -> Option<Node>, putOk: bool) returns (o: Outcome)
      modifies this
      ensures (o, layouts) == PanelSetResult(old(layouts), c, parseNode, putOk)
    {
      if c.None? {
        return Term;
      }
      var cmd := c.value;
      if cmd.sessionId !in layouts {
        return Fault;
      }
      var st := layouts[cmd.sessionId];
      if st.None? {
        st := Some(NewLayout);
      }
      var node := parseNode(cmd.node);
      if node.None? {
        return Term;
      }
      if st.value.panels.None? {
        return Fault;
      }
      st := Some(PanelLayout(Some(st.value.panels.value[cmd.panel := Some(node.value)])));
      var err := ValidateLayout(st.value);
      if err.Some? {
        return Nak;
      }
      if putOk {
        layouts := layouts[cmd.sessionId := st];
      }
      return Ack;
    }

    /** `applyPreset` on this bucket; merge copies the built panels one at a time. */
    method ApplyPreset(c: Option<ApplyPresetCommand>, registry: map<string, LP.Preset>, putOk: bool) returns (o: Outcome)
      modifies this
      ensures (o, layouts) == PresetResult(old(layouts), c, registry, putOk)
    {
      if c.None? {
        return Term;
      }
      var cmd := c.value;
      if cmd.presetId !in registry {
        return Nak;
      }
      var built := LP.BuildLayout(registry[cmd.presetId], ArgsOf(cmd));
      if cmd.sessionId !in layouts {
        return Fault;
      }
      var mode := cmd.mode;
      if mode.name == "" {
        mode := PresetMergePanels;
      }
      var combined := ApplyMode(layouts[cmd.sessionId], built, mode, cmd.panel);
      if combined.None? {
        return Nak;
      }
      if combined.value.None? {
        return Fault;
      }
      var st := combined.value.value;
      if st.Some? {
        var err := ValidateLayout(st.value);
        if err.Some? {
          return Nak;
        }
      }
      if putOk {
        layouts := layouts[cmd.sessionId := st];
      }
      return Ack;
    }
  }
}
