/**
 * The session commands of the runtime (internal/runtime/commands.go): `echo`, `env`,
 * `ls` and `view`. A command receives the session state by value, but the state's
 * environment is a Go map and its layout a `*PanelLayout`, so a command that writes into them
 * changes what the caller's state refers to as well. Both are therefore objects here.
 */
module RuntimeCommands {
  import opened Wrappers
  import opened Strs
  import opened Layout
  import LP = LayoutPresets

  /** A session's `map[string]string` environment. */
  class EnvMap {
    var entries: map<string, string>

    constructor (m: map<string, string>)
      ensures entries == m
    {
      entries := m;
    }
  }

  /** The `PanelLayout` a session state points to. */
  class LayoutRef {
    var panels: Option<map<string, Option<Node>>>

    constructor (p: Option<map<string, Option<Node>>>)
      ensures panels == p
    {
      panels := p;
    }
  }

  /** `layout.SessionState`; a nil map or `*PanelLayout` is `None`. */
  datatype SessionState = SessionState(
    subscriptions: seq<string>,
    env: Option<EnvMap>,
    layout: Option<LayoutRef>,
    history: seq<string>)

  /** The environment a state denotes. */
  function EnvValue(s: SessionState): Option<map<string, string>>
    reads if s.env.Some? then {s.env.value} else {}
  {
    if s.env.Some? then Some(s.env.value.entries) else None
  }

  /** The layout a state denotes. */
  function LayoutValue(s: SessionState): Option<PanelLayout>
    reads if s.layout.Some? then {s.layout.value} else {}
  {
    if s.layout.Some? then Some(PanelLayout(s.layout.value.panels)) else None
  }

  // ---------------------------------------------------------------- echo

  /** `EchoCommand`: the arguments after the command word, joined by single spaces. */
  function Echo(args: seq<string>): (out: string)
    ensures |args| <= 1 ==> out == ""
  {
    if |args| > 1 then Join(args[1..], " ") else ""
  }

  /** Echo loses nothing when no argument holds a space: splitting the output gives the arguments back. */
  lemma EchoSplits(args: seq<string>)
    requires |args| > 1
    requires forall i :: 1 <= i < |args| ==> ' ' !in args[i]
    ensures Split(Echo(args), ' ') == args[1..]
  {
    JoinSplit(args[1..], ' ');
  }

  /** `Execute` of `echo` returns the state it was given. */
  method EchoCommand(state: SessionState, args: seq<string>) returns (next: SessionState, output: string)
    ensures next == state && output == Echo(args)
  {
    next := state;
    output := "";
    if |args| > 1 {
      output := Join(args[1..], " ");
    }
  }

  // ---------------------------------------------------------------- env

  const EnvUsage := "usage: env [set|list|clear]"
  const EnvSetUsage := "usage: env set KEY=VALUE"
  const EnvEmpty := "no session environment variables set"

  /** The `key=value` lines of an environment in key order. */
  ghost function KeyOrderLines(env: map<string, string>): (r: seq<string>)
    ensures |r| == |SortedSet(env.Keys)|
    ensures forall i :: 0 <= i < |r| ==> r[i] == SortedSet(env.Keys)[i] + "=" + env[SortedSet(env.Keys)[i]]
  {
    var keys := SortedSet(env.Keys);
    seq(|keys|, i requires 0 <= i < |keys| => keys[i] + "=" + env[keys[i]])
  }

  /**
   * What `env` does to the environment value, and its reply: `set` needs a third word holding
   * `=` and splits the remaining words, joined by spaces, at the first `=`; `list` shows the
   * variables by key; `clear` drops the map; anything else changes nothing.
   */
  ghost function EnvStep(env: Option<map<string, string>>, args: seq<string>): (r: (Option<map<string, string>>, string))
    ensures r.0 != env ==> |args| >= 2 && args[1] in {"set", "clear"}
  {
    if |args| < 2 then (env, EnvUsage)
    else if args[1] == "set" then
      if |args| < 3 || '=' !in args[2] then (env, EnvSetUsage)
      else
        var joined := Join(args[2..], " ");
        var k := IndexOf(joined, '=');
        var key := joined[..k];
        var val := if k < |joined| then joined[k + 1..] else "";
        (Some((if env.Some? then env.value else map[])[key := val]), "set " + key + "=" + val)
    else if args[1] == "list" then
      if env.None? || |env.value| == 0 then (env, EnvEmpty)
      else (env, "session environment:\n  " + Join(KeyOrderLines(env.value), "\n  "))
    else if args[1] == "clear" then (None, "cleared all session environment variables")
    else (env, "unknown env command: " + args[1])
  }

  /** The first `=` of the joined words is the first `=` of the third word, so the key lies within it. */
  lemma {:induction false} FirstEqualsInFirstPart(parts: seq<string>)
    requires |parts| >= 1 && '=' in parts[0]
    ensures IndexOf(Join(parts, " "), '=') == IndexOf(parts[0], '=')
    ensures Join(parts, " ")[..IndexOf(parts[0], '=')] == parts[0][..IndexOf(parts[0], '=')]
  {
    var j := Join(parts, " ");
    var k := IndexOf(parts[0], '=');
    if |parts| > 1 {
      assert j == parts[0] + (" " + Join(parts[1..], " "));
    }
    assert j[..|parts[0]|] == parts[0];
    assert j[k] == '=';
    assert forall i :: 0 <= i < k ==> j[i] == parts[0][i];
  }

  /** `env set KEY=VALUE ...` writes one key: the part of the third word before its first `=`. */
  lemma EnvSetOneKey(env: Option<map<string, string>>, args: seq<string>, other: string)
    requires |args| >= 3 && args[1] == "set" && '=' in args[2]
    ensures var r := EnvStep(env, args).0;
            var key := args[2][..IndexOf(args[2], '=')];
            var before := if env.Some? then env.value else map[];
            && r.Some?
            && r.value.Keys == before.Keys + {key}
            && (other != key && other in before ==> r.value[other] == before[other])
  {
    FirstEqualsInFirstPart(args[2..]);
  }

  /** The set value is everything after that `=`, the following words included. */
  lemma EnvSetValue(env: Option<map<string, string>>, key: string, rest: string, more: seq<string>)
    requires '=' !in key
    ensures var joined := Join([key + "=" + rest] + more, " ");
            var r := EnvStep(env, ["env", "set", key + "=" + rest] + more).0;
            && r.Some? && key in r.value && |key| < |joined|
            && r.value[key] == joined[|key| + 1..]
  {
    var w := key + "=" + rest;
    var args := ["env", "set", w] + more;
    assert args[2..] == [w] + more;
    assert w == key + ("=" + rest);
    PrefixIndex(key, "=" + rest, '=');
    IndexOfSingleton(w, '=');
    FirstEqualsInFirstPart([w] + more);
    assert w[..|key|] == key;
  }

  /** Only `set` and `clear` change the environment; `list`, usage errors and unknown words leave it as it was. */
  lemma EnvOtherwiseUnchanged(env: Option<map<string, string>>, args: seq<string>)
    requires |args| < 2 || args[1] !in {"set", "clear"} || (args[1] == "set" && (|args| < 3 || '=' !in args[2]))
    ensures EnvStep(env, args).0 == env
  {
  }

  /** `clear` makes the environment nil; `list` of a nil or empty one says so. */
  lemma EnvClearAndList(env: Option<map<string, string>>)
    ensures EnvStep(env, ["env", "clear"]).0.None?
    ensures env.None? || |env.value| == 0 ==> EnvStep(env, ["env", "list"]) == (env, EnvEmpty)
  {
  }

  /** The listed lines follow the keys in sorted order, one line per variable. */
  lemma EnvListByKey(env: map<string, string>)
    requires |env| > 0
    ensures var lines := KeyOrderLines(env);
            && EnvStep(Some(env), ["env", "list"]).1 == "session environment:\n  " + Join(lines, "\n  ")
            && |lines| == |env|
            && forall i, j :: 0 <= i < j < |lines| ==> Less(SortedSet(env.Keys)[i], SortedSet(env.Keys)[j])
  {
  }

  /**
   * `Execute` of `env`. A `set` on a state with a map writes into that map, which the caller's
   * state shares; a `set` on a nil map creates a new one; `clear` only detaches the map.
   */
  method EnvCommand(state: SessionState, args: seq<string>) returns (next: SessionState, output: string)
    modifies if state.env.Some? then {state.env.value} else {}
    ensures (EnvValue(next), output) == EnvStep(old(EnvValue(state)), args)
    ensures next.subscriptions == state.subscriptions && next.layout == state.layout && next.history == state.history
    ensures state.env.Some? && next.env.Some? ==> next.env == state.env
  {
    next := state;
    if |args| < 2 {
      output := EnvUsage;
      return;
    }
    var sub := args[1];
    if sub == "set" {
      if |args| < 3 || '=' !in args[2] {
        output := EnvSetUsage;
        return;
      }
      var joined := Join(args[2..], " ");
      var k := IndexOf(joined, '=');
      var key := joined[..k];
      var val := if k < |joined| then joined[k + 1..] else "";
      if state.env.None? {
        var m := new EnvMap(map[]);
        next := state.(env := Some(m));
      }
      next.env.value.entries := next.env.value.entries[key := val];
      output := "set " + key + "=" + val;
    } else if sub == "list" {
      if state.env.None? || |state.env.value.entries| == 0 {
        output := EnvEmpty;
        return;
      }
      var env := state.env.value.entries;
      var keys := SortSet(env.Keys);
      var lines: seq<string> := [];
      var i := 0;
      while i < |keys|
        invariant 0 <= i <= |keys|
        invariant |lines| == i
        invariant forall j :: 0 <= j < i ==> lines[j] == keys[j] + "=" + env[keys[j]]
      {
        lines := lines + [keys[i] + "=" + env[keys[i]]];
        i := i + 1;
      }
      assert lines == KeyOrderLines(env);
      output := "session environment:\n  " + Join(lines, "\n  ");
    } else if sub == "clear" {
      next := state.(env := None);
      output := "cleared all session environment variables";
    } else {
      output := "unknown env command: " + sub;
    }
  }

  // ---------------------------------------------------------------- ls

  /** Go's `%v` of a `[]string`. */
  function FormatList(xs: seq<string>): string {
    "[" + Join(xs, " ") + "]"
  }

  /** `Preset.Build` with no arguments: each subject pattern with every placeholder made `*`. */
  function Subjects(p: LP.Preset): (r: seq<string>)
    ensures |r| == |p.subscriptions|
    ensures forall i :: 0 <= i < |r| ==> r[i] == LP.Substitute(p.subscriptions[i], p.params, map[])
  {
    seq(|p.subscriptions|, i requires 0 <= i < |p.subscriptions| => LP.Substitute(p.subscriptions[i], p.params, map[]))
  }

  /**
   * `Execute` of `ls` over the layout preset registry; `scripts` is the listing of ./scripts
   * (directory names, in directory order), `None` when it cannot be read.
   */
  ghost function Ls(args: seq<string>, registry: map<string, LP.Preset>, scripts: Option<seq<string>>): string {
    if |args| < 2 then "usage: ls [scripts|presets|preset <id>]"
    else if args[1] == "scripts" then
      if scripts.None? then "error reading scripts directory"
      else "available scripts:\n  " + Join(Sort(scripts.value), "\n  ")
    else if args[1] == "presets" then "available presets: " + Join(SortedSet(registry.Keys), ", ")
    else if args[1] == "preset" then
      if |args| < 3 then "usage: ls preset <id>"
      else if args[2] !in registry then "unknown preset"
      else args[2] + ": " + FormatList(Subjects(registry[args[2]]))
    else "unknown ls command"
  }

  /** `ls presets` lists every registered id once, in increasing order, separated by ", ". */
  lemma LsPresets(args: seq<string>, registry: map<string, LP.Preset>, scripts: Option<seq<string>>)
    requires |args| >= 2 && args[1] == "presets"
    ensures exists ids ::
      && Ls(args, registry, scripts) == "available presets: " + Join(ids, ", ")
      && StrictlySorted(ids) && |ids| == |registry|
      && forall x :: x in ids <==> x in registry
  {
    var ids := SortedSet(registry.Keys);
    assert Ls(args, registry, scripts) == "available presets: " + Join(ids, ", ");
  }

  /** A preset with placeholder-free patterns is shown with its patterns as written. */
  lemma LsPresetPlain(id: string, registry: map<string, LP.Preset>, scripts: Option<seq<string>>)
    requires id in registry
    requires forall i :: 0 <= i < |registry[id].subscriptions| ==> LP.BraceFree(registry[id].subscriptions[i])
    ensures Ls(["ls", "preset", id], registry, scripts) == id + ": " + FormatList(registry[id].subscriptions)
  {
    var p := registry[id];
    forall i | 0 <= i < |p.subscriptions| ensures Subjects(p)[i] == p.subscriptions[i] {
      LP.NoBraceUnchanged(p.subscriptions[i], p.params, map[]);
    }
    assert Subjects(p) == p.subscriptions;
  }

  // ---------------------------------------------------------------- view

  /** The node `view` shows in the left panel: a document node with the given paths and nothing else. */
  function DocumentNode(paths: seq<string>): (n: Node)
    ensures n.documentPaths == paths
    ensures |paths| > 0 ==> NodeType(n) == Document && Validate(n).None?
  {
    Empty.(documentPaths := paths)
  }

  /**
   * The layout after `view`: the old panel map (a fresh empty one when the layout or its map
   * is nil) with only "left" replaced.
   */
  function ViewLayout(layout: Option<PanelLayout>, paths: seq<string>): (r: PanelLayout)
    ensures r.panels.Some? && "left" in r.panels.value && r.panels.value["left"] == Some(DocumentNode(paths))
    ensures layout.Some? && layout.value.panels.Some? ==>
      forall name :: name != "left" ==>
        (name in r.panels.value <==> name in layout.value.panels.value)
        && (name in r.panels.value ==> r.panels.value[name] == layout.value.panels.value[name])
    ensures layout.None? || layout.value.panels.None? ==> r.panels.value.Keys == {"left"}
  {
    var base := if layout.Some? && layout.value.panels.Some? then layout.value.panels.value else map[];
    PanelLayout(Some(base["left" := Some(DocumentNode(paths))]))
  }

  /** `view` keeps a valid layout valid: the document node is valid and "left" is a panel name. */
  lemma ViewKeepsValid(layout: Option<PanelLayout>, paths: seq<string>)
    requires |paths| > 0
    requires layout.Some? && layout.value.panels.Some? ==> LayoutValid(layout.value)
    ensures LayoutValid(ViewLayout(layout, paths))
  {
  }

  /**
   * `Execute` of `view`. With a layout whose map exists the caller's layout is written in
   * place; otherwise the state gets a new layout. The reply counts the paths.
   */
  method ViewCommand(state: SessionState, args: seq<string>) returns (next: SessionState, output: string)
    modifies if state.layout.Some? then {state.layout.value} else {}
    ensures |args| < 2 ==> next == state && output == "usage: view <file> [file...]"
    ensures |args| < 2 && state.layout.Some? ==> state.layout.value.panels == old(state.layout.value.panels)
    ensures |args| >= 2 ==>
      && LayoutValue(next) == Some(ViewLayout(old(LayoutValue(state)), args[1..]))
      && output == "opening " + NatToString(|args| - 1) + " files"
    ensures next.subscriptions == state.subscriptions && next.env == state.env && next.history == state.history
    ensures state.layout.Some? && old(state.layout.value.panels).Some? ==> next.layout == state.layout
  {
    next := state;
    if |args| < 2 {
      output := "usage: view <file> [file...]";
      return;
    }
    if state.layout.None? || state.layout.value.panels.None? {
      var l := new LayoutRef(Some(map[]));
      next := state.(layout := Some(l));
    }
    var paths := args[1..];
    var ref := next.layout.value;
    ref.panels := Some(ref.panels.value["left" := Some(DocumentNode(paths))]);
    output := "opening " + NatToString(|paths|) + " files";
  }
}
