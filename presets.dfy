/**
 * Layout presets (internal/layout/presets.go): placeholder substitution into
 * subscription patterns, command descriptors and layout trees. Loading the
 * presets from their embedded JSON files is not modelled; a preset is a value.
 */
module LayoutPresets {
  import opened Wrappers
  import opened Strs
  import opened Json
  import opened Layout

  /**
   * The `Defaults` map of a command descriptor. Go maps are references, so a descriptor
   * copied with `c := cmd` still shares this map with the preset it came from.
   */
  class DefaultsMap {
    var entries: map<string, Value>

    constructor (entries: map<string, Value>)
      ensures this.entries == entries
    {
      this.entries := entries;
    }
  }

  datatype CommandDescriptor = CommandDescriptor(messageType: string, script: string, defaults: Option<DefaultsMap>)

  datatype Preset = Preset(
    id: string,
    help: string,
    params: seq<string>,
    subscriptions: seq<string>,
    commands: seq<CommandDescriptor>,
    layout: Option<PanelLayout>)

  // ---------------------------------------------------------------- substitution

  function Placeholder(param: string): string {
    "{" + param + "}"
  }

  /** `args[param]`, or the wildcard when it is missing or empty. */
  function ArgValue(args: map<string, string>, param: string): (v: string)
    ensures v != ""
    ensures param in args && args[param] != "" ==> v == args[param]
  {
    if param in args && args[param] != "" then args[param] else "*"
  }

  /** Replace each parameter's placeholder in turn, first parameter first. */
  function Substitute(s: string, params: seq<string>, args: map<string, string>): string {
    if |params| == 0 then s
    else
      var last := params[|params| - 1];
      ReplaceAll(Substitute(s, params[..|params| - 1], args), Placeholder(last), ArgValue(args, last))
  }

  lemma SubstituteStep(s: string, params: seq<string>, j: nat, args: map<string, string>)
    requires j < |params|
    ensures Substitute(s, params[..j + 1], args)
      == ReplaceAll(Substitute(s, params[..j], args), Placeholder(params[j]), ArgValue(args, params[j]))
  {
    assert params[..j + 1][..j] == params[..j];
  }

  /** A pattern whose first character never occurs is left alone. */
  lemma {:induction false} ReplaceMissing(s: string, pat: string, rep: string)
    requires |pat| > 0 && pat[0] !in s
    ensures ReplaceAll(s, pat, rep) == s
    decreases |s|
  {
    if |s| >= |pat| {
      assert s[0] != pat[0];
      ReplaceMissing(s[1..], pat, rep);
    }
  }

  lemma ReplaceWhole(pat: string, rep: string)
    requires |pat| > 0
    ensures ReplaceAll(pat, pat, rep) == rep
  {
    assert pat[|pat|..] == [];
  }

  /** A pattern without `{` has no placeholder: every substitution leaves it unchanged. */
  lemma {:induction false} NoBraceUnchanged(s: string, params: seq<string>, args: map<string, string>)
    requires '{' !in s
    ensures Substitute(s, params, args) == s
  {
    if |params| > 0 {
      NoBraceUnchanged(s, params[..|params| - 1], args);
      ReplaceMissing(s, Placeholder(params[|params| - 1]), ArgValue(args, params[|params| - 1]));
    }
  }

  predicate BraceFree(s: string) {
    '{' !in s && '}' !in s
  }

  /** The placeholder of one parameter does not occur in that of another. */
  lemma OtherPlaceholderUntouched(q: string, p: string, v: string)
    requires BraceFree(q) && BraceFree(p) && q != p
    ensures ReplaceAll(Placeholder(q), Placeholder(p), v) == Placeholder(q)
  {
    var s := Placeholder(q);
    var pat := Placeholder(p);
    if |s| >= |pat| {
      if |q| == |p| {
        PlaceholderSameLength(q, p);
      } else {
        PlaceholderLonger(q, p);
      }
      assert s[1..] == q + "}";
      ReplaceMissing(s[1..], pat, v);
    }
  }

  lemma PlaceholderSameLength(q: string, p: string)
    requires |q| == |p| && q != p
    ensures Placeholder(q)[..|Placeholder(p)|] != Placeholder(p)
  {
    var s, pat := Placeholder(q), Placeholder(p);
    assert s[..|pat|] == s;
    assert s[1..|pat| - 1] == q && pat[1..|pat| - 1] == p;
  }

  lemma PlaceholderLonger(q: string, p: string)
    requires |q| > |p| && '}' !in q
    ensures Placeholder(q)[..|Placeholder(p)|] != Placeholder(p)
  {
    var s, pat := Placeholder(q), Placeholder(p);
    assert s[..|pat|][|pat| - 1] == q[|pat| - 2];
    assert pat[|pat| - 1] == '}';
  }

  /** An undeclared placeholder survives every substitution. */
  lemma {:induction false} UndeclaredUntouched(q: string, params: seq<string>, args: map<string, string>)
    requires BraceFree(q) && q !in params
    requires forall i :: 0 <= i < |params| ==> BraceFree(params[i])
    ensures Substitute(Placeholder(q), params, args) == Placeholder(q)
  {
    if |params| > 0 {
      UndeclaredUntouched(q, params[..|params| - 1], args);
      OtherPlaceholderUntouched(q, params[|params| - 1], ArgValue(args, params[|params| - 1]));
    }
  }

  /** A lone declared placeholder becomes the argument, or `*` when it is missing or empty. */
  lemma DeclaredReplaced(p: string, args: map<string, string>)
    ensures Substitute(Placeholder(p), [p], args) == ArgValue(args, p)
  {
    assert [p][..0] == [];
    ReplaceWhole(Placeholder(p), ArgValue(args, p));
  }

  /**
   * Substitution runs parameter by parameter, so a value holding a later parameter's
   * placeholder is rewritten again: with params [a, b], args a = "{b}" and b = x turn
   * "{a}" into x.
   */
  lemma Rewritten(a: string, b: string, x: string)
    requires a != b && x != ""
    ensures Substitute(Placeholder(a), [a, b], map[a := Placeholder(b), b := x]) == x
  {
    var args := map[a := Placeholder(b), b := x];
    assert [a, b][..1] == [a];
    DeclaredReplaced(a, args);
    ReplaceWhole(Placeholder(b), x);
  }

  // ---------------------------------------------------------------- Build

  /** `Preset.Build`: one subject per pattern, in the same order. */
  method Build(p: Preset, args: map<string, string>) returns (out: seq<string>)
    ensures |out| == |p.subscriptions|
    ensures forall i :: 0 <= i < |out| ==> out[i] == Substitute(p.subscriptions[i], p.params, args)
  {
    out := [];
    for i := 0 to |p.subscriptions|
      invariant |out| == i
      invariant forall k :: 0 <= k < i ==> out[k] == Substitute(p.subscriptions[k], p.params, args)
    {
      var s := p.subscriptions[i];
      for j := 0 to |p.params|
        invariant s == Substitute(p.subscriptions[i], p.params[..j], args)
      {
        var val := if p.params[j] in args then args[p.params[j]] else "";
        if val == "" {
          val := "*";
        }
        SubstituteStep(p.subscriptions[i], p.params, j, args);
        s := ReplaceAll(s, "{" + p.params[j] + "}", val);
      }
      assert p.params[..|p.params|] == p.params;
      out := out + [s];
    }
  }

  // ---------------------------------------------------------------- BuildCommands

  /** Every string default with the placeholders substituted; other values as they were. */
  function SubstituteDefaults(m: map<string, Value>, params: seq<string>, args: map<string, string>): (r: map<string, Value>)
    ensures r.Keys == m.Keys
    ensures forall k :: k in m && !m[k].Str? ==> r[k] == m[k]
  {
    map k | k in m :: if m[k].Str? then Str(Substitute(m[k].s, params, args)) else m[k]
  }

  /** The defaults maps of the commands, each command's its own. */
  ghost function DefaultsOf(cmds: seq<CommandDescriptor>): set<DefaultsMap> {
    set i | 0 <= i < |cmds| && cmds[i].defaults.Some? :: cmds[i].defaults.value
  }

  ghost predicate DistinctDefaults(cmds: seq<CommandDescriptor>) {
    forall i, j :: 0 <= i < j < |cmds| && cmds[i].defaults.Some? && cmds[j].defaults.Some? ==>
      cmds[i].defaults.value != cmds[j].defaults.value
  }

  /**
   * `Preset.BuildCommands`: each descriptor with its script substituted, sharing the preset's
   * defaults map, which is rewritten in place, so the preset's own defaults change too.
   */
  method BuildCommands(p: Preset, args: map<string, string>) returns (out: seq<CommandDescriptor>)
    requires DistinctDefaults(p.commands)
    modifies DefaultsOf(p.commands)
    ensures |out| == |p.commands|
    ensures forall i :: 0 <= i < |out| ==>
      out[i].messageType == p.commands[i].messageType
      && out[i].script == Substitute(p.commands[i].script, p.params, args)
      && out[i].defaults == p.commands[i].defaults
    ensures forall i :: 0 <= i < |p.commands| && p.commands[i].defaults.Some? ==>
      p.commands[i].defaults.value.entries == SubstituteDefaults(old(p.commands[i].defaults.value.entries), p.params, args)
  {
    out := [];
    for i := 0 to |p.commands|
      invariant |out| == i
      invariant forall k :: 0 <= k < i ==>
        out[k].messageType == p.commands[k].messageType
        && out[k].script == Substitute(p.commands[k].script, p.params, args)
        && out[k].defaults == p.commands[k].defaults
      invariant forall k :: 0 <= k < i && p.commands[k].defaults.Some? ==>
        p.commands[k].defaults.value.entries == SubstituteDefaults(old(p.commands[k].defaults.value.entries), p.params, args)
      invariant forall k :: i <= k < |p.commands| && p.commands[k].defaults.Some? ==>
        p.commands[k].defaults.value.entries == old(p.commands[k].defaults.value.entries)
    {
      var c := p.commands[i];
      assert c.defaults.Some? ==> c.defaults.value in DefaultsOf(p.commands);
      var script := SubstituteCommand(c, p.params, args);
      out := out + [c.(script := script)];
    }
  }

  /** One descriptor: its script substituted, and its defaults map rewritten in place. */
  method SubstituteCommand(c: CommandDescriptor, params: seq<string>, args: map<string, string>) returns (script: string)
    modifies if c.defaults.Some? then {c.defaults.value} else {}
    ensures script == Substitute(c.script, params, args)
    ensures c.defaults.Some? ==> c.defaults.value.entries == SubstituteDefaults(old(c.defaults.value.entries), params, args)
  {
    script := c.script;
    ghost var orig := if c.defaults.Some? then c.defaults.value.entries else map[];
    for j := 0 to |params|
      invariant script == Substitute(c.script, params[..j], args)
      invariant c.defaults.Some? ==> c.defaults.value.entries == SubstituteDefaults(orig, params[..j], args)
    {
      var val := if params[j] in args then args[params[j]] else "";
      if val == "" {
        val := "*";
      }
      SubstituteStep(c.script, params, j, args);
      script := ReplaceAll(script, "{" + params[j] + "}", val);
      if c.defaults.Some? {
        ghost var before := c.defaults.value.entries;
        ReplaceStrings(c.defaults.value, "{" + params[j] + "}", val);
        DefaultsStep(orig, params, j, args, before, c.defaults.value.entries);
      }
    }
    assert params[..|params|] == params;
  }

  lemma DefaultsStep(orig: map<string, Value>, params: seq<string>, j: nat, args: map<string, string>,
                     before: map<string, Value>, after: map<string, Value>)
    requires j < |params|
    requires before == SubstituteDefaults(orig, params[..j], args)
    requires after.Keys == before.Keys
    requires forall k :: k in before ==>
      after[k] == if before[k].Str? then Str(ReplaceAll(before[k].s, Placeholder(params[j]), ArgValue(args, params[j]))) else before[k]
    ensures after == SubstituteDefaults(orig, params[..j + 1], args)
  {
    forall k | k in orig ensures after[k] == SubstituteDefaults(orig, params[..j + 1], args)[k] {
      SubstituteStep(if orig[k].Str? then orig[k].s else "", params, j, args);
    }
  }

  /** The inner `for k, v := range c.Defaults` loop: every string value rewritten in place. */
  method ReplaceStrings(d: DefaultsMap, pat: string, rep: string)
    modifies d
    ensures d.entries.Keys == old(d.entries).Keys
    ensures forall k :: k in old(d.entries) ==>
      d.entries[k] == if old(d.entries)[k].Str? then Str(ReplaceAll(old(d.entries)[k].s, pat, rep)) else old(d.entries)[k]
  {
    ghost var orig := d.entries;
    var rest := d.entries.Keys;
    while rest != {}
      invariant rest <= orig.Keys && d.entries.Keys == orig.Keys
      invariant forall k :: k in orig && k !in rest ==>
        d.entries[k] == if orig[k].Str? then Str(ReplaceAll(orig[k].s, pat, rep)) else orig[k]
      invariant forall k :: k in rest ==> d.entries[k] == orig[k]
      decreases |rest|
    {
      var k :| k in rest;
      var v := d.entries[k];
      if v.Str? {
        d.entries := d.entries[k := Str(ReplaceAll(v.s, pat, rep))];
      }
      rest := rest - {k};
    }
  }

  // ---------------------------------------------------------------- BuildLayout

  function CopyDefaults(m: Option<map<string, Value>>, params: seq<string>, args: map<string, string>): (r: Option<map<string, Value>>)
    ensures r.Some? <==> m.Some?
    ensures m.Some? ==> r.value == SubstituteDefaults(m.value, params, args)
  {
    if m.None? then None else Some(SubstituteDefaults(m.value, params, args))
  }

  /**
   * The recursive node copy of `BuildLayout`: text fields substituted, split fields copied,
   * document paths dropped.
   */
  function BuildNode(n: Option<Node>, params: seq<string>, args: map<string, string>): (r: Option<Node>)
    ensures r.Some? <==> n.Some?
    ensures n.Some? ==>
      r.value.subscription == Substitute(n.value.subscription, params, args)
      && r.value.component == Substitute(n.value.component, params, args)
      && r.value.command == Substitute(n.value.command, params, args)
      && r.value.script == Substitute(n.value.script, params, args)
      && r.value.defaults == CopyDefaults(n.value.defaults, params, args)
      && r.value.split == n.value.split && r.value.at == n.value.at && r.value.direction == n.value.direction
      && r.value.documentPaths == []
    decreases n
  {
    match n
    case None => None
    case Some(x) =>
      Some(Node(
        Substitute(x.subscription, params, args), [], Substitute(x.component, params, args),
        Substitute(x.command, params, args), Substitute(x.script, params, args),
        CopyDefaults(x.defaults, params, args), x.split, x.at,
        BuildNode(x.first, params, args), BuildNode(x.second, params, args), x.direction,
        if x.items.NilItems? then NilItems
        else Items(seq(|x.items.list|, i requires 0 <= i < |x.items.list| => BuildNode(x.items.list[i], params, args)))))
  }

  /** Same nil-ness everywhere: First, Second, the Items slice and every item. */
  predicate SameShape(a: Option<Node>, b: Option<Node>)
    decreases a
  {
    match a
    case None => b.None?
    case Some(x) =>
      b.Some? && SameShape(x.first, b.value.first) && SameShape(x.second, b.value.second)
      && (x.items.NilItems? <==> b.value.items.NilItems?)
      && (x.items.Items? && b.value.items.Items? ==>
            |x.items.list| == |b.value.items.list|
            && forall i :: 0 <= i < |x.items.list| ==> SameShape(x.items.list[i], b.value.items.list[i]))
  }

  lemma {:induction false} BuildKeepsShape(n: Option<Node>, params: seq<string>, args: map<string, string>)
    ensures SameShape(n, BuildNode(n, params, args))
    decreases n
  {
    if n.Some? {
      var x := n.value;
      var r := BuildNode(n, params, args).value;
      BuildKeepsShape(x.first, params, args);
      BuildKeepsShape(x.second, params, args);
      if x.items.Items? {
        assert r.items.list == seq(|x.items.list|, i requires 0 <= i < |x.items.list| => BuildNode(x.items.list[i], params, args));
        forall i | 0 <= i < |x.items.list| ensures SameShape(x.items.list[i], r.items.list[i]) {
          BuildKeepsShape(x.items.list[i], params, args);
        }
      }
    }
  }

  /**
   * `Preset.BuildLayout`: no layout gives none; otherwise a fresh, always non-nil panel map
   * with the same names (none at all when the preset's map is nil), each node rebuilt.
   */
  function BuildLayout(p: Preset, args: map<string, string>): (r: Option<PanelLayout>)
    ensures p.layout.None? ==> r.None?
    ensures p.layout.Some? ==> r.Some? && r.value.panels.Some?
    ensures p.layout.Some? && p.layout.value.panels.None? ==> r.value.panels.value == map[]
    ensures p.layout.Some? && p.layout.value.panels.Some? ==>
      r.value.panels.value.Keys == p.layout.value.panels.value.Keys
      && forall name :: name in r.value.panels.value ==>
           r.value.panels.value[name] == BuildNode(p.layout.value.panels.value[name], p.params, args)
  {
    if p.layout.None? then None
    else
      var src := if p.layout.value.panels.Some? then p.layout.value.panels.value else map[];
      Some(PanelLayout(Some(map name | name in src :: BuildNode(src[name], p.params, args))))
  }

  /** Building keeps every panel's tree shape. */
  lemma BuildLayoutShape(p: Preset, args: map<string, string>, name: string)
    requires p.layout.Some? && p.layout.value.panels.Some? && name in p.layout.value.panels.value
    ensures SameShape(p.layout.value.panels.value[name], BuildLayout(p, args).value.panels.value[name])
  {
    BuildKeepsShape(p.layout.value.panels.value[name], p.params, args);
  }
}
