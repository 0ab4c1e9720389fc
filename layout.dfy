/**
 * The layout tree of a session (internal/layout/layout.go): node kinds, their
 * validation, and the subscriptions a layout needs. A Go `*LayoutNode` that may be
 * nil is an `Option<Node>`; a slice or map that may be nil is an `Option` too,
 * because the validators tell nil apart from empty.
 */
module Layout {
  import opened Wrappers
  import opened Strs
  import opened Json
  import Messages

  datatype Node = Node(
    subscription: string,
    documentPaths: seq<string>,
    component: string,
    command: string,
    script: string,
    defaults: Option<map<string, Value>>,
    split: string,
    at: string,
    first: Option<Node>,
    second: Option<Node>,
    direction: string,
    items: Items)

  /** A `[]*LayoutNode` that may be nil (`NilItems`) or empty. */
  datatype Items = NilItems | Items(list: seq<Option<Node>>)

  datatype PanelLayout = PanelLayout(panels: Option<map<string, Option<Node>>>)

  /** A node with every field at its zero value. */
  const Empty := Node("", [], "", "", "", None, "", "", None, None, "", NilItems)

  datatype Kind = Document | Component | Leaf | CommandNode | Binary | Even | Unknown

  const PanelNames: set<string> := {"left", "main", "right", "bottom"}
  const Fractions: set<string> := {"1/2", "1/3", "2/3", "1/4", "3/4"}
  const Directions: set<string> := {"horizontal", "vertical"}

  /** The first field that is set decides the kind. */
  function NodeType(n: Node): Kind {
    if |n.documentPaths| > 0 then Document
    else if n.component != "" then Component
    else if n.subscription != "" then Leaf
    else if n.command != "" then CommandNode
    else if n.split in Directions then Binary
    else if HasPrefix(n.split, "even-") then Even
    else Unknown
  }

  function ItemCount(n: Node): nat {
    if n.items.Items? then |n.items.list| else 0
  }

  // ---------------------------------------------------------------- validation

  function Validate(n: Node): (err: Option<string>)
    ensures NodeType(n) == Unknown ==> err == Some("invalid node type 'unknown'")
    decreases n, 2
  {
    match NodeType(n)
    case Document => ValidateDocument(n)
    case Component => ValidateComponent(n)
    case Leaf => ValidateLeaf(n)
    case CommandNode => ValidateCommand(n)
    case Binary => ValidateBinary(n)
    case Even => ValidateEven(n)
    case Unknown => Some("invalid node type 'unknown'")
  }

  function ValidateLeaf(n: Node): (err: Option<string>)
    ensures err.None? <==>
      n.command == "" && n.defaults.None? && n.split == "" && n.at == "" && n.first.None? && n.second.None?
      && n.direction == "" && n.items.NilItems? && n.subscription != ""
  {
    if n.command != "" || n.defaults.Some? || n.split != "" || n.at != "" || n.first.Some? || n.second.Some?
       || n.direction != "" || n.items.Items?
    then Some("leaf node must only have subscription field")
    else if n.subscription == "" then Some("leaf node must have subscription")
    else None
  }

  function ValidateCommand(n: Node): (err: Option<string>)
    ensures err.None? <==>
      n.subscription == "" && n.split == "" && n.at == "" && n.first.None? && n.second.None? && n.direction == ""
      && n.items.NilItems? && n.command != "" && (n.command == "ScriptRunCommand" ==> n.script != "")
  {
    if n.subscription != "" || n.split != "" || n.at != "" || n.first.Some? || n.second.Some?
       || n.direction != "" || n.items.Items?
    then Some("command node must only have command, script, and defaults fields")
    else if n.command == "" then Some("command node must have command")
    else if n.command == "ScriptRunCommand" && n.script == "" then Some("ScriptRunCommand requires script field")
    else None
  }

  function ValidateBinary(n: Node): (err: Option<string>)
    ensures err.None? <==>
      n.subscription == "" && n.direction == "" && n.items.NilItems? && n.split in Directions && n.at in Fractions
      && n.first.Some? && n.second.Some? && Validate(n.first.value).None? && Validate(n.second.value).None?
    decreases n, 1
  {
    if n.subscription != "" || n.direction != "" || n.items.Items? then
      Some("binary split must only have split, at, first, second fields")
    else if n.split !in Directions then Some("binary split must be 'horizontal' or 'vertical'")
    else if n.at !in Fractions then Some("invalid fraction '" + n.at + "'")
    else if n.first.None? || n.second.None? then Some("binary split must have both first and second nodes")
    else
      var e1 := Validate(n.first.value);
      if e1.Some? then Some("first node: " + e1.value)
      else
        var e2 := Validate(n.second.value);
        if e2.Some? then Some("second node: " + e2.value) else None
  }

  /** A split matching `^even-(\d)$` (RE2's `\d` is ASCII). */
  predicate EvenFormat(split: string) {
    |split| == 6 && split[..5] == "even-" && IsDigit(split[5])
  }

  function EvenCount(split: string): int
    requires EvenFormat(split)
  {
    split[5] as int - '0' as int
  }

  function ValidateEven(n: Node): (err: Option<string>)
    ensures err.None? <==>
      n.subscription == "" && n.at == "" && n.first.None? && n.second.None? && EvenFormat(n.split)
      && 2 <= EvenCount(n.split) <= 5 && n.direction in Directions && ItemCount(n) == EvenCount(n.split)
      && forall i :: 0 <= i < ItemCount(n) ==> n.items.list[i].Some? && Validate(n.items.list[i].value).None?
    decreases n, 1
  {
    if n.subscription != "" || n.at != "" || n.first.Some? || n.second.Some? then
      Some("even split must only have split, direction, items fields")
    else if !EvenFormat(n.split) then Some("invalid even split format '" + n.split + "'")
    else
      var count := EvenCount(n.split);
      if count < 2 || count > 5 then Some("even split must be even-2 through even-5")
      else if n.direction !in Directions then Some("even split direction must be 'horizontal' or 'vertical'")
      else if ItemCount(n) != count then
        Some("even-" + NatToString(count) + " must have exactly " + NatToString(count) + " items, got "
             + NatToString(ItemCount(n)))
      else ValidateItems(n, 0)
  }

  /** The item loop: the first nil or invalid item from index `i` on. */
  function ValidateItems(n: Node, i: nat): (err: Option<string>)
    requires n.items.Items? && i <= |n.items.list|
    ensures err.None? <==>
      forall k :: i <= k < |n.items.list| ==> n.items.list[k].Some? && Validate(n.items.list[k].value).None?
    decreases n, 0, |n.items.list| - i
  {
    if i == |n.items.list| then None
    else
      var e := ValidateItem(n, i);
      if e.Some? then e else ValidateItems(n, i + 1)
  }

  /** The check of item `i` alone: present and itself valid. */
  function ValidateItem(n: Node, i: nat): (err: Option<string>)
    requires n.items.Items? && i < |n.items.list|
    ensures err.None? <==> n.items.list[i].Some? && Validate(n.items.list[i].value).None?
    decreases n, 0, 0
  {
    var item := n.items.list[i];
    if item.None? then Some("item " + NatToString(i) + " is nil")
    else
      var e := Validate(item.value);
      if e.Some? then Some("item " + NatToString(i) + ": " + e.value) else None
  }

  function ValidateComponent(n: Node): (err: Option<string>)
    ensures err.None? <==> n.component != "" && OnlyComponent(n)
  {
    if n.component == "" then Some("component node must have component field")
    else if !OnlyComponent(n) then Some("component node must only have component field")
    else None
  }

  predicate OnlyComponent(n: Node) {
    n.subscription == "" && n.command == "" && n.script == "" && n.defaults.None? && n.split == "" && n.at == ""
    && n.first.None? && n.second.None? && n.direction == "" && n.items.NilItems?
  }

  function ValidateDocument(n: Node): (err: Option<string>)
    ensures err.None? <==> |n.documentPaths| > 0 && n.component == "" && OnlyComponent(n)
  {
    if |n.documentPaths| == 0 then Some("document node must have at least one path")
    else if n.component != "" || !OnlyComponent(n) then Some("document node must only have document_paths field")
    else None
  }

  /** A valid node is of a known kind. */
  lemma ValidIsKnown(n: Node)
    requires Validate(n).None?
    ensures NodeType(n) != Unknown
  {
  }

  /** A valid document node has nothing but its paths. */
  lemma ValidDocumentIsBare(n: Node, paths: seq<string>)
    requires NodeType(n) == Document && Validate(n).None?
    ensures n == Empty.(documentPaths := n.documentPaths)
  {
  }

  /** A leaf's script is never looked at, even though a component or document rejects one. */
  lemma LeafIgnoresScript(n: Node, script: string)
    requires NodeType(n) == Leaf
    ensures Validate(n.(script := script)) == Validate(n)
  {
  }

  /** `even-6` has the right format but the wrong count; `even-10` has the wrong format. */
  lemma EvenBounds(n: Node)
    requires |n.documentPaths| == 0 && n.component == "" && n.subscription == "" && n.command == ""
    requires n.split == "even-6" || n.split == "even-10"
    ensures Validate(n).Some?
  {
    assert n.split[..5] == "even-";
    if n.split == "even-6" {
      assert EvenFormat(n.split) && EvenCount(n.split) == 6;
    } else {
      assert !EvenFormat(n.split);
    }
  }

  // ---------------------------------------------------------------- panel layout

  /** What `PanelLayout.Validate` accepts. */
  predicate LayoutValid(p: PanelLayout) {
    p.panels.Some?
    && (forall name :: name in p.panels.value ==> name in PanelNames)
    && (forall name :: name in p.panels.value && p.panels.value[name].Some? ==> Validate(p.panels.value[name].value).None?)
  }

  /**
   * `PanelLayout.Validate`. Go visits the map in an unspecified order, so the error reported
   * is that of some offending panel: any bad name is found before any bad node.
   */
  method ValidateLayout(p: PanelLayout) returns (err: Option<string>)
    ensures err.None? <==> LayoutValid(p)
    ensures p.panels.None? ==> err == Some("panels must not be nil")
    ensures p.panels.Some? && err.Some? ==>
      (exists name :: name in p.panels.value && name !in PanelNames && err.value == "invalid panel name '" + name + "'")
      || ((forall name :: name in p.panels.value ==> name in PanelNames)
          && (exists name :: name in p.panels.value && p.panels.value[name].Some?
                && Validate(p.panels.value[name].value).Some?
                && err.value == "panel " + name + ": " + Validate(p.panels.value[name].value).value))
  {
    if p.panels.None? {
      return Some("panels must not be nil");
    }
    var panels := p.panels.value;
    var rest := panels.Keys;
    while rest != {}
      invariant rest <= panels.Keys
      invariant forall name :: name in panels && name !in rest ==> name in PanelNames
      decreases |rest|
    {
      var name :| name in rest;
      if name !in PanelNames {
        return Some("invalid panel name '" + name + "'");
      }
      rest := rest - {name};
    }
    rest := panels.Keys;
    while rest != {}
      invariant rest <= panels.Keys
      invariant forall name :: name in panels && name !in rest && panels[name].Some? ==> Validate(panels[name].value).None?
      decreases |rest|
    {
      var name :| name in rest;
      if panels[name].Some? {
        var e := Validate(panels[name].value);
        if e.Some? {
          return Some("panel " + name + ": " + e.value);
        }
      }
      rest := rest - {name};
    }
    return None;
  }

  /**
   * `ParseLayout`. Decoding the JSON is not modelled: `decoded` is what `json.Unmarshal`
   * produced from `data`. Empty input is no layout and no error.
   */
  method ParseLayout(data: string, decoded: Result<PanelLayout>) returns (layout: Option<PanelLayout>, err: Option<string>)
    ensures |data| == 0 ==> layout.None? && err.None?
    ensures |data| > 0 && decoded.Err? ==> layout.None? && err == Some("parse layout: " + decoded.error)
    ensures |data| > 0 && decoded.Ok? ==>
      (err.None? <==> LayoutValid(decoded.value)) && (err.None? ==> layout == Some(decoded.value))
      && (err.Some? ==> layout.None? && |err.value| >= 17 && err.value[..17] == "validate layout: ")
  {
    if |data| == 0 {
      return None, None;
    }
    if decoded.Err? {
      return None, Some("parse layout: " + decoded.error);
    }
    var e := ValidateLayout(decoded.value);
    if e.Some? {
      return None, Some("validate layout: " + e.value);
    }
    return Some(decoded.value), None;
  }

  // ---------------------------------------------------------------- subscriptions

  /** `LayoutNode.GetSubscriptions`: the leaf subscriptions, First before Second, items in order. */
  function Subs(n: Option<Node>): seq<string>
    decreases n
  {
    match n
    case None => []
    case Some(x) =>
      match NodeType(x)
      case Leaf => [x.subscription]
      case Binary => Subs(x.first) + Subs(x.second)
      case Even =>
        if x.items.NilItems? then []
        else Flatten(seq(|x.items.list|, i requires 0 <= i < |x.items.list| => Subs(x.items.list[i])))
      case _ => []
  }

  lemma SubsEven(x: Node) returns (parts: seq<seq<string>>)
    requires NodeType(x) == Even && x.items.Items?
    ensures |parts| == |x.items.list| && forall i :: 0 <= i < |parts| ==> parts[i] == Subs(x.items.list[i])
    ensures Subs(Some(x)) == Flatten(parts)
  {
    parts := seq(|x.items.list|, i requires 0 <= i < |x.items.list| => Subs(x.items.list[i]));
  }

  method GetSubscriptions(n: Option<Node>) returns (subs: seq<string>)
    ensures subs == Subs(n)
    decreases n
  {
    if n.None? {
      return [];
    }
    var x := n.value;
    match NodeType(x)
    case Leaf =>
      subs := [x.subscription];
    case Binary =>
      subs := GetSubscriptions(x.first);
      var more := GetSubscriptions(x.second);
      subs := subs + more;
    case Even =>
      subs := [];
      if x.items.Items? {
        var its := x.items.list;
        ghost var parts := SubsEven(x);
        for i := 0 to |its|
          invariant subs == Flatten(parts[..i])
        {
          var more := GetSubscriptions(its[i]);
          FlattenStep(parts, i);
          subs := subs + more;
        }
        assert parts[..|its|] == parts;
      }
    case _ =>
      subs := [];
  }

  /** The panels' subscriptions, visiting the panels in the order `order`. */
  function SubsInOrder(panels: map<string, Option<Node>>, order: seq<string>): seq<string>
    requires forall i :: 0 <= i < |order| ==> order[i] in panels
  {
    if |order| == 0 then [] else SubsInOrder(panels, order[..|order| - 1]) + Subs(panels[order[|order| - 1]])
  }

  /**
   * `PanelLayout.GetSubscriptions`: the panels are visited in an unspecified order, each once;
   * `order` is the order this run took.
   */
  method PanelSubscriptions(p: Option<PanelLayout>) returns (subs: seq<string>, ghost order: seq<string>)
    ensures p.None? || p.value.panels.None? ==> subs == []
    ensures p.Some? && p.value.panels.Some? ==>
      (forall name :: name in order <==> name in p.value.panels.value)
      && (forall i, j :: 0 <= i < j < |order| ==> order[i] != order[j])
      && (forall i :: 0 <= i < |order| ==> order[i] in p.value.panels.value)
      && subs == SubsInOrder(p.value.panels.value, order)
  {
    subs := [];
    order := [];
    if p.None? || p.value.panels.None? {
      return;
    }
    var panels := p.value.panels.value;
    var rest := panels.Keys;
    while rest != {}
      invariant rest <= panels.Keys
      invariant forall name :: name in order <==> name in panels && name !in rest
      invariant forall i, j :: 0 <= i < j < |order| ==> order[i] != order[j]
      invariant forall i :: 0 <= i < |order| ==> order[i] in panels
      invariant subs == SubsInOrder(panels, order)
      decreases |rest|
    {
      var name :| name in rest;
      var more := GetSubscriptions(panels[name]);
      assert (order + [name])[..|order|] == order;
      order := order + [name];
      subs := subs + more;
      rest := rest - {name};
    }
  }

  /** Every subscription a valid tree lists is non-empty. */
  lemma {:induction false} ValidSubsNonEmpty(n: Option<Node>)
    requires n.Some? ==> Validate(n.value).None?
    ensures forall s :: s in Subs(n) ==> s != ""
    decreases n
  {
    if n.Some? {
      var x := n.value;
      match NodeType(x)
      case Binary =>
        ValidSubsNonEmpty(x.first);
        ValidSubsNonEmpty(x.second);
      case Even =>
        var its := x.items.list;
        var parts := SubsEven(x);
        FlattenMembers(parts);
        forall i | 0 <= i < |its| ensures forall s :: s in parts[i] ==> s != "" {
          ValidSubsNonEmpty(its[i]);
        }
      case _ =>
    }
  }

  /**
   * `getRequiredSubscriptions`: like `Subs`, but a component is looked at first (a terminal
   * needs its freeze subject) and kinds are told apart by fields instead of `NodeType`.
   */
  function Required(n: Option<Node>, sid: string): seq<string>
    decreases n
  {
    match n
    case None => []
    case Some(x) =>
      if x.component != "" then
        (if x.component == "terminal" then [Messages.TerminalFreezeSubject(sid)] else [])
      else if x.subscription != "" then [x.subscription]
      else if x.split in Directions then Required(x.first, sid) + Required(x.second, sid)
      else if HasPrefix(x.split, "even-") then
        if x.items.NilItems? then []
        else Flatten(seq(|x.items.list|, i requires 0 <= i < |x.items.list| => Required(x.items.list[i], sid)))
      else []
  }

  lemma RequiredEven(x: Node, sid: string) returns (req: seq<seq<string>>)
    requires x.component == "" && x.subscription == "" && x.split !in Directions && HasPrefix(x.split, "even-")
    requires x.items.Items?
    ensures |req| == |x.items.list| && forall i :: 0 <= i < |req| ==> req[i] == Required(x.items.list[i], sid)
    ensures Required(Some(x), sid) == Flatten(req)
  {
    req := seq(|x.items.list|, i requires 0 <= i < |x.items.list| => Required(x.items.list[i], sid));
  }

  lemma TerminalRequiresFreeze(n: Node, sid: string)
    requires n.component == "terminal"
    ensures Required(Some(n), sid) == [Messages.TerminalFreezeSubject(sid)]
  {
  }

  /** On a valid tree every leaf subscription is also required. */
  lemma {:induction false} SubsAreRequired(n: Option<Node>, sid: string)
    requires n.Some? ==> Validate(n.value).None?
    ensures forall s :: s in Subs(n) ==> s in Required(n, sid)
    decreases n
  {
    if n.Some? {
      var x := n.value;
      match NodeType(x)
      case Binary =>
        SubsAreRequired(x.first, sid);
        SubsAreRequired(x.second, sid);
      case Even =>
        var its := x.items.list;
        var parts := SubsEven(x);
        var req := RequiredEven(x, sid);
        FlattenMembers(parts);
        FlattenMembers(req);
        forall i | 0 <= i < |its| ensures forall s :: s in parts[i] ==> s in req[i] {
          SubsAreRequired(its[i], sid);
        }
      case _ =>
    }
  }

  /** Every subject some panel of the layout requires. */
  ghost function RequiredSet(p: PanelLayout, sid: string): set<string> {
    if p.panels.None? then {}
    else set name, s | name in p.panels.value && s in Required(p.panels.value[name], sid) :: s
  }

  /**
   * `PanelLayout.GetRequiredSubscriptions`: collect over the panels in any order, sort,
   * then drop adjacent duplicates. The result is the sorted listing of `RequiredSet`, so it
   * does not depend on the order the panels were visited in.
   */
  method GetRequiredSubscriptions(p: Option<PanelLayout>, sid: string) returns (unique: seq<string>)
    ensures p.None? || p.value.panels.None? ==> unique == []
    ensures p.Some? ==> unique == SortedSet(RequiredSet(p.value, sid))
  {
    if p.None? || p.value.panels.None? {
      if p.Some? {
        SortedSetUnique(RequiredSet(p.value, sid), []);
      }
      return [];
    }
    var subs := CollectRequired(p.value.panels.value, sid);
    var sorted := Sort(subs);
    assert forall s :: s in sorted <==> s in subs by {
      forall s ensures s in sorted <==> s in subs {
        assert s in sorted <==> s in multiset(sorted);
      }
    }
    unique := DedupSorted(sorted);
    SortedSetUnique(RequiredSet(p.value, sid), unique);
  }

  /** The collecting loop of `GetRequiredSubscriptions`, over the panels in any order. */
  method CollectRequired(panels: map<string, Option<Node>>, sid: string) returns (subs: seq<string>)
    ensures forall s :: s in subs <==> s in RequiredSet(PanelLayout(Some(panels)), sid)
  {
    subs := [];
    var rest := panels.Keys;
    while rest != {}
      invariant rest <= panels.Keys
      invariant forall s :: s in subs <==> exists name :: name in panels && name !in rest && s in Required(panels[name], sid)
      decreases |rest|
    {
      var name :| name in rest;
      var more := Required(panels[name], sid);
      subs := subs + more;
      rest := rest - {name};
    }
  }

  /** The duplicate-dropping loop of `GetRequiredSubscriptions`: keep `s[i]` unless it equals `s[i-1]`. */
  method DedupSorted(sorted: seq<string>) returns (unique: seq<string>)
    requires Sorted(sorted)
    ensures StrictlySorted(unique)
    ensures forall s :: s in unique <==> s in sorted
  {
    unique := [];
    for i := 0 to |sorted|
      invariant i == 0 ==> unique == []
      invariant StrictlySorted(unique)
      invariant forall s :: s in unique <==> s in sorted[..i]
      invariant i > 0 ==> |unique| > 0 && unique[|unique| - 1] == sorted[i - 1]
    {
      if i == 0 || sorted[i] != sorted[i - 1] {
        if i > 0 {
          StrictStep(unique, sorted, i);
        }
        unique := unique + [sorted[i]];
      }
      assert sorted[..i + 1] == sorted[..i] + [sorted[i]];
    }
    assert sorted[..|sorted|] == sorted;
  }

  lemma StrictStep(unique: seq<string>, sorted: seq<string>, i: nat)
    requires 0 < i < |sorted| && Sorted(sorted) && sorted[i] != sorted[i - 1]
    requires StrictlySorted(unique) && |unique| > 0 && unique[|unique| - 1] == sorted[i - 1]
    ensures StrictlySorted(unique + [sorted[i]])
  {
    var u := unique + [sorted[i]];
    forall a, b | 0 <= a < b < |u| ensures Less(u[a], u[b]) {
      if b == |u| - 1 && a < |unique| - 1 {
        LessEqTrans(u[a], sorted[i - 1], sorted[i]);
        if u[a] == sorted[i] {
          LessEqAntisym(sorted[i - 1], sorted[i]);
        }
      }
    }
  }
}
