/**
 * The older layout tree of the platform package (internal/platform/layout.go): three
 * node kinds only (leaf, binary, even), with the same panel rules. It is proved to
 * agree with the newer tree of `Layout` on the nodes both can express.
 */
module PlatformLayout {
  import opened Wrappers
  import opened Strs
  import L = Layout

  datatype Node = Node(
    subscription: string,
    split: string,
    at: string,
    first: Option<Node>,
    second: Option<Node>,
    direction: string,
    items: Items)

  datatype Items = NilItems | Items(list: seq<Option<Node>>)

  datatype PanelLayout = PanelLayout(panels: Option<map<string, Option<Node>>>)

  datatype Kind = Leaf | Binary | Even | Unknown

  function NodeType(n: Node): Kind {
    if n.subscription != "" then Leaf
    else if n.split in L.Directions then Binary
    else if HasPrefix(n.split, "even-") then Even
    else Unknown
  }

  function ItemCount(n: Node): nat {
    if n.items.Items? then |n.items.list| else 0
  }

  function Validate(n: Node): (err: Option<string>)
    ensures NodeType(n) == Unknown ==> err == Some("invalid node type")
    ensures NodeType(n) == Leaf ==>
      (err.None? <==> n.split == "" && n.at == "" && n.first.None? && n.second.None? && n.direction == "" && n.items.NilItems?)
    decreases n, 2
  {
    match NodeType(n)
    case Leaf =>
      if n.split != "" || n.at != "" || n.first.Some? || n.second.Some? || n.direction != "" || n.items.Items? then
        Some("leaf node must only have subscription field")
      else None
    case Binary => ValidateBinary(n)
    case Even => ValidateEven(n)
    case Unknown => Some("invalid node type")
  }

  function ValidateBinary(n: Node): Option<string>
    decreases n, 1
  {
    if n.subscription != "" || n.direction != "" || n.items.Items? then
      Some("binary split must only have split, at, first, second fields")
    else if n.split !in L.Directions then Some("binary split must be 'horizontal' or 'vertical'")
    else if n.at !in L.Fractions then Some("invalid fraction '" + n.at + "'")
    else if n.first.None? || n.second.None? then Some("binary split must have both first and second nodes")
    else
      var e1 := Validate(n.first.value);
      if e1.Some? then Some("first node: " + e1.value)
      else
        var e2 := Validate(n.second.value);
        if e2.Some? then Some("second node: " + e2.value) else None
  }

  function ValidateEven(n: Node): Option<string>
    decreases n, 1
  {
    if n.subscription != "" || n.at != "" || n.first.Some? || n.second.Some? then
      Some("even split must only have split, direction, items fields")
    else if !L.EvenFormat(n.split) then Some("invalid even split format '" + n.split + "'")
    else
      var count := L.EvenCount(n.split);
      if count < 2 || count > 5 then Some("even split must be even-2 through even-5")
      else if n.direction !in L.Directions then Some("even split direction must be 'horizontal' or 'vertical'")
      else if ItemCount(n) != count then
        Some("even-" + NatToString(count) + " must have exactly " + NatToString(count) + " items, got "
             + NatToString(ItemCount(n)))
      else ValidateItems(n, 0)
  }

  function ValidateItems(n: Node, i: nat): Option<string>
    requires n.items.Items? && i <= |n.items.list|
    decreases n, 0, |n.items.list| - i
  {
    if i == |n.items.list| then None
    else
      var e := ValidateItem(n, i);
      if e.Some? then e else ValidateItems(n, i + 1)
  }

  /**
   * A binary split validates iff it has a direction split, a listed fraction, both children
   * present and valid, and no subscription, direction or items.
   */
  lemma ValidateBinarySpec(n: Node)
    ensures ValidateBinary(n).None? <==>
      n.subscription == "" && n.direction == "" && n.items.NilItems? && n.split in L.Directions && n.at in L.Fractions
      && n.first.Some? && n.second.Some? && Validate(n.first.value).None? && Validate(n.second.value).None?
  {
  }

  /**
   * An even split validates iff `even-N` has one digit N from 2 to 5, a valid direction,
   * exactly N present and valid items, and no subscription, at or children.
   */
  lemma ValidateEvenSpec(n: Node)
    ensures ValidateEven(n).None? <==>
      n.subscription == "" && n.at == "" && n.first.None? && n.second.None? && L.EvenFormat(n.split)
      && 2 <= L.EvenCount(n.split) <= 5 && n.direction in L.Directions && ItemCount(n) == L.EvenCount(n.split)
      && forall i :: 0 <= i < ItemCount(n) ==> n.items.list[i].Some? && Validate(n.items.list[i].value).None?
  {
    if n.items.Items? {
      ValidateItemsSpec(n, 0);
      forall k | 0 <= k < |n.items.list|
        ensures ItemValid(n, k) <==> n.items.list[k].Some? && Validate(n.items.list[k].value).None?
      {
      }
    }
  }

  /** Item `k` is present and itself valid. */
  predicate ItemValid(n: Node, k: nat)
    requires n.items.Items? && k < |n.items.list|
  {
    n.items.list[k].Some? && Validate(n.items.list[k].value).None?
  }

  /** The item loop accepts exactly when every item from `i` on is present and itself valid. */
  lemma {:induction false} ValidateItemsSpec(n: Node, i: nat)
    requires n.items.Items? && i <= |n.items.list|
    ensures ValidateItems(n, i).None? <==> forall k :: i <= k < |n.items.list| ==> ItemValid(n, k)
    decreases |n.items.list| - i
  {
    if i < |n.items.list| {
      ValidateItemsSpec(n, i + 1);
      var e := ValidateItem(n, i);
      if e.None? {
        assert ItemValid(n, i);
        assert ValidateItems(n, i) == ValidateItems(n, i + 1);
      } else {
        assert !ItemValid(n, i);
        assert ValidateItems(n, i) == e;
      }
    }
  }

  /** The check of item `i` alone: present and itself valid. */
  function ValidateItem(n: Node, i: nat): (err: Option<string>)
    requires n.items.Items? && i < |n.items.list|
    ensures err.None? <==> n.items.list[i].Some? && Validate(n.items.list[i].value).None?
    decreases n, 0, 0
  {
    var item := n.items.list[i];
    if item.None? then Some("item " + NatToString(i) + " is nil")
    else
      var e := Validate(item.value);
      if e.Some? then Some("item " + NatToString(i) + ": " + e.value) else None
  }

  predicate LayoutValid(p: PanelLayout) {
    p.panels.Some?
    && (forall name :: name in p.panels.value ==> name in L.PanelNames)
    && (forall name :: name in p.panels.value && p.panels.value[name].Some? ==> Validate(p.panels.value[name].value).None?)
  }

  /** `PanelLayout.Validate`, visiting the panels in an unspecified order. */
  method ValidateLayout(p: PanelLayout) returns (err: Option<string>)
    ensures err.None? <==> LayoutValid(p)
    ensures p.panels.None? ==> err == Some("panels must not be nil")
    ensures p.panels.Some? && err.Some? ==>
      (exists name :: name in p.panels.value && name !in L.PanelNames && err.value == "invalid panel name '" + name + "'")
      || ((forall name :: name in p.panels.value ==> name in L.PanelNames)
          && (exists name :: name in p.panels.value && p.panels.value[name].Some?
                && Validate(p.panels.value[name].value).Some?
                && err.value == "panel " + name + ": " + Validate(p.panels.value[name].value).value))
  {
    if p.panels.None? {
      return Some("panels must not be nil");
    }
    var panels := p.panels.value;
    var rest := panels.Keys;
    while rest != {}
      invariant rest <= panels.Keys
      invariant forall name :: name in panels && name !in rest ==> name in L.PanelNames
      decreases |rest|
    {
      var name :| name in rest;
      if name !in L.PanelNames {
        return Some("invalid panel name '" + name + "'");
      }
      rest := rest - {name};
    }
    rest := panels.Keys;
    while rest != {}
      invariant rest <= panels.Keys
      invariant forall name :: name in panels && name !in rest && panels[name].Some? ==> Validate(panels[name].value).None?
      decreases |rest|
    {
      var name :| name in rest;
      if panels[name].Some? {
        var e := Validate(panels[name].value);
        if e.Some? {
          return Some("panel " + name + ": " + e.value);
        }
      }
      rest := rest - {name};
    }
    return None;
  }

  /**
   * `ParseLayout`. Decoding the JSON is not modelled: `decoded` is what `json.Unmarshal`
   * produced from `data`. Empty input is no layout and no error.
   */
  method ParseLayout(data: string, decoded: Result<PanelLayout>) returns (layout: Option<PanelLayout>, err: Option<string>)
    ensures |data| == 0 ==> layout.None? && err.None?
    ensures |data| > 0 && decoded.Err? ==> layout.None? && err == Some("parse layout: " + decoded.error)
    ensures |data| > 0 && decoded.Ok? ==>
      (err.None? <==> LayoutValid(decoded.value)) && (err.None? ==> layout == Some(decoded.value))
      && (err.Some? ==> layout.None? && |err.value| >= 17 && err.value[..17] == "validate layout: ")
  {
    if |data| == 0 {
      return None, None;
    }
    if decoded.Err? {
      return None, Some("parse layout: " + decoded.error);
    }
    var e := ValidateLayout(decoded.value);
    if e.Some? {
      return None, Some("validate layout: " + e.value);
    }
    return Some(decoded.value), None;
  }

  // ---------------------------------------------------------------- subscriptions

  function Subs(n: Option<Node>): seq<string>
    decreases n
  {
    match n
    case None => []
    case Some(x) =>
      match NodeType(x)
      case Leaf => [x.subscription]
      case Binary => Subs(x.first) + Subs(x.second)
      case Even =>
        if x.items.NilItems? then []
        else Flatten(seq(|x.items.list|, i requires 0 <= i < |x.items.list| => Subs(x.items.list[i])))
      case Unknown => []
  }

  lemma SubsEven(x: Node) returns (parts: seq<seq<string>>)
    requires NodeType(x) == Even && x.items.Items?
    ensures |parts| == |x.items.list| && forall i :: 0 <= i < |parts| ==> parts[i] == Subs(x.items.list[i])
    ensures Subs(Some(x)) == Flatten(parts)
  {
    parts := seq(|x.items.list|, i requires 0 <= i < |x.items.list| => Subs(x.items.list[i]));
  }

  /** `LayoutNode.GetSubscriptions`: the leaf subscriptions in tree order. */
  method GetSubscriptions(n: Option<Node>) returns (subs: seq<string>)
    ensures subs == Subs(n)
    decreases n
  {
    if n.None? {
      return [];
    }
    var x := n.value;
    match NodeType(x)
    case Leaf =>
      subs := [x.subscription];
    case Binary =>
      subs := GetSubscriptions(x.first);
      var more := GetSubscriptions(x.second);
      subs := subs + more;
    case Even =>
      subs := [];
      if x.items.Items? {
        var its := x.items.list;
        ghost var parts := SubsEven(x);
        for i := 0 to |its|
          invariant subs == Flatten(parts[..i])
        {
          var more := GetSubscriptions(its[i]);
          FlattenStep(parts, i);
          subs := subs + more;
        }
        assert parts[..|its|] == parts;
      }
    case Unknown =>
      subs := [];
  }

  function SubsInOrder(panels: map<string, Option<Node>>, order: seq<string>): seq<string>
    requires forall i :: 0 <= i < |order| ==> order[i] in panels
  {
    if |order| == 0 then [] else SubsInOrder(panels, order[..|order| - 1]) + Subs(panels[order[|order| - 1]])
  }

  /** `PanelLayout.GetSubscriptions`, visiting each panel once in the order `order`. */
  method PanelSubscriptions(p: Option<PanelLayout>) returns (subs: seq<string>, ghost order: seq<string>)
    ensures p.None? || p.value.panels.None? ==> subs == []
    ensures p.Some? && p.value.panels.Some? ==>
      (forall name :: name in order <==> name in p.value.panels.value)
      && (forall i, j :: 0 <= i < j < |order| ==> order[i] != order[j])
      && (forall i :: 0 <= i < |order| ==> order[i] in p.value.panels.value)
      && subs == SubsInOrder(p.value.panels.value, order)
  {
    subs := [];
    order := [];
    if p.None? || p.value.panels.None? {
      return;
    }
    var panels := p.value.panels.value;
    var rest := panels.Keys;
    while rest != {}
      invariant rest <= panels.Keys
      invariant forall name :: name in order <==> name in panels && name !in rest
      invariant forall i, j :: 0 <= i < j < |order| ==> order[i] != order[j]
      invariant forall i :: 0 <= i < |order| ==> order[i] in panels
      invariant subs == SubsInOrder(panels, order)
      decreases |rest|
    {
      var name :| name in rest;
      var more := GetSubscriptions(panels[name]);
      assert (order + [name])[..|order|] == order;
      order := order + [name];
      subs := subs + more;
      rest := rest - {name};
    }
  }

  // ---------------------------------------------------------------- agreement with the newer tree

  /** The same node written as a `Layout.Node`, every field the old tree lacks left empty. */
  function Embed(n: Node): (r: L.Node)
    ensures r.documentPaths == [] && r.component == "" && r.command == "" && r.script == "" && r.defaults.None?
    ensures r.subscription == n.subscription && r.split == n.split && r.at == n.at && r.direction == n.direction
    decreases n
  {
    L.Node(n.subscription, [], "", "", "", None, n.split, n.at, EmbedChild(n.first), EmbedChild(n.second),
           n.direction, EmbedItems(n))
  }

  function EmbedChild(c: Option<Node>): Option<L.Node>
    decreases c
  {
    if c.None? then None else Some(Embed(c.value))
  }

  function EmbedItems(n: Node): L.Items
    decreases n, 0
  {
    if n.items.NilItems? then L.NilItems
    else L.Items(seq(|n.items.list|, i requires 0 <= i < |n.items.list| => EmbedChild(n.items.list[i])))
  }

  lemma EmbedKind(n: Node)
    ensures NodeType(n) == Leaf <==> L.NodeType(Embed(n)) == L.Leaf
    ensures NodeType(n) == Binary <==> L.NodeType(Embed(n)) == L.Binary
    ensures NodeType(n) == Even <==> L.NodeType(Embed(n)) == L.Even
    ensures NodeType(n) == Unknown <==> L.NodeType(Embed(n)) == L.Unknown
  {
  }

  /** The old and the new validator accept exactly the same trees. */
  lemma {:induction false} SameAcceptance(n: Node)
    ensures Validate(n).None? <==> L.Validate(Embed(n)).None?
    decreases n, 2
  {
    EmbedKind(n);
    match NodeType(n)
    case Leaf =>
    case Unknown =>
    case Binary => SameAcceptanceBinary(n);
    case Even => SameAcceptanceEven(n);
  }

  lemma {:induction false} SameAcceptanceBinary(n: Node)
    requires NodeType(n) == Binary
    ensures Validate(n).None? <==> L.Validate(Embed(n)).None?
    decreases n, 1
  {
    EmbedKind(n);
    ValidateBinarySpec(n);
    if n.first.Some? {
      SameAcceptance(n.first.value);
    }
    if n.second.Some? {
      SameAcceptance(n.second.value);
    }
  }

  lemma {:induction false} SameAcceptanceEven(n: Node)
    requires NodeType(n) == Even
    ensures Validate(n).None? <==> L.Validate(Embed(n)).None?
    decreases n, 1
  {
    EmbedKind(n);
    ValidateEvenSpec(n);
    if n.items.Items? {
      SameItems(n);
    }
  }

  /** Item by item, the old and the new validator agree on an item list. */
  lemma {:induction false} SameItems(n: Node)
    requires n.items.Items?
    ensures var its := n.items.list;
      var e := Embed(n);
      e.items.Items? && |e.items.list| == |its|
      && forall i :: 0 <= i < |its| ==>
           ((its[i].Some? && Validate(its[i].value).None?)
            <==> (e.items.list[i].Some? && L.Validate(e.items.list[i].value).None?))
    decreases n, 0
  {
    EmbedKind(n);
    var e := Embed(n);
    var its := n.items.list;
    assert e.items.list == seq(|its|, i requires 0 <= i < |its| => EmbedChild(its[i]));
    forall i | 0 <= i < |its|
      ensures (its[i].Some? && Validate(its[i].value).None?)
          <==> (e.items.list[i].Some? && L.Validate(e.items.list[i].value).None?)
    {
      if its[i].Some? {
        SameAcceptance(its[i].value);
      }
    }
  }

  /** Both trees list the same subscriptions in the same order. */
  lemma {:induction false} SameSubscriptions(n: Option<Node>)
    ensures Subs(n) == L.Subs(EmbedChild(n))
    decreases n
  {
    if n.Some? {
      var x := n.value;
      EmbedKind(x);
      match NodeType(x)
      case Leaf =>
      case Unknown =>
      case Binary =>
        SameSubscriptions(x.first);
        SameSubscriptions(x.second);
      case Even =>
        if x.items.Items? {
          var parts := SubsEven(x);
          var e := Embed(x);
          var eparts := L.SubsEven(e);
          forall i | 0 <= i < |parts| ensures parts[i] == eparts[i] {
            SameSubscriptions(x.items.list[i]);
          }
          assert parts == eparts;
        }
    }
  }
}
