/**
 * The copy of a layout tree into the UI's own node type (internal/layout/converter.go).
 * The UI package (ui/components) is not part of this model; its node type is given
 * here with exactly the fields the converter sets.
 */
module Converter {
  import opened Wrappers
  import opened Json
  import opened Layout

  datatype UiNode = UiNode(
    subscription: string,
    command: string,
    script: string,
    defaults: Option<map<string, Value>>,
    split: string,
    at: string,
    first: Option<UiNode>,
    second: Option<UiNode>,
    direction: string,
    items: UiItems)

  datatype UiItems = NilUiItems | UiItems(list: seq<Option<UiNode>>)

  datatype UiLayout = UiLayout(panels: map<string, Option<UiNode>>)

  /** `convertNode`: the copied fields are equal, Component and DocumentPaths are dropped. */
  function ConvertNode(n: Option<Node>): (r: Option<UiNode>)
    ensures r.Some? <==> n.Some?
    ensures n.Some? ==>
      r.value.subscription == n.value.subscription && r.value.command == n.value.command
      && r.value.script == n.value.script && r.value.defaults == n.value.defaults
      && r.value.split == n.value.split && r.value.at == n.value.at && r.value.direction == n.value.direction
    decreases n
  {
    match n
    case None => None
    case Some(x) =>
      Some(UiNode(
        x.subscription, x.command, x.script, x.defaults, x.split, x.at,
        ConvertNode(x.first), ConvertNode(x.second), x.direction,
        if x.items.NilItems? then NilUiItems
        else UiItems(seq(|x.items.list|, i requires 0 <= i < |x.items.list| => ConvertNode(x.items.list[i])))))
  }

  /** `ConvertToComponents`: nothing for a nil layout or nil panel map, else every panel converted. */
  function ConvertToComponents(src: Option<PanelLayout>): (r: Option<UiLayout>)
    ensures r.None? <==> src.None? || src.value.panels.None?
    ensures r.Some? ==>
      r.value.panels.Keys == src.value.panels.value.Keys
      && forall name :: name in r.value.panels ==> r.value.panels[name] == ConvertNode(src.value.panels.value[name])
  {
    if src.None? || src.value.panels.None? then None
    else
      var ps := src.value.panels.value;
      Some(UiLayout(map name | name in ps :: ConvertNode(ps[name])))
  }

  /** The two trees have nil in the same places: First, Second, the Items slice and each item. */
  predicate ShapeMatches(a: Option<Node>, b: Option<UiNode>)
    decreases a
  {
    match a
    case None => b.None?
    case Some(x) =>
      b.Some? && ShapeMatches(x.first, b.value.first) && ShapeMatches(x.second, b.value.second)
      && (x.items.NilItems? <==> b.value.items.NilUiItems?)
      && (x.items.Items? && b.value.items.UiItems? ==>
            |x.items.list| == |b.value.items.list|
            && forall i :: 0 <= i < |x.items.list| ==> ShapeMatches(x.items.list[i], b.value.items.list[i]))
  }

  lemma {:induction false} ConvertKeepsShape(n: Option<Node>)
    ensures ShapeMatches(n, ConvertNode(n))
    decreases n
  {
    if n.Some? {
      var x := n.value;
      var r := ConvertNode(n).value;
      ConvertKeepsShape(x.first);
      ConvertKeepsShape(x.second);
      if x.items.Items? {
        assert r.items.list == seq(|x.items.list|, i requires 0 <= i < |x.items.list| => ConvertNode(x.items.list[i]));
        forall i | 0 <= i < |x.items.list| ensures ShapeMatches(x.items.list[i], r.items.list[i]) {
          ConvertKeepsShape(x.items.list[i]);
        }
      }
    }
  }

  /**
   * The converter keeps only what the UI draws: a node's component or document paths do not
   * survive, so two nodes that differ only there convert to the same UI node.
   */
  lemma ConvertForgetsComponent(x: Node, component: string, paths: seq<string>)
    ensures ConvertNode(Some(x)) == ConvertNode(Some(x.(component := component, documentPaths := paths)))
  {
  }
}
