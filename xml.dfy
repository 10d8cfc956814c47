/** An abstract XML element as the Mitsuba scene reader sees it through
    pugixml: a tag name, an attribute map and the children in document
    order. Parsing the document text is not part of the model. The text
    conversions pugixml and the C library perform (`as_int`, `as_float`,
    `strtof`) are parameters. */
module Xml {
  /** An element. pugixml's null node (what `first_child` or `child(name)`
      give when there is nothing to give) is `Null()`. */
  datatype Node = Node(name: string, attrs: map<string, string>, children: seq<Node>)

  function Null(): Node { Node("", map[], []) }

  /** `node.attribute(key).value()`: pugixml gives the empty text for a
      missing attribute. */
  function Attr(node: Node, key: string): (r: string)
    ensures key in node.attrs ==> r == node.attrs[key]
    ensures key !in node.attrs ==> r == ""
  {
    if key in node.attrs then node.attrs[key] else ""
  }

  /** `node.first_child()`. */
  function FirstChild(node: Node): (r: Node)
    ensures |node.children| == 0 ==> r == Null()
    ensures 0 < |node.children| ==> r == node.children[0]
  {
    if |node.children| == 0 then Null() else node.children[0]
  }

  /** The first of `nodes` whose tag is `name`, or the null node. */
  function FirstNamed(nodes: seq<Node>, name: string): (r: Node)
    ensures r != Null() ==> r in nodes && r.name == name
    ensures (forall i :: 0 <= i < |nodes| ==> nodes[i].name != name) ==> r == Null()
  {
    if |nodes| == 0 then Null()
    else if nodes[0].name == name then nodes[0]
    else FirstNamed(nodes[1..], name)
  }

  /** `node.child(name)`. */
  function Child(node: Node, name: string): Node
  {
    FirstNamed(node.children, name)
  }

  /** The first of `nodes` carrying attribute `key` with text `value`, or
      the null node. */
  function FirstWithAttr(nodes: seq<Node>, key: string, value: string): (r: Node)
    ensures r != Null() ==> r in nodes && Attr(r, key) == value
    ensures (forall i :: 0 <= i < |nodes| ==> !(key in nodes[i].attrs && nodes[i].attrs[key] == value)) ==> r == Null()
  {
    if |nodes| == 0 then Null()
    else if key in nodes[0].attrs && nodes[0].attrs[key] == value then nodes[0]
    else FirstWithAttr(nodes[1..], key, value)
  }

  /** `node.find_child_by_attribute(key, value)`. */
  function FindChildByAttribute(node: Node, key: string, value: string): Node
  {
    FirstWithAttr(node.children, key, value)
  }

  /** The text conversions: pugixml's `as_int` and `as_float`, and
      `strtof` as used by `to_float`. Each maps any text to a number
      (pugixml gives 0 for text that is not a number). */
  datatype Conversions = Conversions(asInt: string -> int, asFloat: string -> real, toFloat: string -> real)
}
