/**
 * A dom4j document tree as a value: elements with ordered attributes and
 * ordered child nodes, and text nodes. Comments, processing instructions and
 * namespaces are folded into text or left out.
 */
module Xml {
  import opened Wrappers

  datatype Attribute = Attribute(name: string, value: string)

  datatype Node =
    | Element(name: string, attributes: seq<Attribute>, children: seq<Node>)
    | Text(text: string)

  /** Index of the first attribute called `name` (dom4j `Element.attribute(name)`), or |attrs|. */
  function FirstAttributeIndex(attrs: seq<Attribute>, name: string): (k: nat)
    ensures k <= |attrs|
    ensures k < |attrs| ==> attrs[k].name == name
    ensures forall j :: 0 <= j < k ==> attrs[j].name != name
  {
    if attrs == [] then 0
    else if attrs[0].name == name then 0
    else 1 + FirstAttributeIndex(attrs[1..], name)
  }

  /** dom4j `Element.attributeValue(name)`: null when the attribute is absent. */
  function AttributeValue(e: Node, name: string): Option<string> {
    if e.Text? then None else FirstValue(e.attributes, name)
  }

  /** The value of the first attribute called `name`. */
  function FirstValue(attrs: seq<Attribute>, name: string): Option<string> {
    if attrs == [] then None
    else if attrs[0].name == name then Some(attrs[0].value)
    else FirstValue(attrs[1..], name)
  }

  /** The value found is that of the attribute at the first index with the name. */
  lemma {:induction false} FirstValueAtIndex(attrs: seq<Attribute>, name: string)
    ensures var k := FirstAttributeIndex(attrs, name);
            FirstValue(attrs, name) == if k < |attrs| then Some(attrs[k].value) else None
  {
    if attrs != [] && attrs[0].name != name {
      FirstValueAtIndex(attrs[1..], name);
    }
  }

  /** The child elements called `name`, in document order (dom4j `Element.elements(name)`). */
  function ChildElements(e: Node, name: string): (r: seq<Node>)
    ensures forall k :: 0 <= k < |r| ==> r[k].Element? && r[k].name == name
  {
    if e.Text? then [] else ElementsNamed(e.children, name)
  }

  function ElementsNamed(nodes: seq<Node>, name: string): (r: seq<Node>)
    ensures |r| <= |nodes|
    ensures forall k :: 0 <= k < |r| ==> r[k].Element? && r[k].name == name
  {
    if nodes == [] then []
    else
      var rest := ElementsNamed(nodes[1..], name);
      if nodes[0].Element? && nodes[0].name == name then [nodes[0]] + rest else rest
  }

  /** dom4j `Element.element(name)`: the first child element called `name`, or null. */
  function ChildElement(e: Node, name: string): (r: Option<Node>)
    ensures r.Some? ==> r.value.Element? && r.value.name == name
  {
    var all := ChildElements(e, name);
    if all == [] then None else Some(all[0])
  }

  /** dom4j `Element.getText()`: the text of the element's own text children. */
  function OwnText(nodes: seq<Node>): string {
    if nodes == [] then ""
    else (if nodes[0].Text? then nodes[0].text else "") + OwnText(nodes[1..])
  }

  /** dom4j `Element.elementText(name)`: the text of the first child called `name`, or null. */
  function ElementText(e: Node, name: string): Option<string> {
    match ChildElement(e, name)
    case None => None
    case Some(c) => Some(OwnText(c.children))
  }

  /** dom4j `Node.getStringValue()`: the text of every descendant text node, in order. */
  function StringValue(n: Node): string
    decreases n, 1
  {
    match n
    case Text(t) => t
    case Element(_, _, children) => StringValueOf(children)
  }

  function StringValueOf(nodes: seq<Node>): string
    decreases nodes, 0
  {
    if nodes == [] then "" else StringValue(nodes[0]) + StringValueOf(nodes[1..])
  }
}
