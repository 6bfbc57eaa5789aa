/** An abstract XML element tree: what the element builder produces before it
    is serialised. Serialisation, pretty printing and minification are not
    part of this model. */
module Xml {
  import opened Options

  datatype Attr = Attr(key: string, value: string)

  datatype Node =
    | Element(name: string, attrs: seq<Attr>, children: seq<Node>)
    | Text(text: string)
    | Number(number: real)

  /** `parent.ele(name, {}, text)`: an element without attributes holding one text node. */
  function Leaf(name: string, text: string): Node {
    Element(name, [], [Text(text)])
  }

  /** Reads back the text of a leaf called `name`; the inverse of `Leaf`. */
  function LeafText(n: Node, name: string): (r: Option<string>)
    ensures r.Some? ==> n == Leaf(name, r.value)
  {
    if n.Element? && n.name == name && n.attrs == [] && |n.children| == 1 && n.children[0].Text?
    then Some(n.children[0].text)
    else None
  }

  /** The value of the first attribute called `key`, if any. */
  function Lookup(attrs: seq<Attr>, key: string): (r: Option<string>)
    ensures r.Some? <==> exists i :: 0 <= i < |attrs| && attrs[i].key == key
    ensures r.Some? ==> exists i :: 0 <= i < |attrs| && attrs[i] == Attr(key, r.value)
  {
    if |attrs| == 0 then None
    else if attrs[0].key == key then Some(attrs[0].value)
    else
      var r := Lookup(attrs[1..], key);
      assert forall i :: 1 <= i < |attrs| ==> attrs[i] == attrs[1..][i - 1];
      r
  }

  /** No attribute is declared twice. */
  predicate DistinctKeys(attrs: seq<Attr>) {
    forall i, j :: 0 <= i < j < |attrs| ==> attrs[i].key != attrs[j].key
  }

  /** The first node of `cs`, if any, is not an element called `name`. */
  predicate HeadAvoids(cs: seq<Node>, name: string) {
    |cs| == 0 || !cs[0].Element? || cs[0].name != name
  }

  /** Every node of `cs` is an element called `name`. */
  predicate AllNamed(cs: seq<Node>, name: string) {
    forall i :: 0 <= i < |cs| ==> cs[i].Element? && cs[i].name == name
  }
}
