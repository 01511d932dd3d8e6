/**
 * The parsed XML tree the validator and the report walk over.
 *
 * An element has a tag name, a map of attributes, its child elements in
 * document order and its text value (what `child_value()` and `text()` read).
 * A node that pugixml would hand back "empty" (a failed `child(name)` lookup)
 * is `None`; the helpers below give such a node pugixml's behaviour: it has no
 * children and its text is the empty string.
 */
module XmlTree {

  datatype Option<+T> = None | Some(value: T)

  datatype Element = Element(name: string, attrs: map<string, string>, children: seq<Element>, text: string)

  /** The document node: the top-level elements of the parsed file. */
  datatype Document = Document(nodes: seq<Element>)

  /** The elements of `nodes` whose tag is `name`, in document order (`node.children(name)`). */
  function Named(nodes: seq<Element>, name: string): (r: seq<Element>)
    ensures |r| <= |nodes|
    ensures forall i :: 0 <= i < |r| ==> r[i].name == name
    ensures forall e :: e in r <==> e in nodes && e.name == name
    ensures r == [] <==> forall i :: 0 <= i < |nodes| ==> nodes[i].name != name
  {
    if nodes == [] then []
    else if nodes[0].name == name then [nodes[0]] + Named(nodes[1..], name)
    else Named(nodes[1..], name)
  }

  /** Filtering a concatenation filters each part and keeps the parts in order. */
  lemma {:induction false} NamedAppend(a: seq<Element>, b: seq<Element>, name: string)
    ensures Named(a + b, name) == Named(a, name) + Named(b, name)
  {
    if a == [] {
      assert a + b == b;
    } else {
      assert (a + b)[1..] == a[1..] + b;
      NamedAppend(a[1..], b, name);
    }
  }

  /** A single element is kept exactly when it carries the tag. */
  lemma NamedOne(e: Element, name: string)
    ensures Named([e], name) == if e.name == name then [e] else []
  {
    assert [e][1..] == [];
  }

  /** `nodes` holds an element tagged `name` at index `i` and none before it. */
  ghost predicate FirstWithName(nodes: seq<Element>, name: string, i: int)
  {
    0 <= i < |nodes| && nodes[i].name == name && forall j :: 0 <= j < i ==> nodes[j].name != name
  }

  /** The first element of `nodes` whose tag is `name` (`node.child(name)`), or `None`. */
  function FirstNamed(nodes: seq<Element>, name: string): (r: Option<Element>)
    ensures r.None? <==> forall i :: 0 <= i < |nodes| ==> nodes[i].name != name
    ensures r.Some? ==> exists i :: FirstWithName(nodes, name, i) && nodes[i] == r.value
  {
    if nodes == [] then None
    else if nodes[0].name == name then
      assert FirstWithName(nodes, name, 0);
      Some(nodes[0])
    else
      var r := FirstNamed(nodes[1..], name);
      assert r.Some? ==> exists i :: FirstWithName(nodes, name, i) && nodes[i] == r.value by {
        if r.Some? {
          var i :| FirstWithName(nodes[1..], name, i) && nodes[1..][i] == r.value;
          assert FirstWithName(nodes, name, i + 1);
        }
      }
      r
  }

  /** `child(name)` is the head of `children(name)`. */
  lemma {:induction false} FirstNamedIsHeadOfNamed(nodes: seq<Element>, name: string)
    ensures FirstNamed(nodes, name) == if Named(nodes, name) == [] then None else Some(Named(nodes, name)[0])
  {
    if nodes != [] && nodes[0].name != name {
      FirstNamedIsHeadOfNamed(nodes[1..], name);
    }
  }

  /** `n.child(name)`: the first child of `n` with that tag; an empty node has none. */
  function Child(n: Option<Element>, name: string): Option<Element>
  {
    if n.None? then None else FirstNamed(n.value.children, name)
  }

  /** `n.children(name)`: all children of `n` with that tag; an empty node has none. */
  function Children(n: Option<Element>, name: string): seq<Element>
  {
    if n.None? then [] else Named(n.value.children, name)
  }

  /** `n.child_value()`: the text of `n`, and "" for an empty node. */
  function ChildValue(n: Option<Element>): string
  {
    if n.None? then "" else n.value.text
  }

  /** `doc.child(name)`: the first top-level element with that tag. */
  function DocChild(doc: Document, name: string): Option<Element>
  {
    FirstNamed(doc.nodes, name)
  }

  /** The element has at least one child with tag `name`. */
  ghost predicate HasChild(e: Element, name: string)
  {
    exists i :: 0 <= i < |e.children| && e.children[i].name == name
  }
}
