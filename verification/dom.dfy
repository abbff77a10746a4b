/** The slice of `org.w3c.dom` that `getEventNames` uses: element trees,
    `getElementsByTagName` (all matching elements of a subtree in document
    order) and `getAttribute` (the empty string when absent). */
module Dom {

  datatype Element = Element(tag: string, attributes: map<string, string>, children: seq<Element>)

  /** The element and all its descendants, in document (pre-)order. */
  function Subtree(e: Element): (r: seq<Element>)
    ensures |r| >= 1 && r[0] == e
    decreases e, 1
  {
    [e] + Forest(e.children)
  }

  /** The subtrees of a list of siblings, one after the other. */
  function Forest(cs: seq<Element>): seq<Element>
    decreases cs, 0
  {
    if |cs| == 0 then [] else Subtree(cs[0]) + Forest(cs[1..])
  }

  /** All elements strictly below `e`, in document order. */
  function Descendants(e: Element): seq<Element>
  {
    Forest(e.children)
  }

  /** The elements of `es` named `tag`, keeping their order. */
  function WithTag(es: seq<Element>, tag: string): (r: seq<Element>)
    ensures forall x :: x in r <==> x in es && x.tag == tag
    ensures |r| <= |es|
  {
    if |es| == 0 then []
    else (if es[0].tag == tag then [es[0]] else []) + WithTag(es[1..], tag)
  }

  /** `Document.getElementsByTagName`: the document element itself counts. */
  function DocumentElementsByTag(root: Element, tag: string): seq<Element>
  {
    WithTag(Subtree(root), tag)
  }

  /** `Element.getElementsByTagName`: only the descendants count. */
  function ElementsByTag(e: Element, tag: string): seq<Element>
  {
    WithTag(Descendants(e), tag)
  }

  /** `Element.getAttribute`: the value, or "" when the attribute is absent. */
  function GetAttribute(e: Element, name: string): string
  {
    if name in e.attributes then e.attributes[name] else ""
  }

  lemma {:induction false} ForestContains(cs: seq<Element>, i: nat)
    requires i < |cs|
    ensures cs[i] in Forest(cs)
    decreases i
  {
    if i == 0 {
      assert Forest(cs)[0] == cs[0];
    } else {
      ForestContains(cs[1..], i - 1);
      assert cs[1..][i - 1] == cs[i];
    }
  }

  /** A direct child with the requested name is among the elements an
      element's `getElementsByTagName` returns. */
  lemma ChildIsFound(e: Element, i: nat)
    requires i < |e.children|
    ensures e.children[i] in ElementsByTag(e, e.children[i].tag)
  {
    ForestContains(e.children, i);
  }
}
