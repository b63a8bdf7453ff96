/** The part of xml.etree.ElementTree the scene post-processing uses. */
module Xml {
  import opened Outcomes

  /** An XML element: tag, attribute map and child elements in document order. */
  datatype Element = Element(tag: string, attrib: map<string, string>, children: seq<Element>)

  /** `root.find(tag)` for a plain tag: the position of the first child with that tag, if any. */
  function FindFirst(children: seq<Element>, tag: string): (r: Option<nat>)
    ensures r.Some? ==> r.value < |children| && children[r.value].tag == tag
    ensures r.Some? ==> forall j :: 0 <= j < r.value ==> children[j].tag != tag
    ensures r.None? <==> forall j :: 0 <= j < |children| ==> children[j].tag != tag
  {
    if children == [] then None
    else if children[0].tag == tag then Some(0)
    else match FindFirst(children[1..], tag)
      case None => None
      case Some(i) => Some(i + 1)
  }

  /** A parsed document whose root the program changes in place. Only the root's direct
      children are ever changed, so they are the positions the methods address. */
  class ElementTree {
    var root: Element

    constructor (root: Element)
      ensures this.root == root
    {
      this.root := root;
    }

    /** `child.attrib[key] = value` on the child at `index`. */
    method SetAttribute(index: nat, key: string, value: string)
      requires index < |root.children|
      modifies this
      ensures root.tag == old(root.tag) && root.attrib == old(root.attrib)
      ensures |root.children| == |old(root.children)|
      ensures root.children[index] == old(root.children[index]).(attrib := old(root.children[index].attrib)[key := value])
      ensures forall j :: 0 <= j < |root.children| && j != index ==> root.children[j] == old(root.children[j])
    {
      var child := root.children[index];
      root := root.(children := root.children[index := child.(attrib := child.attrib[key := value])]);
    }

    /** `SubElement(root, tag)` followed by setting its attributes. */
    method SubElement(tag: string, attrib: map<string, string>)
      modifies this
      ensures root == old(root).(children := old(root.children) + [Element(tag, attrib, [])])
    {
      root := root.(children := root.children + [Element(tag, attrib, [])]);
    }
  }
}
