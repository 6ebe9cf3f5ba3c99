/**
 * A `UIElement` object after construction. Its attributes stay as built;
 * the hit-test merge appends to its `children` list and then calls
 * `calculate_hashes`, which reassigns `identifier` and `content_identifier`.
 */
module MutableElement {
  import opened Elements
  import opened Hashing

  class UIElement {
    /** The element as `__init__` built it; only the three fields below change afterwards. */
    const attributes: Element
    var children: seq<Element>
    var identifier: string
    var contentIdentifier: string

    constructor (e: Element)
      ensures attributes == e && Snapshot() == e
    {
      attributes := e;
      children := e.children;
      identifier := e.identifier;
      contentIdentifier := e.contentIdentifier;
    }

    /** The element as it stands now. */
    function Snapshot(): Element
      reads this
    {
      attributes.(children := children, identifier := identifier, contentIdentifier := contentIdentifier)
    }

    /** `calculate_hashes`: both hashes are recomputed from the current attributes and children. */
    method CalculateHashes(md5: Md5)
      modifies this
      ensures children == old(children)
      ensures identifier == ComponentHash(md5, attributes.position, attributes.size, attributes.enabled, attributes.role)
      ensures contentIdentifier == ContentIdentifierOf(md5, children)
      ensures Snapshot() == WithHashes(md5, old(Snapshot()))
    {
      identifier := ComponentHash(md5, attributes.position, attributes.size, attributes.enabled, attributes.role);
      contentIdentifier := ChildrenContentHash(md5, children);
      WithHashesSpec(md5, old(Snapshot()));
    }

    /** `children.append(c)`. */
    method AppendChild(c: Element)
      modifies this
      ensures children == old(children) + [c]
      ensures identifier == old(identifier) && contentIdentifier == old(contentIdentifier)
    {
      children := children + [c];
    }
  }
}
