/**
 * The extractor: `extract_with_hit_test` merges the subtree found by a hit
 * test into an already built window, and `extract_window` then hands the
 * window's dictionary form to the output file.
 *
 * The hit test itself is a native call; its answer (the element under the
 * point 50,50 inside the window, or None) is the parameter `hit`. Writing
 * the file is modelled by the pair (path, dictionary) the method returns.
 */
module Extractor {
  import opened Wrappers
  import opened Json
  import opened Accessibility
  import opened Elements
  import opened Hashing
  import opened TreeBuilder
  import opened WindowTools
  import opened Serializer
  import opened MutableElement

  // -----------------------------------------------------------------------
  // Specification
  // -----------------------------------------------------------------------

  /** A child that carries the same two identity strings as `root`. */
  predicate Twin(c: Element, root: Element) {
    c.identifier == root.identifier && c.contentIdentifier == root.contentIdentifier
  }

  /** Some child of the window is already a twin of `root`. */
  predicate HasTwin(children: seq<Element>, root: Element) {
    exists i :: 0 <= i < |children| && Twin(children[i], root)
  }

  /**
   * The window after the merge. With a parent window that differs from
   * `w`, or one that matches but already holds a twin of `root`, nothing
   * changes; otherwise `root` is appended and the hashes recomputed.
   * Without a parent window the root is appended unconditionally.
   */
  function Merge(md5: Md5, w: Element, root: Element, parentWindow: Option<Element>): Element {
    if parentWindow.Some? && !WindowsAreEqual(w, parentWindow.value) then w
    else if parentWindow.Some? && HasTwin(w.children, root) then w
    else WithHashes(md5, w.(children := w.children + [root]))
  }

  /**
   * The whole of `extract_with_hit_test` on values: Success(None) when the
   * hit test found nothing (the source returns False), Success(Some(w'))
   * with the merged window otherwise.
   */
  function HitTestMerge(p: Provider, w: Element, hit: Option<Handle>, maxDepth: Option<int>,
                        md5: Md5, fuel: nat): Result<Option<Element>, BuildError>
  {
    if w.position.None? then Failure(NoWindowPosition)
    else if hit.None? then Success(None)
    else
      var ox, oy := w.position.value.x, w.position.value.y;
      match FindRootElement(p, hit.value, fuel)
      case Failure(err) => Failure(err)
      case Success(found) =>
        match Build(p, found, ox, oy, maxDepth, None, md5, fuel)
        case Failure(err) => Failure(err)
        case Success(root) =>
          var parentWindow := Lookup(p, found).window;
          if parentWindow.None? then Success(Some(Merge(md5, w, root, None)))
          else
            match Build(p, parentWindow, ox, oy, maxDepth, None, md5, fuel)
            case Failure(err) => Failure(err)
            case Success(pw) => Success(Some(Merge(md5, w, root, Some(pw))))
  }

  // -----------------------------------------------------------------------
  // Properties of the merge
  // -----------------------------------------------------------------------

  /**
   * The merge changes at most the children list, by appending `root` at the
   * end, and the two hashes; every other attribute is kept.
   */
  lemma MergeShape(md5: Md5, w: Element, root: Element, parentWindow: Option<Element>)
    ensures Merge(md5, w, root, parentWindow).children == w.children
         || Merge(md5, w, root, parentWindow).children == w.children + [root]
    ensures Merge(md5, w, root, parentWindow).(children := w.children, identifier := w.identifier,
                                              contentIdentifier := w.contentIdentifier) == w
    ensures WindowsAreEqual(Merge(md5, w, root, parentWindow), w)
  {
    var m := Merge(md5, w, root, parentWindow);
    if m != w {
      WithHashesSpec(md5, w.(children := w.children + [root]));
    }
  }

  /** The root is appended exactly when there is no parent window, or a matching one without a twin. */
  lemma MergeAppendsIff(md5: Md5, w: Element, root: Element, parentWindow: Option<Element>)
    ensures Merge(md5, w, root, parentWindow).children == w.children + [root] <==>
            parentWindow.None? || (WindowsAreEqual(w, parentWindow.value) && !HasTwin(w.children, root))
  {
    if parentWindow.Some? && (!WindowsAreEqual(w, parentWindow.value) || HasTwin(w.children, root)) {
      assert |w.children + [root]| != |w.children|;
    }
  }

  /** After an append the window's hashes are the ones of its new contents. */
  lemma MergeRehashes(md5: Md5, w: Element, root: Element, parentWindow: Option<Element>)
    requires parentWindow.None? || (WindowsAreEqual(w, parentWindow.value) && !HasTwin(w.children, root))
    ensures Merge(md5, w, root, parentWindow).identifier == ComponentHash(md5, w.position, w.size, w.enabled, w.role)
    ensures Merge(md5, w, root, parentWindow).contentIdentifier == ContentIdentifierOf(md5, w.children + [root])
  {
    WithHashesSpec(md5, w.(children := w.children + [root]));
  }

  /**
   * With a matching parent window the merge is idempotent: the appended
   * root is a twin of itself, so a second hit test adds nothing.
   */
  lemma MergeIdempotent(md5: Md5, w: Element, root: Element, pw: Element)
    requires WindowsAreEqual(w, pw)
    ensures Merge(md5, Merge(md5, w, root, Some(pw)), root, Some(pw)) == Merge(md5, w, root, Some(pw))
  {
    var m := Merge(md5, w, root, Some(pw));
    MergeShape(md5, w, root, Some(pw));
    WindowsAreEqualEquivalence(m, w, pw);
    if !HasTwin(w.children, root) {
      assert m.children == w.children + [root];
      assert Twin(m.children[|w.children|], root);
    }
  }

  /** Without a parent window nothing stops a second copy: each merge appends the root again. */
  lemma MergeWithoutParentRepeats(md5: Md5, w: Element, root: Element)
    ensures Merge(md5, Merge(md5, w, root, None), root, None).children == w.children + [root, root]
  {
    WithHashesSpec(md5, w.(children := w.children + [root]));
    var m := Merge(md5, w, root, None);
    WithHashesSpec(md5, m.(children := m.children + [root]));
  }

  /** A parent window other than `w` leaves `w` exactly as it was. */
  lemma MergeOtherWindowKeeps(md5: Md5, w: Element, root: Element, pw: Element)
    requires !WindowsAreEqual(w, pw)
    ensures Merge(md5, w, root, Some(pw)) == w
  {
  }

  /** A failed hit test, or a failure while building, never yields a window. */
  lemma HitTestOutcome(p: Provider, w: Element, hit: Option<Handle>, maxDepth: Option<int>, md5: Md5, fuel: nat)
    ensures w.position.Some? && hit.None? ==> HitTestMerge(p, w, hit, maxDepth, md5, fuel) == Success(None)
    ensures w.position.None? ==> HitTestMerge(p, w, hit, maxDepth, md5, fuel) == Failure(NoWindowPosition)
    ensures fuel == 0 && w.position.Some? && hit.Some? ==> HitTestMerge(p, w, hit, maxDepth, md5, fuel) == Failure(RecursionLimit)
    ensures HitTestMerge(p, w, hit, maxDepth, md5, fuel).Success? && HitTestMerge(p, w, hit, maxDepth, md5, fuel).value.Some? ==>
            WindowsAreEqual(HitTestMerge(p, w, hit, maxDepth, md5, fuel).value.value, w)
  {
    var r := HitTestMerge(p, w, hit, maxDepth, md5, fuel);
    if r.Success? && r.value.Some? {
      var ox, oy := w.position.value.x, w.position.value.y;
      var found := FindRootElement(p, hit.value, fuel).value;
      var root := Build(p, found, ox, oy, maxDepth, None, md5, fuel).value;
      var parentWindow := Lookup(p, found).window;
      if parentWindow.None? {
        MergeShape(md5, w, root, None);
      } else {
        MergeShape(md5, w, root, Some(Build(p, parentWindow, ox, oy, maxDepth, None, md5, fuel).value));
      }
    }
  }

  /**
   * When the parent chain of the hit element ends without a window-like
   * element, the source still builds `UIElement(None, ...)`: an element
   * with no attributes at all ("No role"). Its window attribute is None,
   * so it is appended to the window like a root without a parent window.
   */
  lemma NoRootAppends(p: Provider, w: Element, hit: Option<Handle>, maxDepth: Option<int>, md5: Md5, fuel: nat)
    requires w.position.Some? && hit.Some?
    requires FindRootElement(p, hit.value, fuel) == Success(None)
    ensures Build(p, None, w.position.value.x, w.position.value.y, maxDepth, None, md5, fuel).Success?
    ensures Build(p, None, w.position.value.x, w.position.value.y, maxDepth, None, md5, fuel).value.role == "No role"
    ensures Build(p, None, w.position.value.x, w.position.value.y, maxDepth, None, md5, fuel).value.position.None?
    ensures Build(p, None, w.position.value.x, w.position.value.y, maxDepth, None, md5, fuel).value.children == []
    ensures HitTestMerge(p, w, hit, maxDepth, md5, fuel)
         == Success(Some(Merge(md5, w, Build(p, None, w.position.value.x, w.position.value.y, maxDepth, None, md5, fuel).value, None)))
    ensures HitTestMerge(p, w, hit, maxDepth, md5, fuel).value.value.children
         == w.children + [Build(p, None, w.position.value.x, w.position.value.y, maxDepth, None, md5, fuel).value]
  {
    assert fuel > 0;
    assert Lookup(p, None) == NoAttrs;
    var root := Build(p, None, w.position.value.x, w.position.value.y, maxDepth, None, md5, fuel);
    assert root == Node(p, None, w.position.value.x, w.position.value.y, maxDepth, None, md5, fuel - 1);
    MergeShape(md5, w, root.value, None);
    MergeAppendsIff(md5, w, root.value, None);
  }

  // -----------------------------------------------------------------------
  // The source's imperative code
  // -----------------------------------------------------------------------

  /** `store_data_to_file`: nothing without an output file, else the path and the dictionary. */
  function StoreData(e: Element, outputFile: Option<string>): (written: Option<(string, Json)>)
    ensures outputFile.None? <==> written.None?
    ensures written.Some? ==> written.value.0 == outputFile.value && written.value.1.JObj? && Keys(written.value.1.fields) == DictKeys
  {
    if outputFile.None? then None
    else
      ToDictKeys(e);
      Some((outputFile.value, ToDict(e)))
  }

  /**
   * `extract_with_hit_test`. Failures come from the attribute access on a
   * window without position and from building the two elements; none of
   * them happens after the window was changed.
   */
  method ExtractWithHitTest(p: Provider, window: UIElement, hit: Option<Handle>, outputFile: Option<string>,
                            maxDepth: Option<int>, md5: Md5, fuel: nat)
    returns (r: Result<bool, BuildError>, written: Option<(string, Json)>)
    modifies window
    ensures var spec := HitTestMerge(p, old(window.Snapshot()), hit, maxDepth, md5, fuel);
            && (spec.Failure? ==> r == Failure(spec.error) && window.Snapshot() == old(window.Snapshot()))
            && (spec == Success(None) ==> r == Success(false) && window.Snapshot() == old(window.Snapshot()))
            && (spec.Success? && spec.value.Some? ==> r == Success(true) && window.Snapshot() == spec.value.value)
    ensures written == (if r == Success(true) then StoreData(window.Snapshot(), outputFile) else None)
  {
    written := None;
    var w := window.Snapshot();
    if w.position.None? {
      return Failure(NoWindowPosition), None;
    }
    var windowOffsetX, windowOffsetY := w.position.value.x, w.position.value.y;
    if hit.None? {
      return Success(false), None;
    }
    var foundRoot := FindRootElement(p, hit.value, fuel);
    if foundRoot.Failure? {
      return Failure(foundRoot.error), None;
    }
    var foundRootElement := foundRoot.value;
    var rootResult := NewElement(p, foundRootElement, windowOffsetX, windowOffsetY, maxDepth, None, md5, fuel);
    if rootResult.Failure? {
      return Failure(rootResult.error), None;
    }
    var rootElement := rootResult.value;
    var parentWindow := Lookup(p, foundRootElement).window;
    var parentWindowElement: Option<Element> := None;
    if parentWindow.Some? {
      var parentResult := NewElement(p, parentWindow, windowOffsetX, windowOffsetY, maxDepth, None, md5, fuel);
      if parentResult.Failure? {
        return Failure(parentResult.error), None;
      }
      parentWindowElement := Some(parentResult.value);
    }
    MergeIntoWindow(md5, window, rootElement, parentWindowElement);
    r := Success(true);
    written := StoreData(window.Snapshot(), outputFile);
  }

  /**
   * The part of `extract_with_hit_test` that changes the window: the scan
   * for a twin under a matching parent window, the append and the rehash.
   */
  method MergeIntoWindow(md5: Md5, window: UIElement, rootElement: Element, parentWindowElement: Option<Element>)
    modifies window
    ensures window.Snapshot() == Merge(md5, old(window.Snapshot()), rootElement, parentWindowElement)
  {
    if parentWindowElement.Some? {
      if WindowsAreEqual(window.Snapshot(), parentWindowElement.value) {
        var elementNotFound := true;
        var i := 0;
        while i < |window.children|
          invariant 0 <= i <= |window.children|
          invariant elementNotFound <==> !HasTwin(window.children[..i], rootElement)
        {
          if window.children[i].identifier == rootElement.identifier
             && window.children[i].contentIdentifier == rootElement.contentIdentifier {
            elementNotFound := false;
          }
          assert window.children[..i + 1] == window.children[..i] + [window.children[i]];
          i := i + 1;
        }
        assert window.children[..i] == window.children;
        if elementNotFound {
          window.AppendChild(rootElement);
          window.CalculateHashes(md5);
        }
      }
    } else {
      window.AppendChild(rootElement);
      window.CalculateHashes(md5);
    }
  }

  /**
   * `extract_window`: no window gives False; without the hit test the window
   * is stored as it is.
   */
  method ExtractWindow(p: Provider, window: UIElement?, outputFile: Option<string>, performHitTest: bool,
                       hit: Option<Handle>, maxDepth: Option<int>, md5: Md5, fuel: nat)
    returns (r: Result<bool, BuildError>, written: Option<(string, Json)>)
    modifies window
    ensures window == null ==> r == Success(false) && written == None
    ensures window != null && !performHitTest ==>
              r == Success(true) && written == StoreData(window.Snapshot(), outputFile)
              && window.Snapshot() == old(window.Snapshot())
    ensures window != null && performHitTest ==>
              var spec := HitTestMerge(p, old(window.Snapshot()), hit, maxDepth, md5, fuel);
              && (spec.Failure? ==> r == Failure(spec.error) && window.Snapshot() == old(window.Snapshot()))
              && (spec == Success(None) ==> r == Success(false) && window.Snapshot() == old(window.Snapshot()))
              && (spec.Success? && spec.value.Some? ==> r == Success(true) && window.Snapshot() == spec.value.value)
              && written == (if r == Success(true) then StoreData(window.Snapshot(), outputFile) else None)
  {
    if window == null {
      return Success(false), None;
    }
    if performHitTest {
      r, written := ExtractWithHitTest(p, window, hit, outputFile, maxDepth, md5, fuel);
    } else {
      r, written := Success(true), StoreData(window.Snapshot(), outputFile);
    }
  }
}
