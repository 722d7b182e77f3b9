/**
 * AccessibilityUtils.swift: which window control, if any, a click landed on.
 *
 * The accessibility tree is an input: the hit test gives an element or
 * nothing, and each element carries the attributes the classification reads
 * (absent when the attribute is missing or not a string) and its parent, if
 * it has one. The role attribute is only logged by the source and is left
 * out.
 */
module Accessibility {
  import opened Common
  import opened Text

  /** `WindowControlEvent`, with its raw values. */
  datatype WindowControlEvent = Close | Minimize | Zoom {
    function RawValue(): string {
      match this
      case Close => "window_close"
      case Minimize => "window_min"
      case Zoom => "window_zoom"
    }
  }

  /** Each event has its own raw value, so the sound an event names is unambiguous. */
  lemma RawValueInjective(a: WindowControlEvent, b: WindowControlEvent)
    ensures a.RawValue() == b.RawValue() ==> a == b
  {
    if a != b {
      assert a.RawValue()[7] != b.RawValue()[7];
    }
  }

  const CloseButtonSubrole: string := "AXCloseButton"
  const MinimizeButtonSubrole: string := "AXMinimizeButton"
  const ZoomButtonSubrole: string := "AXZoomButton"

  /** `isWindowControl(subrole:)`. */
  predicate IsWindowControl(subrole: string) {
    subrole == CloseButtonSubrole || subrole == MinimizeButtonSubrole || subrole == ZoomButtonSubrole
  }

  /** `mapSubrole`. */
  function MapSubrole(subrole: string): Option<WindowControlEvent> {
    if subrole == CloseButtonSubrole then Some(Close)
    else if subrole == MinimizeButtonSubrole then Some(Minimize)
    else if subrole == ZoomButtonSubrole then Some(Zoom)
    else None
  }

  /** The table and the test agree: a subrole is a control exactly when it maps to an event. */
  lemma IsWindowControlIffMapped(subrole: string)
    ensures IsWindowControl(subrole) <==> MapSubrole(subrole).Some?
    ensures MapSubrole(subrole) == Some(Close) <==> subrole == "AXCloseButton"
    ensures MapSubrole(subrole) == Some(Minimize) <==> subrole == "AXMinimizeButton"
    ensures MapSubrole(subrole) == Some(Zoom) <==> subrole == "AXZoomButton"
  {
  }

  /** An accessibility element as the classification sees it. */
  datatype Element = Element(
    subrole: Option<string>,
    title: Option<string>,
    description: Option<string>,
    parent: Option<Element>)

  /** The keyword test on a title (already lower-cased). */
  function TitleKeyword(lower: string): Option<WindowControlEvent> {
    if Contains(lower, "close") then Some(Close)
    else if Contains(lower, "minimize") then Some(Minimize)
    else if Contains(lower, "zoom") || Contains(lower, "fullscreen") then Some(Zoom)
    else None
  }

  /** The keyword test on a description (already lower-cased): no "fullscreen" here. */
  function DescriptionKeyword(lower: string): Option<WindowControlEvent> {
    if Contains(lower, "close") then Some(Close)
    else if Contains(lower, "minimize") then Some(Minimize)
    else if Contains(lower, "zoom") then Some(Zoom)
    else None
  }

  /** `checkAttributes(element:)`: the title first, then the description. */
  function CheckAttributes(e: Element): Option<WindowControlEvent> {
    var fromTitle := match e.title case Some(t) => TitleKeyword(Lower(t)) case None => None;
    if fromTitle.Some? then fromTitle
    else match e.description case Some(d) => DescriptionKeyword(Lower(d)) case None => None
  }

  /**
   * A keyword in the title decides, whatever the description says; the
   * description is read only when the title gives nothing; with no keyword
   * in either, nothing.
   */
  lemma CheckAttributesOrder(e: Element)
    ensures e.title.Some? && TitleKeyword(Lower(e.title.value)).Some? ==>
              CheckAttributes(e) == TitleKeyword(Lower(e.title.value))
    ensures (e.title.None? || TitleKeyword(Lower(e.title.value)).None?) ==>
              CheckAttributes(e) == (if e.description.Some? then DescriptionKeyword(Lower(e.description.value)) else None)
  {
  }

  /** Within a field, "close" beats "minimize", which beats "zoom". */
  lemma KeywordPriority(lower: string)
    ensures Contains(lower, "close") ==> TitleKeyword(lower) == Some(Close) && DescriptionKeyword(lower) == Some(Close)
    ensures !Contains(lower, "close") && Contains(lower, "minimize") ==>
              TitleKeyword(lower) == Some(Minimize) && DescriptionKeyword(lower) == Some(Minimize)
  {
  }

  /**
   * "fullscreen" counts as zoom in a title but not in a description: a
   * text with only that keyword gives zoom as a title and nothing as a
   * description.
   */
  lemma FullscreenOnlyInTitle(text: string)
    requires var l := Lower(text);
      Contains(l, "fullscreen") && !Contains(l, "close") && !Contains(l, "minimize") && !Contains(l, "zoom")
    ensures CheckAttributes(Element(None, Some(text), None, None)) == Some(Zoom)
    ensures CheckAttributes(Element(None, None, Some(text), None)) == None
  {
  }

  /** The keyword match ignores case: lower-casing the texts first changes nothing. */
  lemma KeywordsIgnoreCase(e: Element)
    ensures CheckAttributes(e) ==
              CheckAttributes(e.(title := if e.title.Some? then Some(Lower(e.title.value)) else None,
                                 description := if e.description.Some? then Some(Lower(e.description.value)) else None))
  {
    if e.title.Some? { LowerIdempotent(e.title.value); }
    if e.description.Some? { LowerIdempotent(e.description.value); }
  }

  // ------------------------------------------------------------------ the ancestor walk

  /** The `k`-th ancestor of `e` (the element itself for `k == 0`), if the chain is that long. */
  function Ancestor(e: Element, k: nat): Option<Element>
    decreases k
  {
    if k == 0 then Some(e)
    else match e.parent case None => None case Some(p) => Ancestor(p, k - 1)
  }

  /** The subrole a parent is read with: `""` when it has none. */
  function ParentSubrole(p: Element): string {
    p.subrole.GetOr("")
  }

  /** The walk over at most `levels` ancestors: the first one whose subrole is a control decides. */
  function AncestorControl(e: Element, levels: nat): Option<WindowControlEvent>
    decreases levels
  {
    if levels == 0 then None
    else match e.parent
      case None => None
      case Some(p) => if IsWindowControl(ParentSubrole(p)) then MapSubrole(ParentSubrole(p)) else AncestorControl(p, levels - 1)
  }

  /** The `k`-th ancestor has a control subrole and the nearer ones do not. */
  predicate FirstControlAt(e: Element, k: nat) {
    Ancestor(e, k).Some? && IsWindowControl(ParentSubrole(Ancestor(e, k).value))
    && forall j :: 1 <= j < k ==> Ancestor(e, j).Some? && !IsWindowControl(ParentSubrole(Ancestor(e, j).value))
  }

  /**
   * The walk finds a control exactly at the first of the `levels` nearest
   * ancestors that has one; when it finds none, none of them has one.
   */
  lemma {:induction false} AncestorControlFirst(e: Element, levels: nat)
    ensures AncestorControl(e, levels).Some? ==>
              exists k :: 1 <= k <= levels && FirstControlAt(e, k)
                && AncestorControl(e, levels) == MapSubrole(ParentSubrole(Ancestor(e, k).value))
    ensures AncestorControl(e, levels).None? ==>
              forall k :: 1 <= k <= levels && Ancestor(e, k).Some? ==> !IsWindowControl(ParentSubrole(Ancestor(e, k).value))
    decreases levels
  {
    if levels > 0 && e.parent.Some? {
      var p := e.parent.value;
      assert Ancestor(e, 1) == Some(p);
      AncestorControlFirst(p, levels - 1);
      forall k | 1 <= k ensures Ancestor(e, k) == Ancestor(p, k - 1) { }
      if IsWindowControl(ParentSubrole(p)) {
        assert FirstControlAt(e, 1);
      } else if AncestorControl(e, levels).Some? {
        assert AncestorControl(p, levels - 1) == AncestorControl(e, levels);
        var k :| 1 <= k <= levels - 1 && FirstControlAt(p, k)
          && AncestorControl(p, levels - 1) == MapSubrole(ParentSubrole(Ancestor(p, k).value));
        assert Ancestor(e, k + 1) == Ancestor(p, k);
        forall j | 1 <= j < k + 1
          ensures Ancestor(e, j).Some? && !IsWindowControl(ParentSubrole(Ancestor(e, j).value))
        {
          if j > 1 { assert Ancestor(e, j) == Ancestor(p, j - 1); }
        }
        assert FirstControlAt(e, k + 1);
      } else {
        forall k | 1 <= k <= levels && Ancestor(e, k).Some?
          ensures !IsWindowControl(ParentSubrole(Ancestor(e, k).value))
        {
          if k > 1 { assert Ancestor(e, k) == Ancestor(p, k - 1); }
        }
      }
    } else if levels > 0 {
      forall k | 1 <= k <= levels ensures Ancestor(e, k).None? {
        assert Ancestor(e, k) == None;
      }
    }
  }

  /** `e` with its ancestor chain cut after `k` levels. */
  function Cut(e: Element, k: nat): Element
    decreases k
  {
    if k == 0 then e.(parent := None)
    else e.(parent := match e.parent case None => None case Some(p) => Some(Cut(p, k - 1)))
  }

  /** Only the nearest `levels` ancestors matter: the walk ignores everything above them. */
  lemma {:induction false} AncestorControlLocal(e: Element, levels: nat)
    ensures AncestorControl(e, levels) == AncestorControl(Cut(e, levels), levels)
    decreases levels
  {
    if levels > 0 && e.parent.Some? {
      var p := e.parent.value;
      AncestorControlLocal(p, levels - 1);
      assert Cut(e, levels).parent == Some(Cut(p, levels - 1));
      assert Cut(p, levels - 1).subrole == p.subrole;
    }
  }

  // ------------------------------------------------------------------ checkElement

  const MaxAncestors: nat := 3

  /** The subrole the target is read with: `"UnknownSubrole"` when it has none. */
  function TargetSubrole(t: Element): string {
    t.subrole.GetOr("UnknownSubrole")
  }

  /**
   * `checkElement(at:)` given the hit test's result: nothing when the hit
   * test fails; the target's own control subrole; else the first of three
   * ancestors with one; else the keywords of the target itself.
   */
  function Classify(hit: Option<Element>): Option<WindowControlEvent> {
    match hit
    case None => None
    case Some(t) =>
      if IsWindowControl(TargetSubrole(t)) then MapSubrole(TargetSubrole(t))
      else
        var fromAncestors := AncestorControl(t, MaxAncestors);
        if fromAncestors.Some? then fromAncestors else CheckAttributes(t)
  }

  /**
   * The target's own control subrole decides, whatever its ancestors and
   * texts; otherwise an ancestor within three levels decides; the keyword
   * fallback reads the target, never an ancestor.
   */
  lemma ClassifyOrder(t: Element)
    ensures IsWindowControl(TargetSubrole(t)) ==> Classify(Some(t)) == MapSubrole(TargetSubrole(t))
    ensures !IsWindowControl(TargetSubrole(t)) && AncestorControl(t, 3).Some? ==>
              Classify(Some(t)) == AncestorControl(t, 3)
    ensures !IsWindowControl(TargetSubrole(t)) && AncestorControl(t, 3).None? ==>
              Classify(Some(t)) == CheckAttributes(t)
    ensures Classify(Some(t)) == Classify(Some(Cut(t, 3)))
  {
    AncestorControlLocal(t, 3);
    assert CheckAttributes(Cut(t, 3)) == CheckAttributes(t);
  }

  /** A parent titled "Close" does not make a click on a plain child a close. */
  lemma FallbackReadsTargetOnly()
    ensures Classify(Some(Element(Some("AXImage"), None, None,
                                  Some(Element(Some("AXGroup"), Some("Close"), None, None))))) == None
  {
  }

  /** `checkElement(at:)`, with the three-step walk up the parents as a loop. */
  method CheckElement(hit: Option<Element>) returns (r: Option<WindowControlEvent>)
    ensures r == Classify(hit)
    ensures hit.None? ==> r.None?
  {
    if hit.None? {
      return None;
    }
    var targetElement := hit.value;
    var subroleStr := targetElement.subrole.GetOr("UnknownSubrole");
    if IsWindowControl(subroleStr) {
      return MapSubrole(subroleStr);
    }
    var currentElement := targetElement;
    var i := 0;
    while i < MaxAncestors
      invariant 0 <= i <= MaxAncestors
      invariant AncestorControl(targetElement, MaxAncestors) == AncestorControl(currentElement, MaxAncestors - i)
    {
      if currentElement.parent.None? {
        break;
      }
      currentElement := currentElement.parent.value;
      var pSubroleStr := currentElement.subrole.GetOr("");
      if IsWindowControl(pSubroleStr) {
        return MapSubrole(pSubroleStr);
      }
      i := i + 1;
    }
    return CheckAttributes(targetElement);
  }
}
