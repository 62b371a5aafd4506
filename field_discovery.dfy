/** Discovery of fillable form fields: which elements of a page (and of its
    same-origin frames) become candidates, and the record kept for each. */
module FieldDiscovery {
  import opened Wrappers
  import opened Strings
  import opened Dom

  /** What the engine records about one form control */
  datatype Candidate = Candidate(
    element: Element,
    tagName: string,
    inputType: Option<string>,
    nameAttr: Option<string>,
    idAttr: Option<string>,
    classes: seq<string>,
    ariaLabel: Option<string>,
    ariaLabelledByText: Option<string>,
    placeholder: Option<string>,
    labelText: Option<string>,
    surroundingText: Option<string>,
    autocompleteAttr: Option<string>,
    isVisible: bool,
    isRequired: bool)

  /** A subtree the scan starts from: its descendant elements in document
      order, and the `<iframe>` elements among them, in document order. */
  datatype Root = Root(elements: seq<Element>, frames: seq<Frame>)

  /** An iframe whose document cannot be read (cross-origin, no document, no
      body) is skipped; a readable one is scanned from its body. */
  datatype Frame = Inaccessible | Accessible(body: Root)

  /** `isVisible`: not hidden by style, and a box of positive size */
  predicate IsVisible(e: Element) {
    && e.style.display != "none"
    && e.style.visibility != "hidden"
    && e.style.opacity != "0"
    && e.width > 0 && e.height > 0
  }

  /** Input types excluded by the `input:not([type=...])` selector; the
      attribute value is compared without regard to case */
  const ExcludedInputTypes: set<string> := {"hidden", "submit", "button", "image"}

  /** ARIA roles the scan selects whatever the element's tag */
  const SelectedRoles: set<string> := {"textbox", "listbox", "combobox", "checkbox", "radio"}

  /** The element matches the combined selector list of the scan */
  predicate Selected(e: Element) {
    || (e.tag == "input" && !(e.Attr("type").Some? && ToLower(e.Attr("type").value) in ExcludedInputTypes))
    || e.tag == "textarea"
    || e.tag == "select"
    || (e.Attr("role").Some? && e.Attr("role").value in SelectedRoles)
  }

  /** Selected, visible, and not a honeypot */
  predicate Admitted(e: Element) {
    && Selected(e)
    && IsVisible(e)
    && e.Attr("aria-hidden") != Some("true")
    && e.Attr("tabindex") != Some("-1")
  }

  /** Text appended for each `aria-labelledby` id: a space and the text of the
      element with that id, or nothing when there is none */
  function AriaPiece(doc: DocumentView, id: string): string {
    match TextById(doc, id)
    case Some(t) => " " + t
    case None => ""
  }

  function AriaTexts(doc: DocumentView, ids: seq<string>): string {
    if ids == [] then "" else AriaTexts(doc, ids[..|ids| - 1]) + AriaPiece(doc, ids[|ids| - 1])
  }

  /** The `label[for=id]` part: looked up in the top-level document */
  function ForLabelPart(e: Element, doc: DocumentView): string {
    if e.Id() != "" then LabelForText(doc.labels, e.Id()).GetOr("") else ""
  }

  /** The ancestor-label part: the label's text without the control */
  function AncestorLabelPart(e: Element): string {
    match e.closestLabel
    case Some(l) => l.textWithoutControl
    case None => ""
  }

  /** The ids listed in a non-empty `aria-labelledby`, split on whitespace runs */
  function LabelledByIds(e: Element): seq<string> {
    match e.Attr("aria-labelledby")
    case Some(v) => if v != "" then SplitWs(v) else []
    case None => []
  }

  /** `getLabelText`: the three sources concatenated, then trimmed */
  function LabelText(e: Element, doc: DocumentView): (r: string)
    ensures NoLeadingWs(r) && NoTrailingWs(r)
    ensures |r| <= |ForLabelPart(e, doc) + AncestorLabelPart(e) + AriaTexts(doc, LabelledByIds(e))|
  {
    Trim(ForLabelPart(e, doc) + AncestorLabelPart(e) + AriaTexts(doc, LabelledByIds(e)))
  }

  /** `getLabelText`, accumulating the text as the engine does */
  method GetLabelText(e: Element, doc: DocumentView) returns (labelText: string)
    ensures labelText == LabelText(e, doc)
  {
    labelText := "";
    if e.Id() != "" {
      var forLabel := LabelForText(doc.labels, e.Id());
      if forLabel.Some? {
        labelText := labelText + forLabel.value;
      }
    }
    if e.closestLabel.Some? {
      labelText := labelText + e.closestLabel.value.textWithoutControl;
    }
    assert labelText == ForLabelPart(e, doc) + AncestorLabelPart(e);
    labelText := AppendLabelledByTexts(labelText, doc, LabelledByIds(e));
    labelText := Trim(labelText);
  }

  /** The `aria-labelledby` loop of `getLabelText`: one piece per id, in order */
  method AppendLabelledByTexts(prefix: string, doc: DocumentView, ids: seq<string>) returns (labelText: string)
    ensures labelText == prefix + AriaTexts(doc, ids)
  {
    labelText := prefix;
    var k := 0;
    assert ids[..0] == [];
    while k < |ids|
      invariant 0 <= k <= |ids|
      invariant labelText == prefix + AriaTexts(doc, ids[..k])
    {
      var found := TextById(doc, ids[k]);
      AppendAriaPiece(prefix, labelText, doc, ids, k, found);
      if found.Some? {
        labelText := labelText + (" " + found.value);
      }
      k := k + 1;
    }
    assert ids[..|ids|] == ids;
  }

  /** One more id adds its piece at the end. */
  lemma AppendAriaPiece(prefix: string, labelText: string, doc: DocumentView, ids: seq<string>, k: nat, found: Option<string>)
    requires k < |ids| && found == TextById(doc, ids[k])
    requires labelText == prefix + AriaTexts(doc, ids[..k])
    ensures (if found.Some? then labelText + (" " + found.value) else labelText) == prefix + AriaTexts(doc, ids[..k + 1])
  {
    var longer := ids[..k + 1];
    assert longer[..|longer| - 1] == ids[..k] && longer[|longer| - 1] == ids[k];
    var before := AriaTexts(doc, ids[..k]);
    var piece := AriaPiece(doc, ids[k]);
    assert AriaTexts(doc, longer) == before + piece;
    assert prefix + before + piece == prefix + (before + piece);
  }

  /** `getSurroundingText`: the parent's text with whitespace runs collapsed
      to one space, then trimmed */
  function SurroundingText(e: Element): (r: string)
    ensures NoLeadingWs(r) && NoTrailingWs(r) && SingleSpaced(r)
  {
    var c := Collapse(e.parentText.GetOr(""));
    CollapseShape(e.parentText.GetOr(""));
    TrimKeepsSingleSpaced(c);
    Trim(c)
  }

  /** The record built for an admitted element */
  function MakeCandidate(e: Element, doc: DocumentView): (c: Candidate)
    ensures c.element == e && c.tagName == e.tag && c.classes == e.classes
    ensures c.isVisible
    ensures c.isRequired <==> "required" in e.attrs || e.Attr("aria-required") == Some("true")
    ensures c.inputType.Some? ==> c.inputType.value != "" && e.Attr("type") == c.inputType
    ensures c.inputType.None? ==> e.Attr("type") in {None, Some("")}
    ensures c.nameAttr.Some? ==> c.nameAttr.value != "" && e.Attr("name") == c.nameAttr
    ensures c.nameAttr.None? ==> e.Attr("name") in {None, Some("")}
    ensures c.idAttr.Some? ==> c.idAttr.value != "" && e.Attr("id") == c.idAttr
    ensures c.idAttr.None? ==> e.Attr("id") in {None, Some("")}
    ensures c.ariaLabel.Some? ==> c.ariaLabel.value != "" && e.Attr("aria-label") == c.ariaLabel
    ensures c.ariaLabel.None? ==> e.Attr("aria-label").None? || e.Attr("aria-label") == Some("")
    ensures c.placeholder.Some? ==> c.placeholder.value != "" && e.Attr("placeholder") == c.placeholder
    ensures c.placeholder.None? ==> e.Attr("placeholder").None? || e.Attr("placeholder") == Some("")
    ensures c.autocompleteAttr.Some? ==> c.autocompleteAttr.value != "" && e.Attr("autocomplete") == c.autocompleteAttr
    ensures c.autocompleteAttr.None? ==> e.Attr("autocomplete").None? || e.Attr("autocomplete") == Some("")
    ensures c.ariaLabelledByText.None?
    ensures c.labelText == Some(LabelText(e, doc))
    ensures c.surroundingText == Some(SurroundingText(e))
  {
    Candidate(
      e, e.tag,
      e.NonEmptyAttr("type"),
      e.NonEmptyAttr("name"),
      e.NonEmptyAttr("id"),
      e.classes,
      e.NonEmptyAttr("aria-label"),
      None,
      e.NonEmptyAttr("placeholder"),
      Some(LabelText(e, doc)),
      Some(SurroundingText(e)),
      e.NonEmptyAttr("autocomplete"),
      true,
      "required" in e.attrs || e.Attr("aria-required") == Some("true"))
  }

  /** Candidates from a run of elements, in order */
  function ElementCandidates(es: seq<Element>, doc: DocumentView): (cs: seq<Candidate>)
    ensures |cs| <= |es|
  {
    if es == [] then []
    else
      ElementCandidates(es[..|es| - 1], doc) +
      (if Admitted(es[|es| - 1]) then [MakeCandidate(es[|es| - 1], doc)] else [])
  }

  /** The candidates of a run of elements are exactly the records of its
      admitted elements. */
  lemma {:induction false} ElementCandidatesMembers(es: seq<Element>, doc: DocumentView)
    ensures forall c :: c in ElementCandidates(es, doc) ==>
              c.element in es && Admitted(c.element) && c == MakeCandidate(c.element, doc)
    ensures forall e :: e in es && Admitted(e) ==> MakeCandidate(e, doc) in ElementCandidates(es, doc)
  {
    if es != [] {
      var init := es[..|es| - 1];
      ElementCandidatesMembers(init, doc);
      assert forall e :: e in es ==> e in init || e == es[|es| - 1];
      assert forall e :: e in init ==> e in es;
    }
  }

  /** `scanForCandidates(root)`: the root's own candidates, then those of each
      readable iframe, in iframe order */
  function Discover(r: Root, doc: DocumentView): seq<Candidate>
    decreases r, |r.frames| + 1
  {
    ElementCandidates(r.elements, doc) + FrameCandidates(r, |r.frames|, doc)
  }

  /** Candidates of the first `n` iframes of `r` */
  function FrameCandidates(r: Root, n: nat, doc: DocumentView): seq<Candidate>
    requires n <= |r.frames|
    decreases r, n
  {
    if n == 0 then []
    else
      FrameCandidates(r, n - 1, doc) +
      match r.frames[n - 1]
      case Inaccessible => []
      case Accessible(body) => Discover(body, doc)
  }

  /** Every discovered candidate is an admitted element recorded as such. */
  lemma {:induction false} DiscoveredAdmitted(r: Root, doc: DocumentView)
    ensures forall c :: c in Discover(r, doc) ==> Admitted(c.element) && c == MakeCandidate(c.element, doc)
    decreases r, |r.frames| + 1
  {
    ElementCandidatesMembers(r.elements, doc);
    FramesAdmitted(r, |r.frames|, doc);
  }

  lemma {:induction false} FramesAdmitted(r: Root, n: nat, doc: DocumentView)
    requires n <= |r.frames|
    ensures forall c :: c in FrameCandidates(r, n, doc) ==> Admitted(c.element) && c == MakeCandidate(c.element, doc)
    decreases r, n
  {
    if n > 0 {
      FramesAdmitted(r, n - 1, doc);
      match r.frames[n - 1]
      case Inaccessible =>
      case Accessible(body) => DiscoveredAdmitted(body, doc);
    }
  }

  /** An inaccessible iframe adds nothing and stops nothing: the candidates
      are those of the same page without it. */
  lemma InaccessibleFrameSkipped(r: Root, doc: DocumentView)
    ensures Discover(Root(r.elements, r.frames + [Inaccessible]), doc) == Discover(r, doc)
  {
    var r' := Root(r.elements, r.frames + [Inaccessible]);
    FramesPrefix(r, r', |r.frames|, doc);
  }

  /** A readable iframe appended to a page appends its own candidates. */
  lemma AccessibleFrameAppended(r: Root, body: Root, doc: DocumentView)
    ensures Discover(Root(r.elements, r.frames + [Accessible(body)]), doc)
         == Discover(r, doc) + Discover(body, doc)
  {
    var r' := Root(r.elements, r.frames + [Accessible(body)]);
    FramesPrefix(r, r', |r.frames|, doc);
  }

  lemma {:induction false} FramesPrefix(r: Root, r': Root, n: nat, doc: DocumentView)
    requires n <= |r.frames| <= |r'.frames|
    requires r'.frames[..|r.frames|] == r.frames
    ensures FrameCandidates(r, n, doc) == FrameCandidates(r', n, doc)
    decreases n
  {
    if n > 0 {
      FramesPrefix(r, r', n - 1, doc);
      assert r.frames[n - 1] == r'.frames[..|r.frames|][n - 1];
    }
  }

  /** The record literal of `scanForCandidates` for one element */
  method RecordCandidate(e: Element, doc: DocumentView) returns (c: Candidate)
    ensures c == MakeCandidate(e, doc)
  {
    var labelText := GetLabelText(e, doc);
    c := Candidate(
      e, e.tag,
      e.NonEmptyAttr("type"),
      e.NonEmptyAttr("name"),
      e.NonEmptyAttr("id"),
      e.classes,
      e.NonEmptyAttr("aria-label"),
      None,
      e.NonEmptyAttr("placeholder"),
      Some(labelText),
      Some(SurroundingText(e)),
      e.NonEmptyAttr("autocomplete"),
      true,
      "required" in e.attrs || e.Attr("aria-required") == Some("true"));
  }

  /** The `elements.forEach` loop of `scanForCandidates` */
  method ScanElements(es: seq<Element>, doc: DocumentView) returns (candidates: seq<Candidate>)
    ensures candidates == ElementCandidates(es, doc)
  {
    candidates := [];
    var i := 0;
    while i < |es|
      invariant 0 <= i <= |es|
      invariant candidates == ElementCandidates(es[..i], doc)
    {
      var e := es[i];
      assert es[..i + 1][..i] == es[..i];
      assert ElementCandidates(es[..i + 1], doc) ==
             candidates + (if Admitted(e) then [MakeCandidate(e, doc)] else []);
      if Admitted(e) {
        var c := RecordCandidate(e, doc);
        candidates := candidates + [c];
      }
      i := i + 1;
    }
    assert es[..i] == es;
  }

  /** `scanForCandidates`: the root's elements, then every iframe in turn; an
      iframe that cannot be read is skipped and the scan goes on */
  method ScanForCandidates(r: Root, doc: DocumentView) returns (candidates: seq<Candidate>)
    ensures candidates == Discover(r, doc)
    decreases r, |r.frames| + 1
  {
    candidates := ScanElements(r.elements, doc);
    ghost var own := candidates;
    var j := 0;
    while j < |r.frames|
      invariant 0 <= j <= |r.frames|
      invariant candidates == own + FrameCandidates(r, j, doc)
    {
      match r.frames[j] {
        case Inaccessible =>
          AppendFrame(own, candidates, r, j, doc, []);
        case Accessible(body) =>
          var inner := ScanForCandidates(body, doc);
          AppendFrame(own, candidates, r, j, doc, inner);
          candidates := candidates + inner;
      }
      j := j + 1;
    }
  }

  /** One more iframe adds its own candidates, or none when it cannot be read. */
  lemma AppendFrame(own: seq<Candidate>, candidates: seq<Candidate>, r: Root, j: nat, doc: DocumentView, inner: seq<Candidate>)
    requires j < |r.frames| && candidates == own + FrameCandidates(r, j, doc)
    requires r.frames[j].Accessible? ==> inner == Discover(r.frames[j].body, doc)
    ensures (if r.frames[j].Accessible? then candidates + inner else candidates) == own + FrameCandidates(r, j + 1, doc)
  {
    var before := FrameCandidates(r, j, doc);
    if r.frames[j].Accessible? {
      assert FrameCandidates(r, j + 1, doc) == before + inner;
      assert own + before + inner == own + (before + inner);
    } else {
      assert FrameCandidates(r, j + 1, doc) == before + [];
    }
  }
}
