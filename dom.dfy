/** The page as the engine sees it. An element is an object: its tag, attributes,
    computed style, box and surrounding text are fixed for one pass, while the
    state that filling changes (`value`, `checked`, attached files, focus and the
    events the engine dispatched) lives in mutable fields. */
module Dom {
  import opened Wrappers
  import opened Strings

  /** The synthetic events the engine dispatches after writing a value */
  datatype EventType = FocusEvent | InputEvent | ChangeEvent | BlurEvent

  /** `focus`, `input`, `change`, `blur`, in that order */
  const WriteEvents: seq<EventType> := [FocusEvent, InputEvent, ChangeEvent, BlurEvent]

  /** The properties of `getComputedStyle` that the visibility tests read */
  datatype Style = Style(display: string, visibility: string, opacity: string)

  /** One `<option>` of a `<select>`: its `value` and its `text` */
  datatype SelectOption = SelectOption(value: string, text: string)

  /** The nearest ancestor `<label>` (`closest('label')`): its full text, and its
      text once the first descendant with the control's tag is removed from a clone */
  datatype ClosestLabel = ClosestLabel(text: string, textWithoutControl: string)

  /** A file placed into an `<input type=file>` */
  datatype FileBlob = FileBlob(name: string, data: seq<int>)

  /** A `<label for=...>` element of a document or shadow root */
  datatype LabelFor = LabelFor(forId: string, text: string)

  /** An element carrying an `id`, with its text content */
  datatype IdText = IdText(id: string, text: string)

  /** The document-wide lookups the engine performs: `label[for=...]` and
      `getElementById`, both answering with the first match in document order */
  datatype DocumentView = DocumentView(labels: seq<LabelFor>, idTexts: seq<IdText>)

  /** Text of the first label whose `for` attribute is `id` */
  function LabelForText(labels: seq<LabelFor>, id: string): (r: Option<string>)
    ensures r.Some? <==> exists i :: 0 <= i < |labels| && labels[i].forId == id
    ensures r.Some? ==> exists i :: 0 <= i < |labels| && labels[i].forId == id && labels[i].text == r.value
                                   && forall j :: 0 <= j < i ==> labels[j].forId != id
  {
    if labels == [] then None
    else if labels[0].forId == id then Some(labels[0].text)
    else
      var r := LabelForText(labels[1..], id);
      assert forall i :: 1 <= i < |labels| ==> labels[i] == labels[1..][i - 1];
      r
  }

  /** `document.getElementById(id)?.textContent`; no element has the empty id */
  function TextById(doc: DocumentView, id: string): (r: Option<string>)
    ensures id == "" ==> r.None?
  {
    if id == "" then None else FirstIdText(doc.idTexts, id)
  }

  function FirstIdText(items: seq<IdText>, id: string): Option<string> {
    if items == [] then None
    else if items[0].id == id then Some(items[0].text)
    else FirstIdText(items[1..], id)
  }

  /** The input types a browser knows; any other `type` reads back as "text" */
  const KnownInputTypes: set<string> := {
    "button", "checkbox", "color", "date", "datetime-local", "email", "file",
    "hidden", "image", "month", "number", "password", "radio", "range", "reset",
    "search", "submit", "tel", "text", "time", "url", "week"
  }

  class Element {
    /** `tagName.toLowerCase()` */
    const tag: string
    const attrs: map<string, string>
    const classes: seq<string>
    const style: Style
    /** `getBoundingClientRect()` width and height, in whole pixels */
    const width: int
    const height: int
    /** `offsetParent === null` */
    const offsetParentNull: bool
    const closestLabel: Option<ClosestLabel>
    /** `parentElement.textContent`, when there is a parent element */
    const parentText: Option<string>
    /** `options` of a `<select>`, in order */
    const options: seq<SelectOption>
    /** a listener of the page cancels the default action of a click */
    const clickPrevented: bool

    var value: string
    var checked: bool
    var files: seq<FileBlob>
    var focused: bool
    /** events the engine dispatched on this element, oldest first */
    var events: seq<EventType>

    constructor (tag: string, attrs: map<string, string>, classes: seq<string>, style: Style,
                 width: int, height: int, offsetParentNull: bool,
                 closestLabel: Option<ClosestLabel>, parentText: Option<string>,
                 options: seq<SelectOption>, clickPrevented: bool,
                 value: string, checked: bool)
      ensures this.tag == tag && this.attrs == attrs && this.classes == classes
      ensures this.style == style && this.width == width && this.height == height
      ensures this.offsetParentNull == offsetParentNull && this.closestLabel == closestLabel
      ensures this.parentText == parentText && this.options == options
      ensures this.clickPrevented == clickPrevented
      ensures this.value == value && this.checked == checked
      ensures files == [] && !focused && events == []
    {
      this.tag := tag;
      this.attrs := attrs;
      this.classes := classes;
      this.style := style;
      this.width := width;
      this.height := height;
      this.offsetParentNull := offsetParentNull;
      this.closestLabel := closestLabel;
      this.parentText := parentText;
      this.options := options;
      this.clickPrevented := clickPrevented;
      this.value := value;
      this.checked := checked;
      files := [];
      focused := false;
      events := [];
    }

    /** `getAttribute(name)`, with `None` for an absent attribute */
    function Attr(name: string): Option<string> {
      if name in attrs then Some(attrs[name]) else None
    }

    /** `getAttribute(name) || undefined`: absent and empty both give `None` */
    function NonEmptyAttr(name: string): (r: Option<string>)
      ensures r.Some? ==> r.value != "" && Attr(name) == r
      ensures r.None? ==> Attr(name).None? || Attr(name) == Some("")
    {
      if name in attrs && attrs[name] != "" then Some(attrs[name]) else None
    }

    /** The `id` property: the `id` attribute or "" */
    function Id(): string {
      Attr("id").GetOr("")
    }

    /** The `type` property of an `<input>`: the lower-cased attribute when the
        browser knows it, "text" otherwise */
    function TypeProp(): string {
      var a := ToLower(Attr("type").GetOr(""));
      if a in KnownInputTypes then a else "text"
    }

    predicate IsInput() { tag == "input" }

    /** The `checked` state after a click from state `was`: a checkbox
        toggles and a radio becomes checked, unless the page cancels the click */
    function AfterClick(was: bool): bool {
      if clickPrevented || !IsInput() then was
      else if TypeProp() == "checkbox" then !was
      else if TypeProp() == "radio" then true
      else was
    }

    /** A checkbox whose clicks the page lets through toggles on every click. */
    lemma CheckboxClickToggles(was: bool)
      requires IsInput() && !clickPrevented && TypeProp() == "checkbox"
      ensures AfterClick(was) == !was && AfterClick(AfterClick(was)) == was
    {
    }

    /** `click()`: only `checked` can change */
    method Click()
      modifies this
      ensures checked == AfterClick(old(checked))
      ensures value == old(value) && files == old(files)
      ensures focused == old(focused) && events == old(events)
    {
      if !clickPrevented && IsInput() {
        var t := TypeProp();
        if t == "checkbox" {
          checked := !checked;
        } else if t == "radio" {
          checked := true;
        }
      }
    }

    /** An `<input>` whose `type` property is "file" */
    predicate IsFileInput() { IsInput() && TypeProp() == "file" }

    /** The native `value` setter of a file input accepts only "" and throws
        `InvalidStateError` for any other string. */
    predicate SetterThrows(s: string) { IsFileInput() && s != "" }

    /** The native `value` setter: the value becomes `s`, and on a file input
        "" also empties the file list; a throw changes nothing */
    method SetValue(s: string) returns (thrown: bool)
      modifies this
      ensures thrown <==> SetterThrows(s)
      ensures value == (if thrown then old(value) else s)
      ensures files == (if IsFileInput() && !thrown then [] else old(files))
      ensures checked == old(checked)
      ensures focused == old(focused) && events == old(events)
    {
      if SetterThrows(s) {
        return true;
      }
      thrown := false;
      value := s;
      if IsFileInput() {
        files := [];
      }
    }

    /** `focus()` */
    method Focus()
      modifies this
      ensures focused
      ensures value == old(value) && checked == old(checked)
      ensures files == old(files) && events == old(events)
    {
      focused := true;
    }

    /** Dispatch `focus`, `input`, `change` and `blur`, in that order */
    method DispatchWriteEvents()
      modifies this
      ensures events == old(events) + WriteEvents
      ensures value == old(value) && checked == old(checked)
      ensures files == old(files) && focused == old(focused)
    {
      events := events + [FocusEvent];
      events := events + [InputEvent];
      events := events + [ChangeEvent];
      events := events + [BlurEvent];
    }
  }
}
