/** Writing a value into one matched field: a dispatch on the kind of
    control, followed by the synthetic events frameworks listen for. */
module Filler {
  import opened Wrappers
  import opened Strings
  import opened Dom
  import opened FieldDiscovery

  /** The JavaScript values the controller hands to the filler */
  datatype Value = Undefined | Str(s: string) | Bool(b: bool) | Num(n: int)

  /** `!!value` */
  predicate Truthy(v: Value) {
    match v
    case Undefined => false
    case Str(s) => s != ""
    case Bool(b) => b
    case Num(n) => n != 0
  }

  /** `String(value)` */
  function ToJsString(v: Value): string {
    match v
    case Undefined => "undefined"
    case Str(s) => s
    case Bool(b) => if b then "true" else "false"
    case Num(n) => IntToString(n)
  }

  /** A value the controller lets through (neither `undefined` nor "") reads
      as a non-empty string, and a string reads as itself. */
  lemma DefinedValueNonEmpty(v: Value)
    requires v != Undefined && v != Str("")
    ensures ToJsString(v) != ""
    ensures v.Str? ==> ToJsString(v) == v.s
  {
  }

  /** The branch `fillField` takes, from the candidate's recorded tag and type */
  datatype FillKind = Toggle | FileUpload | TextLike | Choice | Unsupported

  function KindOf(c: Candidate): FillKind {
    if c.tagName == "input" || c.tagName == "textarea" then
      if c.inputType == Some("checkbox") || c.inputType == Some("radio") then Toggle
      else if c.inputType == Some("file") then FileUpload
      else TextLike
    else if c.tagName == "select" then Choice
    else Unsupported
  }

  /** Position of the first option satisfying `p` (`Array.prototype.find`) */
  function FindOption(options: seq<SelectOption>, p: SelectOption -> bool): (r: Option<nat>)
    ensures r.Some? ==> r.value < |options| && p(options[r.value])
    ensures r.Some? ==> forall j :: 0 <= j < r.value ==> !p(options[j])
    ensures r.None? ==> forall j :: 0 <= j < |options| ==> !p(options[j])
  {
    if options == [] then None
    else if p(options[0]) then Some(0)
    else
      var r := FindOption(options[1..], p);
      if r.Some? then Some(r.value + 1) else None
  }

  /** The option a select takes for the string `s`: the first whose value is
      `s`, else the first whose lower-cased text contains the lower-cased `s` */
  function ChooseOption(options: seq<SelectOption>, s: string): (r: Option<SelectOption>)
    ensures r.Some? ==> r.value in options
    ensures (exists i :: 0 <= i < |options| && options[i].value == s) ==> r.Some? && r.value.value == s
    ensures r.Some? && r.value.value != s ==>
              Contains(ToLower(r.value.text), ToLower(s)) &&
              forall i :: 0 <= i < |options| ==> options[i].value != s
    ensures r.None? <==>
              forall i :: 0 <= i < |options| ==>
                options[i].value != s && !Contains(ToLower(options[i].text), ToLower(s))
  {
    var exact := FindOption(options, (o: SelectOption) => o.value == s);
    if exact.Some? then Some(options[exact.value])
    else
      var fuzzy := FindOption(options, (o: SelectOption) => Contains(ToLower(o.text), ToLower(s)));
      if fuzzy.Some? then Some(options[fuzzy.value]) else None
  }

  /** The earliest exact match wins over any earlier fuzzy match. */
  lemma ExactMatchPreferred(options: seq<SelectOption>, s: string, i: nat)
    requires i < |options| && options[i].value == s
    requires forall j :: 0 <= j < i ==> options[j].value != s
    ensures ChooseOption(options, s) == Some(options[i])
  {
    var exact := FindOption(options, (o: SelectOption) => o.value == s);
    assert exact.Some?;
  }

  /** `fillField(candidate, value)`: focus, then by kind of control either
      click a checkbox or radio whose state differs from the value's
      truthiness, refuse a file input, write `String(value)` into a text-like
      control, or select a matching option; a successful write is followed by
      the `focus`, `input`, `change`, `blur` events. A value setter that
      throws (a file input given a non-empty string) is caught, and the call
      answers `false` with nothing written. */
  method FillField(c: Candidate, v: Value) returns (ok: bool)
    modifies c.element
    ensures c.element.focused
    ensures KindOf(c) !in {TextLike, Choice} ==> c.element.files == old(c.element.files)
    ensures KindOf(c) == Toggle ==>
              ok && c.element.value == old(c.element.value) && c.element.events == old(c.element.events) &&
              c.element.checked == if old(c.element.checked) == Truthy(v) then old(c.element.checked)
                                   else c.element.AfterClick(old(c.element.checked))
    ensures (KindOf(c) == Toggle && c.element.IsInput() && !c.element.clickPrevented &&
             c.element.TypeProp() == "checkbox") ==> c.element.checked == Truthy(v)
    ensures KindOf(c) == TextLike ==>
              && (ok <==> !c.element.SetterThrows(ToJsString(v)))
              && c.element.checked == old(c.element.checked)
              && (ok ==> c.element.value == ToJsString(v) && c.element.events == old(c.element.events) + WriteEvents)
              && (ok ==> c.element.files == if c.element.IsFileInput() then [] else old(c.element.files))
              && (!ok ==> c.element.value == old(c.element.value) && c.element.events == old(c.element.events)
                          && c.element.files == old(c.element.files))
    ensures KindOf(c) == Choice ==>
              var o := ChooseOption(c.element.options, ToJsString(v));
              && (ok <==> o.Some? && !c.element.SetterThrows(o.value.value))
              && c.element.checked == old(c.element.checked)
              && (ok ==> c.element.value == o.value.value && c.element.events == old(c.element.events) + WriteEvents)
              && (ok ==> c.element.files == if c.element.IsFileInput() then [] else old(c.element.files))
              && (!ok ==> c.element.value == old(c.element.value) && c.element.events == old(c.element.events)
                          && c.element.files == old(c.element.files))
    ensures KindOf(c) in {FileUpload, Unsupported} ==>
              !ok && c.element.value == old(c.element.value) && c.element.checked == old(c.element.checked) &&
              c.element.events == old(c.element.events)
  {
    var element := c.element;
    element.Focus();
    if c.tagName == "input" || c.tagName == "textarea" {
      if c.inputType == Some("checkbox") || c.inputType == Some("radio") {
        if element.checked != Truthy(v) {
          element.Click();
        }
        return true;
      } else if c.inputType == Some("file") {
        return false;
      } else {
        var thrown := element.SetValue(ToJsString(v));
        if thrown {
          return false;
        }
        element.DispatchWriteEvents();
        return true;
      }
    } else if c.tagName == "select" {
      var optionToSelect := ChooseOption(element.options, ToJsString(v));
      if optionToSelect.Some? {
        var thrown := element.SetValue(optionToSelect.value.value);
        if thrown {
          return false;
        }
        element.DispatchWriteEvents();
        return true;
      }
    }
    return false;
  }
}
