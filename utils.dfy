/**
 * Utils: body-type detection, reading a count from the selected tree node, the light/dark
 * stylesheet toggle, and the guard of the date-time parser.
 */
module Utils {
  import opened Wrappers
  import opened Text
  import opened Messages
  import opened NodeTypes
  import opened DataTreeItems
  import opened Lists
  import JsonEditor
  import XmlEditor

  // ----- detectType -----

  /** The two looks are exclusive: both read the first character after leading `\s`. */
  lemma JsonAndXmlExclusive(text: string)
    ensures !(JsonEditor.IsValid(text) && XmlEditor.IsValid(text))
  {
  }

  /** detectType: "Raw" for a null body; "JSON" for JSON-looking text; else "XML" for
    * XML-looking text; else "Raw". */
  function DetectType(body: Option<string>): (r: string)
    ensures r == "Raw" || r == "JSON" || r == "XML"
    ensures r == "JSON" <==> body.Some? && JsonEditor.IsValid(body.value)
    ensures r == "XML" <==> body.Some? && XmlEditor.IsValid(body.value)
  {
    if body.None? then "Raw"
    else if JsonEditor.IsValid(body.value) then "JSON"
    else if XmlEditor.IsValid(body.value) then "XML"
    else "Raw"
  }

  /** Stated over the patterns: a body that opens with '<' after blanks is XML. */
  lemma DetectTypeXml(body: string)
    ensures DetectType(Some(body)) == "XML" <==> OpensWith(body, '<')
  {
    XmlEditor.IsValidSpec(body);
    JsonAndXmlExclusive(body);
  }

  // ----- getEntityProperty -----

  /**
   * getEntityProperty: the named entry of the selected node's data read as a long; 0 when
   * nothing is selected, for a NONE node, for missing data, a null entry or an unparsable text.
   * A missing key reads as "0".
   */
  function GetEntityProperty(name: string, selected: Option<DataTreeItem>): (r: int)
    reads if selected.Some? then {selected.value} else {}
    ensures LONG_MIN <= r <= LONG_MAX
    ensures selected.None? || selected.value.kind == NONE || selected.value.data.None? ==> r == 0
    ensures selected.Some? && selected.value.data.Some? && name !in selected.value.data.value ==> r == 0
    ensures selected.Some? && selected.value.kind != NONE && selected.value.data.Some? ==>
              var v := GetOrDefault(selected.value.data.value, name, Str("0"));
              (v.Null? ==> r == 0)
              && (!v.Null? && ParseLong(Show(v)).None? ==> r == 0)
              && (!v.Null? && ParseLong(Show(v)).Some? ==> r == ParseLong(Show(v)).value)
  {
    if selected.None? || selected.value.kind == NONE || selected.value.data.None? then 0
    else
      var v := GetOrDefault(selected.value.data.value, name, Str("0"));
      if v.Null? then 0
      else
        match ParseLong(Show(v))
        case None => 0
        case Some(n) => n
  }

  /** A long stored under the name is read back as it is. */
  lemma GetEntityPropertyOfLong(name: string, item: DataTreeItem, n: int)
    requires item.kind != NONE && item.data.Some?
    requires name in item.data.value && item.data.value[name] == Long(n)
    requires LONG_MIN <= n <= LONG_MAX
    ensures GetEntityProperty(name, Some(item)) == n
  {
    ParseShowInt(n);
  }

  // ----- applyStyle -----

  /** The two theme stylesheets. */
  const LIGHT_CSS: string := "light-theme.css"
  const DARK_CSS: string := "dark-theme.css"

  /** The style names the dark theme: "DARK" occurs in it, ignoring case. */
  predicate IsDark(style: string) {
    Contains(ToUpperAscii(style), "DARK")
  }

  /** The dark theme is chosen exactly when "dark" occurs in the style in any mix of ASCII cases. */
  lemma IsDarkSpec(style: string)
    ensures IsDark(style) <==> exists i :: OccursIgnoringCaseAt(style, "dark", i)
  {
    assert ToUpperAscii("DARK") == "DARK";
    ContainsUpper(style, "DARK");
    forall i ensures OccursIgnoringCaseAt(style, "DARK", i) <==> OccursIgnoringCaseAt(style, "dark", i) {
      if 0 <= i && i + 4 <= |style| {
        var w := style[i..i + 4];
        assert SameIgnoringCase(w, "DARK") <==> SameIgnoringCase(w, "dark") by {
          assert forall k :: 0 <= k < 4 ==> UpperAscii("DARK"[k]) == UpperAscii("dark"[k]);
        }
      }
    }
  }

  /** Switching to sheet `on` from sheet `off`: `off` loses one occurrence, and `on` is
    * appended unless already present. */
  function Toggle(sheets: seq<string>, on: string, off: string): seq<string> {
    var rest := RemoveFirst(sheets, off);
    if on in rest then rest else rest + [on]
  }

  /** The stylesheets after applyStyle. */
  function Styled(sheets: seq<string>, style: string): seq<string> {
    if IsDark(style) then Toggle(sheets, DARK_CSS, LIGHT_CSS) else Toggle(sheets, LIGHT_CSS, DARK_CSS)
  }

  lemma ToggleSheets(sheets: seq<string>, on: string, off: string)
    requires on != off
    ensures var r := Toggle(sheets, on, off);
            && on in r
            && (multiset(sheets)[on] <= 1 ==> multiset(r)[on] == 1)
            && multiset(r)[off] == (if multiset(sheets)[off] == 0 then 0 else multiset(sheets)[off] - 1)
            && forall x :: x != on && x != off ==> multiset(r)[x] == multiset(sheets)[x]
  {
    var rest := RemoveFirst(sheets, off);
    if on !in rest {
      assert multiset(rest + [on]) == multiset(rest) + multiset{on};
    }
  }

  /**
   * The chosen sheet is present, exactly once when it was at most once before; the other sheet
   * loses one occurrence; no other sheet changes.
   */
  lemma StyledSheets(sheets: seq<string>, style: string)
    ensures var on := if IsDark(style) then DARK_CSS else LIGHT_CSS;
            var off := if IsDark(style) then LIGHT_CSS else DARK_CSS;
            var r := Styled(sheets, style);
            && on in r
            && (multiset(sheets)[on] <= 1 ==> multiset(r)[on] == 1)
            && multiset(r)[off] == (if multiset(sheets)[off] == 0 then 0 else multiset(sheets)[off] - 1)
            && forall x :: x != on && x != off ==> multiset(r)[x] == multiset(sheets)[x]
  {
    if IsDark(style) {
      ToggleSheets(sheets, DARK_CSS, LIGHT_CSS);
    } else {
      ToggleSheets(sheets, LIGHT_CSS, DARK_CSS);
    }
  }

  /** Applying the same style twice is applying it once, when the other sheet was present at
    * most once. */
  lemma StyledIdempotent(sheets: seq<string>, style: string)
    requires multiset(sheets)[if IsDark(style) then LIGHT_CSS else DARK_CSS] <= 1
    ensures Styled(Styled(sheets, style), style) == Styled(sheets, style)
  {
    var on := if IsDark(style) then DARK_CSS else LIGHT_CSS;
    var off := if IsDark(style) then LIGHT_CSS else DARK_CSS;
    var once := Styled(sheets, style);
    StyledSheets(sheets, style);
    assert off !in once by {
      assert multiset(once)[off] == 0;
    }
    assert RemoveFirst(once, off) == once;
  }

  /** A node whose stylesheet list applyStyle edits in place. */
  class StyledParent {
    var stylesheets: seq<string>

    constructor (stylesheets: seq<string>)
      ensures this.stylesheets == stylesheets
    {
      this.stylesheets := stylesheets;
    }

    /** applyStyle: removes the other theme's sheet, then adds the chosen one if missing. */
    method ApplyStyle(style: string)
      modifies this
      ensures stylesheets == Styled(old(stylesheets), style)
    {
      if Contains(ToUpperAscii(style), "DARK") {
        stylesheets := RemoveFirst(stylesheets, LIGHT_CSS);
        if DARK_CSS !in stylesheets {
          stylesheets := stylesheets + [DARK_CSS];
        }
      } else {
        stylesheets := RemoveFirst(stylesheets, DARK_CSS);
        if LIGHT_CSS !in stylesheets {
          stylesheets := stylesheets + [LIGHT_CSS];
        }
      }
    }
  }

  // ----- parseOffsetDateTime -----

  /** parseOffsetDateTime: null for null or blank text; otherwise what the ISO offset date-time
    * parser yields (`parsed`, None when it throws). */
  function ParseOffsetDateTime(value: Option<string>, parsed: Option<Timestamp>): (r: Option<Timestamp>)
    ensures value.None? || IsBlank(value.value) ==> r.None?
    ensures value.Some? && !IsBlank(value.value) ==> r == parsed
    ensures r.Some? ==> IsNotBlank(value)
  {
    if value.None? || IsBlank(value.value) then None else parsed
  }
}
