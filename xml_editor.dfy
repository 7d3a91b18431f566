/**
 * XMLEditor: the regex-based XML highlighter and the XSLT pretty printer of the message editor.
 * The matches of the tag and attribute patterns are an input: each carries the offsets of the
 * groups the highlighter reads.
 */
module XmlEditor {
  import opened Wrappers
  import opened Text
  import opened StyleSpans

  // ----- isValid: ^\s*< -----

  /** isValid: the text looks like XML when its first non-space character is '<'. */
  function IsValid(text: string): (b: bool)
  {
    var k := SkipRegexSpace(text, 0);
    k < |text| && text[k] == '<'
  }

  /** IsValid holds exactly when the pattern `^\s*<` finds a match. */
  lemma IsValidSpec(text: string)
    ensures IsValid(text) <==> OpensWith(text, '<')
  {
    OpensWithAt(text, '<');
  }

  // ----- the matches -----

  /**
   * One match of the attribute pattern inside an element's attribute section, by offsets
   * relative to that section: the name (with trailing blanks) ends at `nameEnd`, the '=' at
   * `equalEnd` and the quoted value at `end`.
   */
  datatype Attribute = Attribute(start: nat, nameEnd: nat, equalEnd: nat, end: nat)

  /**
   * One match of the tag pattern. An element's groups are the opening mark up to `openEnd`,
   * the name up to `nameEnd`, the attribute section up to `attributesEnd` and the closing mark
   * up to `end`; a comment is a single run.
   */
  datatype XmlMatch =
    | Element(start: nat, openEnd: nat, nameEnd: nat, attributesEnd: nat, end: nat, attributes: seq<Attribute>)
    | Comment(start: nat, end: nat)

  /** Where the last attribute ends; 0 before the first. */
  function AttributesEnd(attributes: seq<Attribute>): nat {
    if attributes == [] then 0 else attributes[|attributes| - 1].end
  }

  /** The attribute matcher finds matches left to right, inside the section, without overlap. */
  predicate AttributesOrdered(attributes: seq<Attribute>, length: nat) {
    attributes == [] ||
    var init := attributes[..|attributes| - 1];
    var a := attributes[|attributes| - 1];
    AttributesOrdered(init, length) && AttributesEnd(init) <= a.start <= a.nameEnd <= a.equalEnd <= a.end <= length
  }

  lemma {:induction false} AttributesOrderedPrefix(attributes: seq<Attribute>, length: nat, i: nat)
    requires AttributesOrdered(attributes, length) && i <= |attributes|
    ensures AttributesOrdered(attributes[..i], length)
  {
    if i < |attributes| {
      var init := attributes[..|attributes| - 1];
      AttributesOrderedPrefix(init, length, i);
      assert init[..i] == attributes[..i];
    } else {
      assert attributes[..i] == attributes;
    }
  }

  /** A match's groups follow one another. */
  predicate WellFormed(m: XmlMatch) {
    match m
    case Comment(start, end) => start <= end
    case Element(start, openEnd, nameEnd, attributesEnd, end, attributes) =>
      && start <= openEnd <= nameEnd <= attributesEnd <= end
      && AttributesOrdered(attributes, attributesEnd - nameEnd)
  }

  /** Where the last match ends; 0 before the first. */
  function MatchesEnd(matches: seq<XmlMatch>): nat {
    if matches == [] then 0 else matches[|matches| - 1].end
  }

  /** The tag matcher finds well-formed matches left to right, inside the text, without overlap. */
  predicate Ordered(text: string, matches: seq<XmlMatch>) {
    matches == [] ||
    var init := matches[..|matches| - 1];
    var m := matches[|matches| - 1];
    Ordered(text, init) && WellFormed(m) && MatchesEnd(init) <= m.start && m.end <= |text|
  }

  lemma {:induction false} OrderedPrefix(text: string, matches: seq<XmlMatch>, i: nat)
    requires Ordered(text, matches) && i <= |matches|
    ensures Ordered(text, matches[..i])
  {
    if i < |matches| {
      var init := matches[..|matches| - 1];
      OrderedPrefix(text, init, i);
      assert init[..i] == matches[..i];
    } else {
      assert matches[..i] == matches;
    }
  }

  // ----- the additions highlight makes -----

  /** Per attribute: the plain gap before it, then its name, its '=' and its value. */
  function AttributeAdds(attributes: seq<Attribute>, length: nat): seq<Span>
    requires AttributesOrdered(attributes, length)
  {
    if attributes == [] then []
    else
      var init := attributes[..|attributes| - 1];
      var a := attributes[|attributes| - 1];
      AttributeAdds(init, length) + AttributeSpans(a, AttributesEnd(init))
  }

  /** The attribute section: nothing when it is empty; else its attributes and a plain tail
    * when text follows the last one. */
  function SectionAdds(attributes: seq<Attribute>, length: nat): seq<Span>
    requires AttributesOrdered(attributes, length)
  {
    if length == 0 then []
    else
      AttributeAdds(attributes, length)
      + (if length > AttributesEnd(attributes) then [Span([], length - AttributesEnd(attributes))] else [])
  }

  /** The additions for one match: a comment run, or an element's marks, name and attributes. */
  function MatchAdds(m: XmlMatch): seq<Span>
    requires WellFormed(m)
  {
    match m
    case Comment(start, end) => [Span(["comment"], end - start)]
    case Element(start, openEnd, nameEnd, attributesEnd, end, attributes) =>
      [Span(["xml-tagmark"], openEnd - start), Span(["xml-anytag"], nameEnd - openEnd)]
      + SectionAdds(attributes, attributesEnd - nameEnd)
      + [Span(["xml-tagmark"], end - attributesEnd)]
  }

  /** Per match: the plain gap before it and then its additions. */
  function MatchListAdds(text: string, matches: seq<XmlMatch>): seq<Span>
    requires Ordered(text, matches)
  {
    if matches == [] then []
    else
      var init := matches[..|matches| - 1];
      var m := matches[|matches| - 1];
      MatchListAdds(text, init) + GapAndMatchAdds(m, MatchesEnd(init))
  }

  /** The plain gap from `from` up to a match, then the match's additions. */
  function GapAndMatchAdds(m: XmlMatch, from: nat): seq<Span>
    requires WellFormed(m) && from <= m.start
  {
    [Span([], m.start - from)] + MatchAdds(m)
  }

  /** The additions of highlight: the matches and a plain tail to the end of the text. */
  function XmlAdds(text: string, matches: seq<XmlMatch>): seq<Span>
    requires Ordered(text, matches)
  {
    MatchListAdds(text, matches) + [Span([], |text| - MatchesEnd(matches))]
  }

  // ----- coverage -----

  lemma {:induction false} AttributeAddsTotal(attributes: seq<Attribute>, length: nat)
    requires AttributesOrdered(attributes, length)
    ensures Total(AttributeAdds(attributes, length)) == AttributesEnd(attributes)
  {
    if attributes != [] {
      var init := attributes[..|attributes| - 1];
      var a := attributes[|attributes| - 1];
      AttributeAddsTotal(init, length);
      var p := [Span([], a.start - AttributesEnd(init)), Span(["xml-attribute"], a.nameEnd - a.start)];
      var q := [Span(["xml-tagmark"], a.equalEnd - a.nameEnd), Span(["xml-avalue"], a.end - a.equalEnd)];
      TotalPair(p[0], p[1]);
      TotalPair(q[0], q[1]);
      TotalAppend(p, q);
      assert AttributeSpans(a, AttributesEnd(init)) == p + q;
      TotalAppend(AttributeAdds(init, length), p + q);
    }
  }

  /** The attribute section's spans cover it exactly. */
  lemma SectionAddsTotal(attributes: seq<Attribute>, length: nat)
    requires AttributesOrdered(attributes, length)
    ensures Total(SectionAdds(attributes, length)) == length
  {
    if length != 0 {
      AttributeAddsTotal(attributes, length);
      assert attributes != [] ==> attributes[|attributes| - 1].end <= length;
      var tail := if length > AttributesEnd(attributes) then [Span([], length - AttributesEnd(attributes))] else [];
      TotalAppend(AttributeAdds(attributes, length), tail);
      assert [Span([], length - AttributesEnd(attributes))][..0] == [];
    }
  }

  /** A match's spans cover it exactly. */
  lemma MatchAddsTotal(m: XmlMatch)
    requires WellFormed(m)
    ensures Total(MatchAdds(m)) == m.end - m.start
  {
    if m.Comment? {
      assert [Span(["comment"], m.end - m.start)][..0] == [];
    } else {
      var head := [Span(["xml-tagmark"], m.openEnd - m.start), Span(["xml-anytag"], m.nameEnd - m.openEnd)];
      var section := SectionAdds(m.attributes, m.attributesEnd - m.nameEnd);
      var close := [Span(["xml-tagmark"], m.end - m.attributesEnd)];
      assert MatchAdds(m) == head + section + close;
      TotalPair(head[0], head[1]);
      SectionAddsTotal(m.attributes, m.attributesEnd - m.nameEnd);
      TotalAppend(head, section);
      TotalAppend(head + section, close);
      assert close[..0] == [];
      assert Total(close) == m.end - m.attributesEnd;
      assert Total(head + section) == m.attributesEnd - m.start;
    }
  }

  /** A match's gap and spans reach from `from` to the end of the match. */
  lemma GapAndMatchAddsTotal(m: XmlMatch, from: nat)
    requires WellFormed(m) && from <= m.start
    ensures Total(GapAndMatchAdds(m, from)) == m.end - from
  {
    var gap := [Span([], m.start - from)];
    assert gap[..0] == [];
    assert Total(gap) == m.start - from;
    MatchAddsTotal(m);
    TotalAppend(gap, MatchAdds(m));
  }

  lemma {:induction false} MatchListAddsTotal(text: string, matches: seq<XmlMatch>)
    requires Ordered(text, matches)
    ensures Total(MatchListAdds(text, matches)) == MatchesEnd(matches)
  {
    if matches != [] {
      var init := matches[..|matches| - 1];
      var m := matches[|matches| - 1];
      MatchListAddsTotal(text, init);
      GapAndMatchAddsTotal(m, MatchesEnd(init));
      TotalAppend(MatchListAdds(text, init), GapAndMatchAdds(m, MatchesEnd(init)));
    }
  }

  /** The spans of highlight cover the text exactly. */
  lemma XmlSpansCover(text: string, matches: seq<XmlMatch>)
    requires Ordered(text, matches)
    ensures Total(Build(XmlAdds(text, matches))) == |text|
  {
    MatchListAddsTotal(text, matches);
    BuildTotal(XmlAdds(text, matches));
    TotalAppend(MatchListAdds(text, matches), [Span([], |text| - MatchesEnd(matches))]);
    assert [Span([], |text| - MatchesEnd(matches))][..0] == [];
  }

  // ----- highlight -----

  /** One more attribute: its additions follow those of the attributes before it. */
  lemma AttributeAddsStep(attributes: seq<Attribute>, length: nat, i: nat)
    requires AttributesOrdered(attributes, length) && i < |attributes|
    ensures AttributesOrdered(attributes[..i], length) && AttributesOrdered(attributes[..i + 1], length)
    ensures AttributesEnd(attributes[..i]) <= attributes[i].start
    ensures AttributesEnd(attributes[..i + 1]) == attributes[i].end
    ensures AttributeAdds(attributes[..i + 1], length)
         == AttributeAdds(attributes[..i], length) + AttributeSpans(attributes[i], AttributesEnd(attributes[..i]))
  {
    AttributesOrderedPrefix(attributes, length, i + 1);
    assert attributes[..i + 1][..i] == attributes[..i];
  }

  /** The additions for one attribute: the plain gap from `from`, its name, its '=' and its value. */
  function AttributeSpans(a: Attribute, from: nat): seq<Span>
    requires from <= a.start <= a.nameEnd <= a.equalEnd <= a.end
  {
    [Span([], a.start - from), Span(["xml-attribute"], a.nameEnd - a.start),
     Span(["xml-tagmark"], a.equalEnd - a.nameEnd), Span(["xml-avalue"], a.end - a.equalEnd)]
  }

  /** One step of the attribute loop. */
  method AddAttributeSpan(builder: StyleSpansBuilder, a: Attribute, lastKwEnd: nat)
    requires lastKwEnd <= a.start <= a.nameEnd <= a.equalEnd <= a.end
    requires !builder.created
    modifies builder
    ensures !builder.created
    ensures builder.adds == old(builder.adds) + AttributeSpans(a, lastKwEnd)
  {
    ghost var spans := AttributeSpans(a, lastKwEnd);
    builder.Add([], a.start - lastKwEnd);
    assert builder.adds == old(builder.adds) + spans[..1];
    builder.Add(["xml-attribute"], a.nameEnd - a.start);
    assert builder.adds == old(builder.adds) + spans[..2];
    builder.Add(["xml-tagmark"], a.equalEnd - a.nameEnd);
    assert builder.adds == old(builder.adds) + spans[..3];
    builder.Add(["xml-avalue"], a.end - a.equalEnd);
    assert spans[..4] == spans;
  }

  /** The attribute loop: every attribute's gap, name, '=' and value, in order. */
  method AddAttributeSpans(builder: StyleSpansBuilder, attributes: seq<Attribute>, length: nat)
    returns (lastKwEnd: nat)
    requires AttributesOrdered(attributes, length)
    requires !builder.created
    modifies builder
    ensures !builder.created
    ensures builder.adds == old(builder.adds) + AttributeAdds(attributes, length)
    ensures lastKwEnd == AttributesEnd(attributes)
  {
    lastKwEnd := 0;
    var i := 0;
    while i < |attributes|
      invariant 0 <= i <= |attributes|
      invariant !builder.created
      invariant lastKwEnd == AttributesEnd(attributes[..i])
      invariant AttributesOrdered(attributes[..i], length)
      invariant builder.adds == old(builder.adds) + AttributeAdds(attributes[..i], length)
    {
      AttributeAddsStep(attributes, length, i);
      ghost var before := builder.adds;
      AddAttributeSpan(builder, attributes[i], lastKwEnd);
      ghost var quad := AttributeSpans(attributes[i], lastKwEnd);
      assert builder.adds == old(builder.adds) + (AttributeAdds(attributes[..i], length) + quad);
      lastKwEnd := attributes[i].end;
      i := i + 1;
    }
    assert attributes[..i] == attributes;
  }

  /** The attribute section of an element: skipped when empty; else the attribute loop and a
    * plain span for whatever follows the last attribute. */
  method AddSectionSpans(builder: StyleSpansBuilder, attributes: seq<Attribute>, length: nat)
    requires AttributesOrdered(attributes, length)
    requires !builder.created
    modifies builder
    ensures !builder.created
    ensures builder.adds == old(builder.adds) + SectionAdds(attributes, length)
  {
    if length != 0 {
      var lastKwEnd := AddAttributeSpans(builder, attributes, length);
      if length > lastKwEnd {
        builder.Add([], length - lastKwEnd);
      }
    }
  }

  /** The spans of an element: its opening mark, its name, its attribute section and its
    * closing mark. */
  method AddElementSpans(builder: StyleSpansBuilder, m: XmlMatch)
    requires m.Element? && WellFormed(m)
    requires !builder.created
    modifies builder
    ensures !builder.created
    ensures builder.adds == old(builder.adds) + MatchAdds(m)
  {
    var head := [Span(["xml-tagmark"], m.openEnd - m.start), Span(["xml-anytag"], m.nameEnd - m.openEnd)];
    var section := SectionAdds(m.attributes, m.attributesEnd - m.nameEnd);
    var close := [Span(["xml-tagmark"], m.end - m.attributesEnd)];
    assert MatchAdds(m) == head + section + close;
    builder.Add(["xml-tagmark"], m.openEnd - m.start);
    builder.Add(["xml-anytag"], m.nameEnd - m.openEnd);
    assert builder.adds == old(builder.adds) + head;
    AddSectionSpans(builder, m.attributes, m.attributesEnd - m.nameEnd);
    builder.Add(["xml-tagmark"], m.end - m.attributesEnd);
    AppendAssoc(old(builder.adds), head, section);
    AppendAssoc(old(builder.adds), head + section, close);
  }

  /** The spans of one match: a comment is one run; an element as above. */
  method AddMatchSpans(builder: StyleSpansBuilder, m: XmlMatch)
    requires WellFormed(m)
    requires !builder.created
    modifies builder
    ensures !builder.created
    ensures builder.adds == old(builder.adds) + MatchAdds(m)
  {
    if m.Comment? {
      builder.Add(["comment"], m.end - m.start);
    } else {
      AddElementSpans(builder, m);
    }
  }

  /** One step of the match loop: the plain gap up to the match, then the match's spans. */
  method AddGapAndMatchSpans(builder: StyleSpansBuilder, m: XmlMatch, lastKwEnd: nat)
    requires WellFormed(m) && lastKwEnd <= m.start
    requires !builder.created
    modifies builder
    ensures !builder.created
    ensures builder.adds == old(builder.adds) + GapAndMatchAdds(m, lastKwEnd)
  {
    builder.Add([], m.start - lastKwEnd);
    AddMatchSpans(builder, m);
    AppendAssoc(old(builder.adds), [Span([], m.start - lastKwEnd)], MatchAdds(m));
  }

  /** One more match: its gap and additions follow those of the matches before it. */
  lemma MatchListAddsStep(text: string, matches: seq<XmlMatch>, i: nat)
    requires Ordered(text, matches) && i < |matches|
    ensures Ordered(text, matches[..i]) && Ordered(text, matches[..i + 1]) && WellFormed(matches[i])
    ensures MatchesEnd(matches[..i]) <= matches[i].start
    ensures MatchesEnd(matches[..i + 1]) == matches[i].end
    ensures MatchListAdds(text, matches[..i + 1])
         == MatchListAdds(text, matches[..i]) + GapAndMatchAdds(matches[i], MatchesEnd(matches[..i]))
  {
    OrderedPrefix(text, matches, i + 1);
    assert matches[..i + 1][..i] == matches[..i];
  }

  /** The match loop of highlight: each match's gap and spans, in order. */
  method AddMatchListSpans(builder: StyleSpansBuilder, text: string, matches: seq<XmlMatch>)
    returns (lastKwEnd: nat)
    requires Ordered(text, matches)
    requires !builder.created && builder.adds == []
    modifies builder
    ensures !builder.created
    ensures builder.adds == MatchListAdds(text, matches) && lastKwEnd == MatchesEnd(matches)
  {
    lastKwEnd := 0;
    var i := 0;
    while i < |matches|
      invariant 0 <= i <= |matches|
      invariant !builder.created
      invariant lastKwEnd == MatchesEnd(matches[..i])
      invariant Ordered(text, matches[..i])
      invariant builder.adds == MatchListAdds(text, matches[..i])
    {
      MatchListAddsStep(text, matches, i);
      AddGapAndMatchSpans(builder, matches[i], lastKwEnd);
      lastKwEnd := matches[i].end;
      i := i + 1;
    }
    assert matches[..i] == matches;
  }

  /**
   * highlight: for each match, a plain span up to it and then its spans (inside an element's
   * attribute section the gaps count from the start of the section); then a plain span to the
   * end of the text.
   */
  method Highlight(text: string, matches: seq<XmlMatch>) returns (r: Result<seq<Span>, string>)
    requires Ordered(text, matches)
    ensures r == Success(Build(XmlAdds(text, matches)))
    ensures r.Success? && Total(r.value) == |text|
  {
    var builder := new StyleSpansBuilder();
    var lastKwEnd := AddMatchListSpans(builder, text, matches);
    builder.Add([], |text| - lastKwEnd);
    assert builder.adds == XmlAdds(text, matches);
    r := builder.Create();
    XmlSpansCover(text, matches);
  }

  // ----- format -----

  /**
   * format: a null or blank input is returned as it is; otherwise the XSLT identity transform's
   * output (`transformed`, None when the transform throws) trimmed, or the input on failure.
   */
  function Format(xml: Option<string>, transformed: Option<string>): (r: Option<string>)
    ensures xml.None? || IsBlank(xml.value) || transformed.None? ==> r == xml
    ensures xml.Some? && !IsBlank(xml.value) && transformed.Some? ==> r == Some(Trim(transformed.value))
  {
    if xml.None? || IsBlank(xml.value) then xml
    else if transformed.None? then xml
    else Some(Trim(transformed.value))
  }
}
