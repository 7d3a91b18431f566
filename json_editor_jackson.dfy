/**
 * JsonEditorJackson: the streaming-parser JSON highlighter. The parser is an input: the tokens it
 * reports (kind, character offset, text length and where the token's source text ends), or None
 * when it fails on malformed input.
 */
module JsonEditorJackson {
  import opened Wrappers
  import opened StyleSpans

  /** The token kinds of the streaming parser. */
  datatype JsonToken =
    | NOT_AVAILABLE | START_OBJECT | END_OBJECT | START_ARRAY | END_ARRAY | FIELD_NAME
    | VALUE_EMBEDDED_OBJECT | VALUE_STRING | VALUE_NUMBER_INT | VALUE_NUMBER_FLOAT
    | VALUE_TRUE | VALUE_FALSE | VALUE_NULL

  /** styleClassName: the style class of a token kind; "" for null and for kinds without one. */
  function StyleClassName(token: Option<JsonToken>): (c: string)
    ensures c == "" <==> token.None? || token.value == NOT_AVAILABLE
  {
    if token.None? then ""
    else match token.value
      case FIELD_NAME => "json-property"
      case VALUE_STRING => "json-string"
      case START_OBJECT => "json-start-object"
      case END_OBJECT => "json-end-object"
      case VALUE_NUMBER_FLOAT => "json-float"
      case VALUE_NUMBER_INT => "json-int"
      case VALUE_TRUE => "json-true"
      case VALUE_FALSE => "json-false"
      case START_ARRAY => "json-start-array"
      case END_ARRAY => "json-end-array"
      case VALUE_EMBEDDED_OBJECT => "json-embedded"
      case VALUE_NULL => "json-null"
      case NOT_AVAILABLE => ""
  }

  /** Different token kinds that have a style class get different classes. */
  lemma StyleClassNameInjective(a: JsonToken, b: JsonToken)
    requires StyleClassName(Some(a)) != ""
    requires StyleClassName(Some(a)) == StyleClassName(Some(b))
    ensures a == b
  {
  }

  // ----- the matches -----

  /** A token as the parser reports it: its kind, the offset of its first character, the length
    * of its (decoded) text, and the offset just past its source text. */
  datatype ParsedToken = ParsedToken(token: JsonToken, offset: nat, textLength: nat, rawEnd: nat)

  /** A styled run found by the parser. */
  datatype Match = Match(kind: string, start: nat, end: nat)

  /** Match.compareTo: matches are ordered by start alone. */
  function CompareTo(a: Match, b: Match): (c: int)
    ensures c < 0 <==> a.start < b.start
    ensures c == 0 <==> a.start == b.start
    ensures c > 0 <==> a.start > b.start
  {
    if a.start < b.start then -1 else if a.start == b.start then 0 else 1
  }

  /** The order is a total preorder: antisymmetric in sign and transitive. */
  lemma CompareToOrder(a: Match, b: Match, c: Match)
    ensures CompareTo(a, b) == -CompareTo(b, a)
    ensures CompareTo(a, b) <= 0 && CompareTo(b, c) <= 0 ==> CompareTo(a, c) <= 0
  {
  }

  /** Matches that differ only in kind or end compare as equal, so the order is not consistent
    * with equality. */
  lemma CompareToIgnoresKindAndEnd(a: Match)
    ensures CompareTo(a, Match(a.kind + "x", a.start, a.end + 1)) == 0
    ensures a != Match(a.kind + "x", a.start, a.end + 1)
  {
    assert |a.kind + "x"| != |a.kind|;
  }

  /** Strings and property names are counted with their two quotes. */
  predicate Quoted(token: JsonToken) {
    token == VALUE_STRING || token == FIELD_NAME
  }

  /** The match the loop of highlight records for a token as written: none for a kind without a
    * style class; else from the token's offset over its text length, plus two for the quotes of
    * strings and property names. */
  function MatchOf(t: ParsedToken): (m: Option<Match>)
    ensures m.None? <==> t.token == NOT_AVAILABLE
    ensures m.Some? ==> m.value.kind == StyleClassName(Some(t.token)) && m.value.start == t.offset
    ensures m.Some? ==> m.value.end - m.value.start == t.textLength + (if Quoted(t.token) then 2 else 0)
  {
    var style := StyleClassName(Some(t.token));
    if style == "" then None
    else
      var end := t.offset + t.textLength;
      Some(Match(style, t.offset, if Quoted(t.token) then end + 2 else end))
  }

  /** The matches for a token stream, in order. */
  function MatchesOf(tokens: seq<ParsedToken>): (r: seq<Match>)
    ensures |r| <= |tokens|
    ensures Forward(r)
  {
    if tokens == [] then []
    else
      var m := MatchOf(tokens[|tokens| - 1]);
      MatchesOf(tokens[..|tokens| - 1]) + (if m.Some? then [m.value] else [])
  }

  /** Every match carries a style class; exactly the tokens with a class yield one. */
  lemma {:induction false} MatchesOfSpec(tokens: seq<ParsedToken>)
    ensures forall m :: m in MatchesOf(tokens) ==> m.kind != ""
    ensures |MatchesOf(tokens)| == |tokens| - CountUnavailable(tokens)
  {
    if tokens != [] {
      MatchesOfSpec(tokens[..|tokens| - 1]);
    }
  }

  /** The number of tokens without a style class. */
  function CountUnavailable(tokens: seq<ParsedToken>): nat {
    if tokens == [] then 0
    else CountUnavailable(tokens[..|tokens| - 1]) + (if tokens[|tokens| - 1].token == NOT_AVAILABLE then 1 else 0)
  }

  /** The token loop of highlight: skips kinds without a style class and records a match for the rest. */
  method CollectMatches(tokens: seq<ParsedToken>) returns (matches: seq<Match>)
    ensures matches == MatchesOf(tokens)
  {
    matches := [];
    var i := 0;
    while i < |tokens|
      invariant 0 <= i <= |tokens|
      invariant matches == MatchesOf(tokens[..i])
    {
      assert tokens[..i + 1][..i] == tokens[..i];
      var t := tokens[i];
      i := i + 1;
      var style := StyleClassName(Some(t.token));
      if style == "" {
        continue;
      }
      var start := t.offset;
      var end := start + t.textLength;
      if t.token == VALUE_STRING || t.token == FIELD_NAME {
        end := end + 2;
      }
      matches := matches + [Match(style, start, end)];
    }
    assert tokens[..i] == tokens;
  }

  // ----- the spans -----

  /** Where the last match ends; 0 before the first. */
  function LastEnd(matches: seq<Match>): nat {
    if matches == [] then 0 else matches[|matches| - 1].end
  }

  /** Every match runs forward. */
  predicate Forward(matches: seq<Match>) {
    forall i :: 0 <= i < |matches| ==> matches[i].start <= matches[i].end
  }

  /** Per match: a plain span from the previous end when the match starts beyond it, then the
    * match's span. */
  function MatchAdds(matches: seq<Match>): seq<Span>
    requires Forward(matches)
  {
    if matches == [] then []
    else
      var init := matches[..|matches| - 1];
      var m := matches[|matches| - 1];
      MatchAdds(init) + MatchSpans(m, LastEnd(init))
  }

  /** The spans for one match after a previous end `last`. */
  function MatchSpans(m: Match, last: nat): seq<Span>
    requires m.start <= m.end
  {
    (if m.start > last then [Span([], m.start - last)] else []) + [Span([m.kind], m.end - m.start)]
  }

  /** The additions of highlight: the matches and a plain tail when the text runs past the last. */
  function JacksonAdds(json: string, matches: seq<Match>): seq<Span>
    requires Forward(matches)
  {
    MatchAdds(matches) + (if LastEnd(matches) < |json| then [Span([], |json| - LastEnd(matches))] else [])
  }

  /** Matches in order, each starting at or after the previous end. */
  predicate Ordered(matches: seq<Match>) {
    Forward(matches) && forall i :: 0 < i < |matches| ==> matches[i - 1].end <= matches[i].start
  }

  lemma MatchSpansTotal(m: Match, last: nat)
    requires m.start <= m.end && last <= m.start
    ensures Total(MatchSpans(m, last)) == m.end - last
  {
    var head := if m.start > last then [Span([], m.start - last)] else [];
    var span := [Span([m.kind], m.end - m.start)];
    assert [Span([], m.start - last)][..0] == [];
    assert span[..0] == [];
    TotalAppend(head, span);
  }

  lemma {:induction false} MatchAddsTotal(matches: seq<Match>)
    requires Ordered(matches)
    ensures Total(MatchAdds(matches)) == LastEnd(matches)
  {
    if matches != [] {
      var init := matches[..|matches| - 1];
      var m := matches[|matches| - 1];
      assert Ordered(init);
      MatchAddsTotal(init);
      assert |init| > 0 ==> init[|init| - 1] == matches[|matches| - 2];
      MatchSpansTotal(m, LastEnd(init));
      TotalAppend(MatchAdds(init), MatchSpans(m, LastEnd(init)));
    }
  }

  /** For matches in order, the spans cover the text, and reach further only when the last
    * match ends beyond it. */
  lemma JacksonSpansCover(json: string, matches: seq<Match>)
    requires Ordered(matches)
    ensures Total(Build(JacksonAdds(json, matches))) == if LastEnd(matches) < |json| then |json| else LastEnd(matches)
  {
    MatchAddsTotal(matches);
    BuildTotal(JacksonAdds(json, matches));
    var tail := if LastEnd(matches) < |json| then [Span([], |json| - LastEnd(matches))] else [];
    if LastEnd(matches) < |json| {
      assert tail[..0] == [];
    }
    TotalAppend(MatchAdds(matches), tail);
  }

  /** Nothing is added exactly when there are no matches and the text is empty. */
  lemma JacksonAddsEmpty(json: string, matches: seq<Match>)
    requires Forward(matches)
    ensures JacksonAdds(json, matches) == [] <==> matches == [] && json == []
  {
    if matches != [] {
      assert |MatchAdds(matches)| > 0;
    }
  }

  /** One step of the span loop. */
  method AddMatchSpan(builder: StyleSpansBuilder, m: Match, last: nat)
    requires m.start <= m.end
    requires !builder.created
    modifies builder
    ensures !builder.created
    ensures builder.adds == old(builder.adds) + MatchSpans(m, last)
  {
    if m.start > last {
      builder.Add([], m.start - last);
    }
    builder.Add([m.kind], m.end - m.start);
  }

  /** The span loop of highlight. */
  method AddMatchListSpans(builder: StyleSpansBuilder, matches: seq<Match>) returns (last: nat)
    requires Forward(matches)
    requires !builder.created && builder.adds == []
    modifies builder
    ensures !builder.created
    ensures builder.adds == MatchAdds(matches) && last == LastEnd(matches)
  {
    last := 0;
    var i := 0;
    while i < |matches|
      invariant 0 <= i <= |matches|
      invariant !builder.created
      invariant Forward(matches[..i])
      invariant last == LastEnd(matches[..i])
      invariant builder.adds == MatchAdds(matches[..i])
    {
      assert matches[..i + 1][..i] == matches[..i];
      var m := matches[i];
      AddMatchSpan(builder, m, last);
      last := m.end;
      i := i + 1;
    }
    assert matches[..i] == matches;
  }

  /**
   * highlight: a parser failure is rethrown; otherwise the matches become spans with plain gaps
   * and a plain tail, and create() refuses an empty result (no matches in an empty text).
   */
  method Highlight(json: string, parsed: Option<seq<ParsedToken>>) returns (r: Result<seq<Span>, string>)
    ensures parsed.None? ==> r.Failure?
    ensures parsed.Some? ==> (r.Success? <==> MatchesOf(parsed.value) != [] || json != [])
    ensures parsed.Some? && r.Success? ==> r.value == Build(JacksonAdds(json, MatchesOf(parsed.value)))
  {
    if parsed.None? {
      return Failure("the parser failed");
    }
    var matches := CollectMatches(parsed.value);
    var builder := new StyleSpansBuilder();
    var last := AddMatchListSpans(builder, matches);
    if last < |json| {
      builder.Add([], |json| - last);
    }
    assert builder.adds == JacksonAdds(json, matches);
    JacksonAddsEmpty(json, matches);
    r := builder.Create();
  }

  // ----- the length of a quoted token -----

  /**
   * What the parser guarantees about a token: its source text holds its decoded text, and the
   * two quotes as well for strings and property names (escape sequences only lengthen it).
   */
  predicate Reported(t: ParsedToken) {
    t.offset + t.textLength + (if Quoted(t.token) then 2 else 0) <= t.rawEnd
  }

  /** The match that covers a token's source text, quotes and escapes included. */
  function IntendedMatchOf(t: ParsedToken): (m: Option<Match>)
    requires Reported(t)
    ensures m.None? <==> t.token == NOT_AVAILABLE
    ensures m.Some? ==> m.value.kind == StyleClassName(Some(t.token)) && m.value.start == t.offset
    ensures m.Some? ==> m.value.end == t.rawEnd
  {
    var style := StyleClassName(Some(t.token));
    if style == "" then None else Some(Match(style, t.offset, t.rawEnd))
  }

  /** The match as written never reaches past the token's source text, and agrees with the
    * intended one exactly when the source text is no longer than the counted length. */
  lemma MatchOfWithinToken(t: ParsedToken)
    requires Reported(t) && t.token != NOT_AVAILABLE
    ensures MatchOf(t).value.end <= IntendedMatchOf(t).value.end
    ensures MatchOf(t) == IntendedMatchOf(t) <==> t.offset + t.textLength + (if Quoted(t.token) then 2 else 0) == t.rawEnd
  {
  }

  /**
   * The array ["a\nb"] written with a backslash escape: its string token starts at offset 1,
   * its decoded text "a", newline, "b" has three characters, and its source text ends at 7. The
   * match as written ends at 6, leaving the closing quote unstyled; the intended one covers it.
   */
  lemma EscapedStringFallsShort()
    ensures var json := ['[', '"', 'a', '\\', 'n', 'b', '"', ']'];
            var t := ParsedToken(VALUE_STRING, 1, |['a', '\n', 'b']|, 7);
            && Reported(t)
            && json[t.offset] == '"' && json[t.rawEnd - 1] == '"'
            && MatchOf(t).value.end == 6 < t.rawEnd
            && IntendedMatchOf(t).value.end == t.rawEnd
  {
  }
}
