/**
 * JsonEditor: the regex-based JSON highlighter of the message editor. The matcher's tokens are
 * an input: each names the alternative of the token pattern that matched and its offsets.
 */
module JsonEditor {
  import opened Wrappers
  import opened Text
  import opened StyleSpans

  // ----- isValid: ^\s*(\{|\[) -----

  /** isValid: the text looks like JSON when its first non-space character is '{' or '['. */
  function IsValid(text: string): (b: bool)
  {
    var k := SkipRegexSpace(text, 0);
    k < |text| && (text[k] == '{' || text[k] == '[')
  }

  /** IsValid holds exactly when the text opens with '{' or with '['. */
  lemma IsValidSpec(text: string)
    ensures IsValid(text) <==> OpensWith(text, '{') || OpensWith(text, '[')
  {
    OpensWithAt(text, '{');
    OpensWithAt(text, '[');
  }

  // ----- the tokens -----

  /** The named alternatives of the token pattern. */
  datatype Group = STRING | NUMBER | BOOLEAN | NULL | BRACE | BRACKET | COLON | COMMA

  /** One match of the token pattern: its alternative and its [start, end) offsets. */
  datatype Token = Token(group: Group, start: nat, end: nat)

  /** The matcher finds tokens left to right, inside the text, without overlap. */
  predicate Ordered(text: string, tokens: seq<Token>) {
    && (forall i :: 0 <= i < |tokens| ==> tokens[i].start <= tokens[i].end <= |text|)
    && (forall i :: 0 < i < |tokens| ==> tokens[i - 1].end <= tokens[i].start)
  }

  /** The first character at or after `i` that is not whitespace is a ':'. */
  ghost predicate FollowedByColon(text: string, i: nat) {
    exists j :: i <= j < |text| && text[j] == ':' && forall k :: i <= k < j ==> IsJavaWhitespace(text[k])
  }

  /** isFieldName: scans from the end of a string token to the first non-whitespace character
    * and reports whether it is ':'; false when there is none. */
  method IsFieldName(text: string, stringEnd: nat) returns (b: bool)
    ensures b <==> FollowedByColon(text, stringEnd)
  {
    var i := stringEnd;
    while i < |text|
      invariant stringEnd <= i
      invariant forall k :: stringEnd <= k < i && k < |text| ==> IsJavaWhitespace(text[k])
      decreases |text| - i
    {
      var c := text[i];
      if !IsJavaWhitespace(c) {
        b := c == ':';
        if !b {
          forall j | stringEnd <= j < |text| && text[j] == ':'
            ensures exists k :: stringEnd <= k < j && !IsJavaWhitespace(text[k])
          {
            if i < j {
              assert stringEnd <= i < j && !IsJavaWhitespace(text[i]);
            }
          }
        }
        return;
      }
      i := i + 1;
    }
    b := false;
  }

  /** The style class of a token; a string is a property name when a ':' follows it. */
  function StyleClass(group: Group, fieldName: bool): (c: string)
    ensures group == STRING ==> (c == "json-property" <==> fieldName)
    ensures group == COLON || group == COMMA ==> c == "json-seperator"
  {
    match group
    case STRING => if fieldName then "json-property" else "json-string"
    case NUMBER => "json-number"
    case BOOLEAN => "json-bool"
    case NULL => "json-null"
    case BRACE => "json-brace"
    case BRACKET => "json-bracket"
    case COLON => "json-seperator"
    case COMMA => "json-seperator"
  }

  /** Where the last token ends; 0 before the first. */
  function LastEnd(tokens: seq<Token>): nat {
    if tokens == [] then 0 else tokens[|tokens| - 1].end
  }

  /** The additions for the tokens: per token, the plain gap before it and then the token. */
  ghost function TokenAdds(text: string, tokens: seq<Token>): (r: seq<Span>)
    requires Ordered(text, tokens)
  {
    if tokens == [] then []
    else
      var init := tokens[..|tokens| - 1];
      var t := tokens[|tokens| - 1];
      assert Ordered(text, init);
      TokenAdds(text, init)
      + [Span([], t.start - LastEnd(init)), Span([StyleClass(t.group, FollowedByColon(text, t.end))], t.end - t.start)]
  }

  /** The additions of highlight: the token additions and a plain tail to the end of the text. */
  ghost function JsonAdds(text: string, tokens: seq<Token>): seq<Span>
    requires Ordered(text, tokens)
  {
    TokenAdds(text, tokens) + [Span([], |text| - LastEnd(tokens))]
  }

  /** The token additions reach exactly to the end of the last token. */
  lemma {:induction false} TokenAddsTotal(text: string, tokens: seq<Token>)
    requires Ordered(text, tokens)
    ensures Total(TokenAdds(text, tokens)) == LastEnd(tokens)
  {
    if tokens != [] {
      var init := tokens[..|tokens| - 1];
      var t := tokens[|tokens| - 1];
      assert Ordered(text, init);
      TokenAddsTotal(text, init);
      var pair := [Span([], t.start - LastEnd(init)), Span([StyleClass(t.group, FollowedByColon(text, t.end))], t.end - t.start)];
      TotalAppend(TokenAdds(text, init), pair);
      TotalPair(pair[0], pair[1]);
    }
  }

  /** The spans of highlight cover the text exactly. */
  lemma JsonSpansCover(text: string, tokens: seq<Token>)
    requires Ordered(text, tokens)
    ensures Total(Build(JsonAdds(text, tokens))) == |text|
  {
    TokenAddsTotal(text, tokens);
    BuildTotal(JsonAdds(text, tokens));
    TotalAppend(TokenAdds(text, tokens), [Span([], |text| - LastEnd(tokens))]);
    assert [Span([], |text| - LastEnd(tokens))][..0] == [];
  }

  /** One more token: its gap and its span follow the additions of the tokens before it. */
  lemma TokenAddsStep(text: string, tokens: seq<Token>, i: nat)
    requires Ordered(text, tokens) && i < |tokens|
    ensures Ordered(text, tokens[..i]) && Ordered(text, tokens[..i + 1])
    ensures LastEnd(tokens[..i]) <= tokens[i].start
    ensures LastEnd(tokens[..i + 1]) == tokens[i].end
    ensures TokenAdds(text, tokens[..i + 1])
         == TokenAdds(text, tokens[..i])
            + [Span([], tokens[i].start - LastEnd(tokens[..i])),
               Span([StyleClass(tokens[i].group, FollowedByColon(text, tokens[i].end))], tokens[i].end - tokens[i].start)]
  {
    assert tokens[..i + 1][..i] == tokens[..i];
    assert i > 0 ==> tokens[..i][i - 1] == tokens[i - 1];
  }

  /** One step of the token loop: the gap before token `i` and the token's span. */
  method AddTokenSpan(builder: StyleSpansBuilder, text: string, tokens: seq<Token>, i: nat, lastKwEnd: nat)
    requires Ordered(text, tokens) && i < |tokens|
    requires !builder.created
    requires builder.adds == TokenAdds(text, tokens[..i]) && lastKwEnd == LastEnd(tokens[..i])
    modifies builder
    ensures !builder.created
    ensures builder.adds == TokenAdds(text, tokens[..i + 1])
  {
    TokenAddsStep(text, tokens, i);
    var t := tokens[i];
    builder.Add([], t.start - lastKwEnd);
    var fieldName := IsFieldName(text, t.end);
    builder.Add([StyleClass(t.group, fieldName)], t.end - t.start);
  }

  /** The token loop of highlight: each token's gap and span, in order. */
  method AddTokenSpans(builder: StyleSpansBuilder, text: string, tokens: seq<Token>) returns (lastKwEnd: nat)
    requires Ordered(text, tokens)
    requires !builder.created && builder.adds == []
    modifies builder
    ensures !builder.created
    ensures builder.adds == TokenAdds(text, tokens) && lastKwEnd == LastEnd(tokens)
  {
    lastKwEnd := 0;
    var i := 0;
    while i < |tokens|
      invariant 0 <= i <= |tokens|
      invariant !builder.created
      invariant lastKwEnd == LastEnd(tokens[..i])
      invariant builder.adds == TokenAdds(text, tokens[..i])
    {
      AddTokenSpan(builder, text, tokens, i, lastKwEnd);
      TokenAddsStep(text, tokens, i);
      lastKwEnd := tokens[i].end;
      i := i + 1;
    }
    assert tokens[..i] == tokens;
  }

  /**
   * highlight: for each token, a plain span up to it and a span with its class; then a plain
   * span to the end of the text.
   */
  method Highlight(text: string, tokens: seq<Token>) returns (r: Result<seq<Span>, string>)
    requires Ordered(text, tokens)
    ensures r == Success(Build(JsonAdds(text, tokens)))
    ensures r.Success? && Total(r.value) == |text|
  {
    var builder := new StyleSpansBuilder();
    var lastKwEnd := AddTokenSpans(builder, text, tokens);
    builder.Add([], |text| - lastKwEnd);
    assert builder.adds == JsonAdds(text, tokens);
    r := builder.Create();
    JsonSpansCover(text, tokens);
  }
}
