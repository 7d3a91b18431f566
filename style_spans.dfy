/**
 * The style-span builder of the code editors (RichTextFX's StyleSpansBuilder): a highlighter
 * adds (style, length) spans left to right and creates the span list the editor applies from
 * offset 0.
 */
module StyleSpans {
  import opened Wrappers

  /** A run of `length` characters carrying the style classes in `style` (none for plain text). */
  datatype Span = Span(style: seq<string>, length: nat)

  /** The number of characters the spans cover. */
  function Total(spans: seq<Span>): nat {
    if spans == [] then 0 else Total(spans[..|spans| - 1]) + spans[|spans| - 1].length
  }

  lemma {:induction false} TotalAppend(a: seq<Span>, b: seq<Span>)
    ensures Total(a + b) == Total(a) + Total(b)
  {
    if b == [] {
      assert a + b == a;
    } else {
      assert (a + b)[..|a + b| - 1] == a + b[..|b| - 1];
      TotalAppend(a, b[..|b| - 1]);
    }
  }

  /** Grouping of concatenated additions does not matter. */
  lemma AppendAssoc(a: seq<Span>, b: seq<Span>, c: seq<Span>)
    ensures (a + b) + c == a + (b + c)
  {
  }

  /** Two spans cover the sum of their lengths. */
  lemma TotalPair(a: Span, b: Span)
    ensures Total([a, b]) == a.length + b.length
  {
    assert [a][..0] == [];
    assert Total([a]) == a.length;
    assert [a, b][..1] == [a];
  }

  /**
   * Adding one span: the first span is always kept; later an empty span is dropped, a span
   * after an empty first span replaces it, and a span with the same style as the last one is
   * merged into it.
   */
  function Append(spans: seq<Span>, s: Span): (r: seq<Span>)
    ensures r != []
    ensures Total(r) == Total(spans) + s.length
  {
    if spans == [] then
      assert [s][..0] == [];
      [s]
    else
      var init := spans[..|spans| - 1];
      var last := spans[|spans| - 1];
      assert spans == init + [last];
      if s.length == 0 then spans
      else if last.length == 0 then
        assert (init + [s])[..|init + [s]| - 1] == init;
        init + [s]
      else if last.style == s.style then
        var merged := Span(s.style, last.length + s.length);
        assert (init + [merged])[..|init + [merged]| - 1] == init;
        init + [merged]
      else
        assert (spans + [s])[..|spans + [s]| - 1] == spans;
        spans + [s]
  }

  /**
   * The shape the builder keeps: beyond a lone first span no span is empty, and no two
   * neighbours carry the same style.
   */
  predicate Normal(spans: seq<Span>) {
    && (|spans| > 1 ==> forall i :: 0 <= i < |spans| ==> spans[i].length > 0)
    && (forall i :: 0 < i < |spans| ==> spans[i - 1].style != spans[i].style)
  }

  /** Adding a span keeps the builder's shape. */
  lemma AppendNormal(spans: seq<Span>, s: Span)
    requires Normal(spans)
    ensures Normal(Append(spans, s))
  {
    if spans != [] && s.length != 0 {
      var last := spans[|spans| - 1];
      if last.length == 0 {
        assert |spans| == 1;
      }
    }
  }

  /** The spans a sequence of additions leaves in a new builder. */
  function Build(adds: seq<Span>): (r: seq<Span>)
    ensures adds != [] ==> r != []
  {
    if adds == [] then [] else Append(Build(adds[..|adds| - 1]), adds[|adds| - 1])
  }

  /** However the additions are merged, the spans cover exactly what was added. */
  lemma {:induction false} BuildTotal(adds: seq<Span>)
    ensures Total(Build(adds)) == Total(adds)
  {
    if adds != [] {
      BuildTotal(adds[..|adds| - 1]);
    }
  }

  /** Whatever is added, the builder keeps its shape. */
  lemma {:induction false} BuildNormal(adds: seq<Span>)
    ensures Normal(Build(adds))
  {
    if adds != [] {
      BuildNormal(adds[..|adds| - 1]);
      AppendNormal(Build(adds[..|adds| - 1]), adds[|adds| - 1]);
    }
  }

  /**
   * The builder records each addition and merges them as Build does; the merged spans are what
   * create() returns.
   */
  class StyleSpansBuilder {
    /** Every addition so far, in order. */
    var adds: seq<Span>
    var created: bool

    constructor ()
      ensures adds == [] && !created
    {
      adds := [];
      created := false;
    }

    /** add(style, length): a negative length is refused (IllegalArgumentException). */
    method Add(style: seq<string>, length: int)
      requires !created
      requires length >= 0
      modifies this
      ensures !created
      ensures adds == old(adds) + [Span(style, length)]
    {
      adds := adds + [Span(style, length)];
    }

    /** create(): the merged spans, or an IllegalStateException when nothing was added. */
    method Create() returns (r: Result<seq<Span>, string>)
      requires !created
      modifies this
      ensures r.Success? <==> adds != []
      ensures r.Success? ==> r.value == Build(adds) && created
      ensures r.Failure? ==> !created
      ensures adds == old(adds)
    {
      var spans := Build(adds);
      if spans == [] {
        return Failure("No spans have been added");
      }
      created := true;
      r := Success(spans);
    }
  }
}
