/**
 * DataTreeItem: a node of the entity tree, with its name, kind and the map of
 * runtime counters shown next to it.
 */
module DataTreeItems {
  import opened Wrappers
  import opened Text
  import opened Messages
  import opened NodeTypes

  /** The counters shown in a node's label, in the order they are shown. */
  const METRIC_KEYS: seq<string> :=
    ["activeMessageCount", "subscriptionCount", "queueSize", "deadLetterMessageCount"]

  /** Map.getOrDefault. */
  function GetOrDefault(m: map<string, Value>, k: string, d: Value): Value {
    if k in m then m[k] else d
  }

  /**
   * The value getCount reads: the active message count, else the subscription
   * count, else the queue size, else the text "0".
   */
  function CountValue(d: map<string, Value>): (v: Value)
    ensures "activeMessageCount" in d ==> v == d["activeMessageCount"]
    ensures "activeMessageCount" !in d && "subscriptionCount" in d ==> v == d["subscriptionCount"]
    ensures "activeMessageCount" !in d && "subscriptionCount" !in d && "queueSize" in d ==> v == d["queueSize"]
    ensures "activeMessageCount" !in d && "subscriptionCount" !in d && "queueSize" !in d ==> v == Str("0")
  {
    GetOrDefault(d, "activeMessageCount",
      GetOrDefault(d, "subscriptionCount",
        GetOrDefault(d, "queueSize", Str("0"))))
  }

  /**
   * DataTreeItem.getCount: 0 without data; otherwise the chosen value parsed as
   * a long, 0 when it does not parse. None stands for the NullPointerException
   * raised when the chosen key is mapped to null.
   */
  function Count(data: Option<map<string, Value>>): (r: Option<int>)
    ensures data.None? ==> r == Some(0)
    ensures r.None? <==> data.Some? && CountValue(data.value).Null?
    ensures r.Some? ==> LONG_MIN <= r.value <= LONG_MAX
    ensures r.Some? && data.Some? && ParseLong(Show(CountValue(data.value))).None? ==> r == Some(0)
    ensures data.Some? && !CountValue(data.value).Null? && ParseLong(Show(CountValue(data.value))).Some? ==>
              r == Some(ParseLong(Show(CountValue(data.value))).value)
  {
    match data
    case None => Some(0)
    case Some(d) =>
      var v := CountValue(d);
      if v.Null? then None else Some(ToLongOrZero(Show(v)))
  }

  /**
   * A count held as a long is read back exactly, whichever of the active
   * message count, the subscription count or the queue size getCount chose.
   */
  lemma CountOfLong(d: map<string, Value>, n: int)
    requires CountValue(d) == Long(n)
    requires LONG_MIN <= n <= LONG_MAX
    ensures Count(Some(d)) == Some(n)
  {
    ParseShowInt(n);
  }

  /** The texts that are not blank, in their original order (the filter of toString). */
  function NonBlank(texts: seq<string>): (r: seq<string>)
    ensures |r| <= |texts|
    ensures forall i :: 0 <= i < |r| ==> !IsBlank(r[i]) && r[i] in texts
    ensures forall i :: 0 <= i < |texts| && !IsBlank(texts[i]) ==> texts[i] in r
    ensures |texts| == 1 ==> r == (if IsBlank(texts[0]) then [] else texts)
  {
    if texts == [] then []
    else (if IsBlank(texts[0]) then [] else [texts[0]]) + NonBlank(texts[1..])
  }

  /** The filter works element by element: it distributes over concatenation. */
  lemma {:induction false} NonBlankAppend(a: seq<string>, b: seq<string>)
    ensures NonBlank(a + b) == NonBlank(a) + NonBlank(b)
  {
    if a == [] {
      assert a + b == b;
    } else {
      assert (a + b)[0] == a[0] && (a + b)[1..] == a[1..] + b;
      NonBlankAppend(a[1..], b);
    }
  }

  /** Two lists that differ only where both hold blank texts keep the same non-blank texts. */
  lemma {:induction false} NonBlankIgnoresBlanks(s: seq<string>, t: seq<string>)
    requires |s| == |t|
    requires forall i :: 0 <= i < |s| ==> s[i] == t[i] || (IsBlank(s[i]) && IsBlank(t[i]))
    ensures NonBlank(s) == NonBlank(t)
  {
    if s != [] {
      NonBlankIgnoresBlanks(s[1..], t[1..]);
    }
  }

  /** The texts of the four counters, "" for an absent one. */
  function MetricTexts(d: map<string, Value>): (r: seq<string>)
    ensures |r| == |METRIC_KEYS|
    ensures forall i :: 0 <= i < |r| ==> r[i] == Show(GetOrDefault(d, METRIC_KEYS[i], Str("")))
  {
    seq(|METRIC_KEYS|, i requires 0 <= i < |METRIC_KEYS| => Show(GetOrDefault(d, METRIC_KEYS[i], Str(""))))
  }

  /**
   * DataTreeItem.formatSize: "" for null; otherwise the value parsed as a long
   * (0 when it does not parse), divided by 1024 with Java's truncating division,
   * followed by "Kb".
   */
  function FormatSize(v: Value): string {
    if v.Null? then "" else ShowInt(JavaDiv(ToLongOrZero(Show(v)), 1024)) + "Kb"
  }

  /** A size held as a long is shown in whole kilobytes, rounded toward zero. */
  lemma FormatSizeOfLong(n: int)
    requires LONG_MIN <= n <= LONG_MAX
    ensures n >= 0 ==> FormatSize(Long(n)) == ShowInt(n / 1024) + "Kb"
    ensures n < 0 ==> FormatSize(Long(n)) == ShowInt(-((-n) / 1024)) + "Kb"
  {
    ParseShowInt(n);
    assert ToLongOrZero(Show(Long(n))) == n;
  }

  /** DataTreeItem.toString: the name alone without data, else "name (metrics) size". */
  function Label(name: string, data: Option<map<string, Value>>): (r: string)
    ensures data.None? ==> r == name
    ensures data.Some? ==> |r| >= |name| + 4 && r[..|name| + 2] == name + " ("
  {
    match data
    case None => name
    case Some(d) =>
      name + " (" + Join(",", NonBlank(MetricTexts(d))) + ") " + FormatSize(GetOrDefault(d, "sizeInBytes", Null))
  }

  /** Counters that are absent or blank do not appear in the label. */
  lemma {:induction false} LabelSkipsBlank(name: string, d: map<string, Value>)
    requires forall k :: k in d ==> k !in METRIC_KEYS && k != "sizeInBytes"
    ensures Label(name, Some(d)) == name + " () "
  {
    assert Join(",", NonBlank(MetricTexts(d))) == "" by {
      NoMetricsJoinEmpty(d);
    }
    assert FormatSize(GetOrDefault(d, "sizeInBytes", Null)) == "";
    assert name + " (" + "" + ") " + "" == name + " () ";
  }

  /** A counter holding a blank text shows exactly as an absent counter. */
  lemma LabelBlankMetric(name: string, d: map<string, Value>, k: string, b: string)
    requires k in METRIC_KEYS && IsBlank(b)
    ensures Label(name, Some(d[k := Str(b)])) == Label(name, Some(d - {k}))
  {
    var d1 := d[k := Str(b)];
    var d2 := d - {k};
    var s, t := MetricTexts(d1), MetricTexts(d2);
    forall i | 0 <= i < |s| ensures s[i] == t[i] || (IsBlank(s[i]) && IsBlank(t[i])) {
      if METRIC_KEYS[i] == k {
        assert s[i] == b && t[i] == "";
      } else {
        assert GetOrDefault(d1, METRIC_KEYS[i], Str("")) == GetOrDefault(d2, METRIC_KEYS[i], Str(""));
      }
    }
    NonBlankIgnoresBlanks(s, t);
    assert GetOrDefault(d1, "sizeInBytes", Null) == GetOrDefault(d2, "sizeInBytes", Null);
  }

  /**
   * With every counter and the size held as longs, the label is the name, the four
   * counters in order between parentheses separated by commas, and the size in Kb.
   */
  lemma LabelOfCounts(name: string, a: int, s: int, q: int, dl: int, n: int)
    requires 0 <= n <= LONG_MAX
    ensures var d := map["activeMessageCount" := Long(a), "subscriptionCount" := Long(s),
                         "queueSize" := Long(q), "deadLetterMessageCount" := Long(dl),
                         "sizeInBytes" := Long(n)];
            Label(name, Some(d))
              == name + " (" + (ShowInt(a) + "," + ShowInt(s) + "," + ShowInt(q) + "," + ShowInt(dl)) + ") "
                 + (ShowInt(n / 1024) + "Kb")
  {
    var d := map["activeMessageCount" := Long(a), "subscriptionCount" := Long(s),
                 "queueSize" := Long(q), "deadLetterMessageCount" := Long(dl),
                 "sizeInBytes" := Long(n)];
    var texts := [ShowInt(a), ShowInt(s), ShowInt(q), ShowInt(dl)];
    var size := ShowInt(n / 1024) + "Kb";
    assert Join(",", NonBlank(MetricTexts(d))) == ShowInt(a) + "," + ShowInt(s) + "," + ShowInt(q) + "," + ShowInt(dl) by {
      MetricTextsOfCounts(d, a, s, q, dl);
      AllShownKept(texts);
      JoinFour(",", ShowInt(a), ShowInt(s), ShowInt(q), ShowInt(dl));
    }
    assert FormatSize(GetOrDefault(d, "sizeInBytes", Null)) == size by {
      FormatSizeOfLong(n);
    }
  }

  /** The counter texts of a map holding the four counters as longs. */
  lemma MetricTextsOfCounts(d: map<string, Value>, a: int, s: int, q: int, dl: int)
    requires "activeMessageCount" in d && d["activeMessageCount"] == Long(a)
    requires "subscriptionCount" in d && d["subscriptionCount"] == Long(s)
    requires "queueSize" in d && d["queueSize"] == Long(q)
    requires "deadLetterMessageCount" in d && d["deadLetterMessageCount"] == Long(dl)
    ensures MetricTexts(d) == [ShowInt(a), ShowInt(s), ShowInt(q), ShowInt(dl)]
  {
    var r := MetricTexts(d);
    assert r[0] == ShowInt(a) && r[1] == ShowInt(s) && r[2] == ShowInt(q) && r[3] == ShowInt(dl);
  }

  lemma JoinFour(sep: string, w: string, x: string, y: string, z: string)
    ensures Join(sep, [w, x, y, z]) == w + sep + x + sep + y + sep + z
  {
    assert [w, x, y, z][1..] == [x, y, z] && [x, y, z][1..] == [y, z] && [y, z][1..] == [z];
    assert Join(sep, [y, z]) == y + sep + z;
    assert Join(sep, [x, y, z]) == x + sep + (y + sep + z);
    assert w + sep + (x + sep + (y + sep + z)) == w + sep + x + sep + y + sep + z;
  }

  /** Printed longs are never blank, so the filter keeps them all. */
  lemma {:induction false} AllShownKept(texts: seq<string>)
    requires forall i :: 0 <= i < |texts| ==> texts[i] != [] && (texts[i][0] == '-' || IsDigit(texts[i][0]))
    ensures NonBlank(texts) == texts
  {
    if texts != [] {
      assert !IsJavaWhitespace(texts[0][0]);
      AllShownKept(texts[1..]);
      assert texts == [texts[0]] + texts[1..];
    }
  }

  lemma NoMetricsJoinEmpty(d: map<string, Value>)
    requires forall k :: k in d ==> k !in METRIC_KEYS
    ensures Join(",", NonBlank(MetricTexts(d))) == ""
  {
    var texts := MetricTexts(d);
    forall i | 0 <= i < |texts| ensures texts[i] == "" {
      assert METRIC_KEYS[i] !in d;
    }
    NonBlankOfBlanks(texts);
  }

  lemma {:induction false} NonBlankOfBlanks(texts: seq<string>)
    requires forall i :: 0 <= i < |texts| ==> texts[i] == ""
    ensures NonBlank(texts) == []
  {
    if texts != [] {
      NonBlankOfBlanks(texts[1..]);
    }
  }

  /** The tree node value; only its counters are updated after construction. */
  class DataTreeItem {
    const name: Option<string>
    const kind: NodeType
    var data: Option<map<string, Value>>

    constructor (name: Option<string>, data: Option<map<string, Value>>, kind: NodeType)
      ensures this.name == name && this.data == data && this.kind == kind
    {
      this.name := name;
      this.data := data;
      this.kind := kind;
    }

    /**
     * setData: the node's map is cleared and refilled with the given entries, so
     * the node keeps its map object and ends with exactly those entries.
     */
    method SetData(entries: map<string, Value>)
      requires data.Some?
      modifies this`data
      ensures data == Some(entries)
    {
      data := Some(map[]);
      data := Some(data.value + entries);
      assert map[] + entries == entries;
    }
  }
}
