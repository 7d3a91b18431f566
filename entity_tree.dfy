/**
 * MainUITreeAndTableViewManager: how the listed queues are arranged under the "Queues" node,
 * and how an entity's runtime and static properties become the rows of the property table.
 */
module EntityTree {
  import opened Wrappers
  import opened Text
  import opened Messages
  import opened NodeTypes
  import opened DataTreeItems

  // ----- grouping queues by name prefix -----

  /** The part of a name before its first '.'. */
  function BeforeDot(name: string): (r: string)
    ensures r <= name && '.' !in r
    ensures |r| < |name| ==> name[|r|] == '.'
  {
    if name == [] || name[0] == '.' then [] else [name[0]] + BeforeDot(name[1..])
  }

  predicate AllDots(name: string) {
    forall i :: 0 <= i < |name| ==> name[i] == '.'
  }

  /**
   * name.split("\\.")[0]: the part before the first '.'. Java drops the trailing empty parts of a
   * split, so a non-empty name made only of dots yields no part at all and indexing it throws;
   * that case is None.
   */
  function SplitHead(name: string): (r: Option<string>)
    ensures r.None? <==> name != [] && AllDots(name)
    ensures r.Some? ==> r.value == BeforeDot(name)
  {
    if name != [] && AllDots(name) then None else Some(BeforeDot(name))
  }

  /** The names of `names` whose prefix is `key`, in their order. */
  function Members(names: seq<string>, key: string): (r: seq<string>)
    ensures |r| <= |names|
    ensures forall n :: n in r <==> n in names && SplitHead(n) == Some(key)
  {
    if names == [] then []
    else
      var init := names[..|names| - 1];
      assert names == init + [names[|names| - 1]];
      Members(init, key)
      + (if SplitHead(names[|names| - 1]) == Some(key) then [names[|names| - 1]] else [])
  }

  /** Selecting the members keeps their order: it distributes over concatenation. */
  lemma {:induction false} MembersAppend(a: seq<string>, b: seq<string>, key: string)
    ensures Members(a + b, key) == Members(a, key) + Members(b, key)
  {
    if b == [] {
      assert a + b == a;
    } else {
      var init, x := b[..|b| - 1], b[|b| - 1];
      var tail := if SplitHead(x) == Some(key) then [x] else [];
      assert Members(a + init, key) == Members(a, key) + Members(init, key) by {
        MembersAppend(a, init, key);
      }
      assert Members(a + b, key) == Members(a + init, key) + tail by {
        SnocSplit(a, b);
        MembersSnoc(a + b, key);
      }
      assert Members(b, key) == Members(init, key) + tail by {
        MembersSnoc(b, key);
      }
      Regroup(Members(a, key), Members(init, key), tail);
    }
  }

  lemma Regroup(x: seq<string>, y: seq<string>, z: seq<string>)
    ensures x + y + z == x + (y + z)
  {
  }

  /** Members of a non-empty listing: those of all but the last name, then the last if it belongs. */
  lemma MembersSnoc(s: seq<string>, key: string)
    requires s != []
    ensures Members(s, key) == Members(s[..|s| - 1], key) + (if SplitHead(s[|s| - 1]) == Some(key) then [s[|s| - 1]] else [])
  {
  }

  lemma SnocSplit(a: seq<string>, b: seq<string>)
    requires b != []
    ensures (a + b)[..|a + b| - 1] == a + b[..|b| - 1] && (a + b)[|a + b| - 1] == b[|b| - 1]
  {
  }

  /**
   * Collectors.groupingBy(prefix): each name is appended to the list of its prefix. A name
   * whose prefix cannot be taken makes the whole listing fail (None).
   */
  function Grouped(names: seq<string>): (r: Option<map<string, seq<string>>>)
  {
    if names == [] then Some(map[])
    else
      match Grouped(names[..|names| - 1])
      case None => None
      case Some(g) =>
        var n := names[|names| - 1];
        match SplitHead(n)
        case None => None
        case Some(k) => Some(g[k := (if k in g then g[k] else []) + [n]])
  }

  /**
   * The grouping succeeds exactly when every name has a prefix; then each prefix that occurs is a
   * key, no other is, and the list of a key holds exactly the names with that prefix, in order.
   */
  lemma {:induction false} GroupedSpec(names: seq<string>)
    ensures Grouped(names).Some? <==> forall i :: 0 <= i < |names| ==> SplitHead(names[i]).Some?
    ensures Grouped(names).Some? ==> forall k :: k in Grouped(names).value <==> Members(names, k) != []
    ensures Grouped(names).Some? ==> forall k :: k in Grouped(names).value ==> Grouped(names).value[k] == Members(names, k)
  {
    if names != [] {
      var init := names[..|names| - 1];
      var n := names[|names| - 1];
      GroupedSpec(init);
      assert forall i :: 0 <= i < |init| ==> init[i] == names[i];
    }
  }

  /** A queue's own name is in the list of its prefix. */
  lemma {:induction false} MemberOfOwnPrefix(names: seq<string>, i: nat)
    requires i < |names| && SplitHead(names[i]).Some?
    ensures names[i] in Members(names, SplitHead(names[i]).value)
  {
    if i < |names| - 1 {
      MemberOfOwnPrefix(names[..|names| - 1], i);
    }
  }

  /** Every name in the list of `key` has prefix `key`. */
  lemma {:induction false} MembersHavePrefix(names: seq<string>, key: string)
    ensures forall n :: n in Members(names, key) ==> SplitHead(n) == Some(key)
  {
    if names != [] {
      MembersHavePrefix(names[..|names| - 1], key);
    }
  }

  // ----- placing the groups under "Queues" -----

  /** A child of the "Queues" node: a queue hung there directly, or a group node with its queues. */
  datatype Child = Leaf(name: string) | Group(key: string, queues: seq<string>)
  {
    function Key(): string {
      if Leaf? then name else key
    }

    function Queues(): seq<string> {
      if Leaf? then [name] else queues
    }
  }

  /** A group of one queue whose name is the key itself hangs directly under "Queues"; every other
    * group gets a node of its own. */
  function Placement(key: string, queues: seq<string>): (c: Child)
    ensures c.Key() == key && c.Queues() == queues
    ensures c.Leaf? <==> |queues| == 1 && queues[0] == key
  {
    if |queues| == 1 && queues[0] == key then Leaf(key) else Group(key, queues)
  }

  /** The forEach over the grouping: one child of "Queues" per prefix. */
  method PlaceGroups(grouped: map<string, seq<string>>) returns (children: seq<Child>)
    ensures |children| == |grouped.Keys|
    ensures forall c :: c in children ==> c.Key() in grouped && c == Placement(c.Key(), grouped[c.Key()])
    ensures forall k :: k in grouped ==> Placement(k, grouped[k]) in children
  {
    children := [];
    var done: set<string> := {};
    while done != grouped.Keys
      invariant done <= grouped.Keys
      invariant |children| == |done|
      invariant forall c :: c in children ==> c.Key() in done && c == Placement(c.Key(), grouped[c.Key()])
      invariant forall k :: k in done ==> Placement(k, grouped[k]) in children
      decreases |grouped.Keys - done|
    {
      var k :| k in grouped.Keys - done;
      children := children + [Placement(k, grouped[k])];
      done := done + {k};
    }
  }

  /** The "Queues" node: its data holds the number of listed queues, its children the groups. */
  datatype QueuesNode = QueuesNode(data: map<string, Value>, children: seq<Child>)

  /**
   * loadQueues: the size map counts the listed queues; the queues are grouped by prefix and the
   * groups placed. Fails when a name has no prefix.
   */
  method LoadQueues(names: seq<string>) returns (r: Option<QueuesNode>)
    ensures r.None? <==> Grouped(names).None?
    ensures r.Some? ==> r.value.data == map["queueSize" := Long(|names|)]
    ensures r.Some? ==> |r.value.children| == |Grouped(names).value.Keys|
    ensures r.Some? ==> forall c :: c in r.value.children ==>
              c.Key() in Grouped(names).value && c.Queues() == Grouped(names).value[c.Key()]
    ensures r.Some? ==> forall k :: k in Grouped(names).value ==> Placement(k, Grouped(names).value[k]) in r.value.children
  {
    var size := map["queueSize" := Long(|names|)];
    var grouped := Grouped(names);
    if grouped.None? {
      return None;
    }
    var children := PlaceGroups(grouped.value);
    r := Some(QueuesNode(size, children));
  }

  /**
   * Every listed queue appears under "Queues", either directly or inside the node of its prefix,
   * and only under that one child.
   */
  lemma EveryQueuePlacedOnce(names: seq<string>, children: seq<Child>, i: nat)
    requires i < |names|
    requires Grouped(names).Some?
    requires forall c :: c in children ==> c.Key() in Grouped(names).value && c.Queues() == Grouped(names).value[c.Key()]
    requires forall k :: k in Grouped(names).value ==> Placement(k, Grouped(names).value[k]) in children
    ensures SplitHead(names[i]).Some?
    ensures exists c :: c in children && c.Key() == SplitHead(names[i]).value && names[i] in c.Queues()
    ensures forall c :: c in children && names[i] in c.Queues() ==> c.Key() == SplitHead(names[i]).value
  {
    GroupedSpec(names);
    var g := Grouped(names).value;
    var k := SplitHead(names[i]).value;
    MemberOfOwnPrefix(names, i);
    assert k in g;
    var c := Placement(k, g[k]);
    assert c in children && c.Key() == k && names[i] in c.Queues();
    forall c' | c' in children && names[i] in c'.Queues()
      ensures c'.Key() == k
    {
      MembersHavePrefix(names, c'.Key());
    }
  }

  /** The "Queues" node's counter reads back as the number of listed queues. */
  lemma QueueSizeCount(names: seq<string>)
    requires |names| <= LONG_MAX
    ensures Count(Some(map["queueSize" := Long(|names|)])) == Some(|names|)
  {
    ParseShowInt(|names|);
  }

  // ----- the property table -----

  type Entry = (string, Value)
  type Row = (string, string)

  /** The rows for an object's properties: its keys behind the prefix, its values as text. */
  function Rows(entries: seq<Entry>, prefix: string): (r: seq<Row>)
    ensures |r| == |entries|
    ensures forall i :: 0 <= i < |r| ==> r[i] == (prefix + entries[i].0, Show(entries[i].1))
  {
    seq(|entries|, i requires 0 <= i < |entries| => (prefix + entries[i].0, Show(entries[i].1)))
  }

  /** Dropping the prefix from the rows gives the property names back, in their order. */
  lemma RowsKeysRoundTrip(entries: seq<Entry>, prefix: string)
    ensures forall i :: 0 <= i < |entries| ==> Rows(entries, prefix)[i].0[..|prefix|] == prefix
    ensures seq(|entries|, i requires 0 <= i < |entries| => Rows(entries, prefix)[i].0[|prefix|..])
              == seq(|entries|, i requires 0 <= i < |entries| => entries[i].0)
  {
    forall i | 0 <= i < |entries|
      ensures Rows(entries, prefix)[i].0[..|prefix|] == prefix
      ensures Rows(entries, prefix)[i].0[|prefix|..] == entries[i].0
    {
      var key := prefix + entries[i].0;
      assert key[..|prefix|] == prefix;
      assert key[|prefix|..] == entries[i].0;
    }
  }

  /** No entry after the i-th has the same name. */
  predicate LastFor(entries: seq<Entry>, i: int)
    requires 0 <= i < |entries|
  {
    forall j :: i < j < |entries| ==> entries[j].0 != entries[i].0
  }

  /** The map an object converts to (later entries win, as Map.put does). */
  function MapOf(entries: seq<Entry>): (m: map<string, Value>)
    ensures forall i :: 0 <= i < |entries| ==> entries[i].0 in m
    ensures forall k :: k in m ==> exists i :: 0 <= i < |entries| && entries[i].0 == k
  {
    if entries == [] then map[]
    else
      var last := entries[|entries| - 1];
      var m0 := MapOf(entries[..|entries| - 1]);
      assert forall i :: 0 <= i < |entries| - 1 ==> entries[..|entries| - 1][i] == entries[i];
      m0[last.0 := last.1]
  }

  /** Each name maps to the value of its last entry: a later put overwrites an earlier one. */
  lemma {:induction false} MapOfLastWins(entries: seq<Entry>, i: int)
    requires 0 <= i < |entries| && LastFor(entries, i)
    ensures MapOf(entries)[entries[i].0] == entries[i].1
  {
    var init := entries[..|entries| - 1];
    var last := entries[|entries| - 1];
    if i < |init| {
      assert init[i] == entries[i] && entries[i].0 != last.0;
      assert LastFor(init, i) by {
        forall j | i < j < |init| ensures init[j].0 != init[i].0 {
          assert init[j] == entries[j];
        }
      }
      MapOfLastWins(init, i);
    }
  }

  /** The caller's observable list of property rows. */
  class PropertyTable {
    var rows: seq<Row>

    constructor ()
      ensures rows == []
    {
      rows := [];
    }

    /**
     * objectToTableData: the object, already converted to its ordered property entries, adds one
     * row per entry to the table; the converted map is returned.
     */
    method ObjectToTableData(entries: seq<Entry>, prefix: string) returns (m: map<string, Value>)
      modifies this
      ensures rows == old(rows) + Rows(entries, prefix)
      ensures m == MapOf(entries)
    {
      var i := 0;
      while i < |entries|
        invariant 0 <= i <= |entries|
        invariant rows == old(rows) + Rows(entries[..i], prefix)
      {
        rows := rows + [(prefix + entries[i].0, Show(entries[i].1))];
        assert Rows(entries[..i + 1], prefix) == Rows(entries[..i], prefix) + [(prefix + entries[i].0, Show(entries[i].1))];
        i := i + 1;
      }
      assert entries[..i] == entries;
      m := MapOf(entries);
    }
  }

  /** What selecting a node loads: the property rows, and the replacement node that carries the
    * runtime counters (None when the node kind loads nothing). */
  datatype Loaded = Loaded(rows: seq<Row>, replacement: Option<DataTreeItem>)

  /**
   * loadEntityProperties: for a queue or a topic the runtime properties are listed under
   * "Runtime." and then the static properties unprefixed; for a subscription only the runtime
   * properties; any other node lists nothing. The selected node is replaced by one that carries
   * the runtime map. A subscription node without a parent fails (None). The fetched runtime
   * properties and the stored static properties are parameters, as converted entries.
   */
  method LoadEntityProperties(item: DataTreeItem, parent: Option<DataTreeItem>,
                              runtime: seq<Entry>, stored: seq<Entry>)
    returns (r: Option<Loaded>)
    ensures r.None? <==> item.kind == SUBSCRIPTION && parent.None?
    ensures r.Some? && (item.kind == QUEUE || item.kind == TOPIC) ==>
              r.value.rows == Rows(runtime, "Runtime.") + Rows(stored, "")
    ensures r.Some? && item.kind == SUBSCRIPTION ==> r.value.rows == Rows(runtime, "Runtime.")
    ensures r.Some? && item.kind == NONE ==> r.value.rows == [] && r.value.replacement.None?
    ensures r.Some? && item.kind != NONE ==> r.value.replacement.Some?
    ensures r.Some? && r.value.replacement.Some? ==>
              fresh(r.value.replacement.value) &&
              r.value.replacement.value.name == item.name && r.value.replacement.value.kind == item.kind &&
              r.value.replacement.value.data == Some(MapOf(runtime))
  {
    if item.kind == SUBSCRIPTION && parent.None? {
      return None;
    }
    var table := new PropertyTable();
    if item.kind == NONE {
      return Some(Loaded(table.rows, None));
    }
    var runtimeMap := table.ObjectToTableData(runtime, "Runtime.");
    assert table.rows == Rows(runtime, "Runtime.");
    var node := new DataTreeItem(item.name, Some(runtimeMap), item.kind);
    if item.kind != SUBSCRIPTION {
      var _ := table.ObjectToTableData(stored, "");
    }
    r := Some(Loaded(table.rows, Some(node)));
  }
}
