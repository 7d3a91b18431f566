/**
 * MainUIController: the busy counter behind the progress box, the visibility of the tree's
 * context-menu entries, the two child sorts, and reading the selected tree node.
 */
module MainUI {
  import opened Wrappers
  import opened Text
  import opened NodeTypes
  import opened DataTreeItems

  // ----- resetTreeContextMenu -----

  /** The context-menu entries whose visibility depends on the selected node's kind. */
  datatype MenuItem = SendMsg | Status | Purge | Dlq | SendToDlq | SortByName | SortByMessage

  /** Every entry of the table, in the order the table lists them. */
  const MENU_ITEMS: seq<MenuItem> := [SendMsg, Status, Purge, Dlq, SendToDlq, SortByName, SortByMessage]

  /** The kinds each entry is shown for. */
  function ShownFor(item: MenuItem): seq<NodeType> {
    match item
    case SendMsg => [QUEUE, SUBSCRIPTION]
    case Status => [QUEUE, SUBSCRIPTION, TOPIC]
    case Purge => [QUEUE, SUBSCRIPTION]
    case Dlq => [QUEUE, SUBSCRIPTION]
    case SendToDlq => [QUEUE, SUBSCRIPTION]
    case SortByName => [NONE, TOPIC]
    case SortByMessage => [NONE, TOPIC]
  }

  /** An entry is visible when its list contains the node's kind. */
  predicate VisibleFor(item: MenuItem, kind: NodeType) {
    kind in ShownFor(item)
  }

  /**
   * The visibility table: the message actions only for queues and subscriptions, status also for
   * topics, the sorts only for group nodes and topics. So a message action and a sort are never
   * shown together, and status is shown whenever a message action is.
   */
  lemma MenuVisibility(kind: NodeType)
    ensures forall item :: item in {SendMsg, Purge, Dlq, SendToDlq} ==>
              (VisibleFor(item, kind) <==> kind == QUEUE || kind == SUBSCRIPTION)
    ensures VisibleFor(Status, kind) <==> kind != NONE
    ensures VisibleFor(SortByName, kind) <==> VisibleFor(SortByMessage, kind)
    ensures VisibleFor(SortByName, kind) <==> kind == NONE || kind == TOPIC
    ensures !(VisibleFor(SendMsg, kind) && VisibleFor(SortByName, kind))
    ensures VisibleFor(SendMsg, kind) ==> VisibleFor(Status, kind)
  {
  }

  /** The main window: the progress counter and what it shows, and the menu entries' visibility. */
  class Controller {
    var progressCount: int
    var paneDisabled: bool
    var progressVisible: bool
    var progressLabel: string
    var visible: map<MenuItem, bool>

    /** The pane is disabled, and the progress box shown, exactly while something is running. */
    predicate Valid()
      reads this
    {
      && progressCount >= 0
      && (paneDisabled <==> progressCount > 0)
      && (progressVisible <==> progressCount > 0)
    }

    /** Nothing running; every menu entry visible, as a new MenuItem is. */
    constructor ()
      ensures Valid() && progressCount == 0 && progressLabel == ""
      ensures forall item :: item in visible && visible[item]
    {
      progressCount := 0;
      paneDisabled := false;
      progressVisible := false;
      progressLabel := "";
      visible := map[SendMsg := true, Status := true, Purge := true, Dlq := true, SendToDlq := true,
                     SortByName := true, SortByMessage := true];
      new;
      forall item: MenuItem ensures item in visible && visible[item] {
        assert item == MENU_ITEMS[MenuIndex(item)];
      }
    }

    /** showProgress: one more task; the pane is disabled and the box shows the message. */
    method ShowProgress(message: string)
      modifies this
      ensures progressCount == old(progressCount) + 1 && paneDisabled && progressVisible
      ensures progressLabel == message && visible == old(visible)
      ensures old(Valid()) ==> Valid()
    {
      progressCount := progressCount + 1;
      paneDisabled := true;
      progressVisible := true;
      progressLabel := message;
    }

    /** hideProgress: one task fewer; only when none is left is the counter reset to 0, the pane
      * enabled and the box hidden. */
    method HideProgress()
      modifies this
      ensures old(progressCount) - 1 <= 0 ==> progressCount == 0 && !paneDisabled && !progressVisible
      ensures old(progressCount) - 1 > 0 ==>
                progressCount == old(progressCount) - 1 &&
                paneDisabled == old(paneDisabled) && progressVisible == old(progressVisible)
      ensures progressLabel == old(progressLabel) && visible == old(visible)
      ensures old(Valid()) ==> Valid()
    {
      var count := progressCount - 1;
      progressCount := count;
      if count <= 0 {
        progressCount := 0;
        paneDisabled := false;
        progressVisible := false;
      }
    }

    /** resetTreeContextMenu: every entry of the table is shown or hidden for the node's kind. */
    method ResetTreeContextMenu(kind: NodeType)
      modifies this
      ensures forall item :: item in visible && visible[item] == VisibleFor(item, kind)
      ensures progressCount == old(progressCount) && paneDisabled == old(paneDisabled)
      ensures progressVisible == old(progressVisible) && progressLabel == old(progressLabel)
    {
      var i := 0;
      while i < |MENU_ITEMS|
        invariant 0 <= i <= |MENU_ITEMS|
        invariant forall j :: 0 <= j < i ==> MENU_ITEMS[j] in visible && visible[MENU_ITEMS[j]] == VisibleFor(MENU_ITEMS[j], kind)
        invariant progressCount == old(progressCount) && paneDisabled == old(paneDisabled)
        invariant progressVisible == old(progressVisible) && progressLabel == old(progressLabel)
      {
        var item := MENU_ITEMS[i];
        visible := visible[item := kind in ShownFor(item)];
        i := i + 1;
      }
      forall item: MenuItem
        ensures item in visible && visible[item] == VisibleFor(item, kind)
      {
        assert item == MENU_ITEMS[MenuIndex(item)];
      }
    }
  }

  /** Where an entry sits in MENU_ITEMS. */
  function MenuIndex(item: MenuItem): (i: nat)
    ensures i < |MENU_ITEMS| && MENU_ITEMS[i] == item
  {
    match item
    case SendMsg => 0
    case Status => 1
    case Purge => 2
    case Dlq => 3
    case SendToDlq => 4
    case SortByName => 5
    case SortByMessage => 6
  }

  // ----- the child sorts -----

  /** A child of the selected tree node, by the two things the sorts look at: its name and its
    * message count (DataTreeItem.getCount). */
  datatype Child = Child(name: string, count: int)

  /** String.CASE_INSENSITIVE_ORDER folds each character to upper and then to lower case. */
  function FoldCase(c: char): char {
    LowerAscii(UpperAscii(c))
  }

  /** CASE_INSENSITIVE_ORDER.compare(a, b) <= 0: the first differing folded character decides,
    * else the shorter string comes first. */
  predicate NameLeq(a: string, b: string)
    decreases |a|
  {
    if a == [] then true
    else if b == [] then false
    else if FoldCase(a[0]) != FoldCase(b[0]) then FoldCase(a[0]) < FoldCase(b[0])
    else NameLeq(a[1..], b[1..])
  }

  lemma {:induction false} NameLeqTotal(a: string, b: string)
    ensures NameLeq(a, b) || NameLeq(b, a)
    decreases |a|
  {
    if a != [] && b != [] && FoldCase(a[0]) == FoldCase(b[0]) {
      NameLeqTotal(a[1..], b[1..]);
    }
  }

  lemma {:induction false} NameLeqTrans(a: string, b: string, c: string)
    requires NameLeq(a, b) && NameLeq(b, c)
    ensures NameLeq(a, c)
    decreases |a|
  {
    if a != [] && b != [] && c != [] && FoldCase(a[0]) == FoldCase(b[0]) && FoldCase(b[0]) == FoldCase(c[0]) {
      NameLeqTrans(a[1..], b[1..], c[1..]);
    }
  }

  /** The two sort orders of the context menu. */
  datatype SortKey = ByName | ByMessages

  /** `a` may precede `b`: names case-insensitively ascending, or counts descending. */
  predicate Leq(key: SortKey, a: Child, b: Child) {
    match key
    case ByName => NameLeq(a.name, b.name)
    case ByMessages => a.count >= b.count
  }

  lemma LeqTotal(key: SortKey, a: Child, b: Child)
    ensures Leq(key, a, b) || Leq(key, b, a)
  {
    if key == ByName {
      NameLeqTotal(a.name, b.name);
    }
  }

  lemma LeqTrans(key: SortKey, a: Child, b: Child, c: Child)
    requires Leq(key, a, b) && Leq(key, b, c)
    ensures Leq(key, a, c)
  {
    if key == ByName {
      NameLeqTrans(a.name, b.name, c.name);
    }
  }

  /** Every child may precede every later one. */
  predicate Sorted(key: SortKey, s: seq<Child>) {
    forall i, j :: 0 <= i < j < |s| ==> Leq(key, s[i], s[j])
  }

  /** Insertion of x into a sorted list, after every element that may precede it. */
  function Insert(key: SortKey, s: seq<Child>, x: Child): (r: seq<Child>)
    requires Sorted(key, s)
    ensures Sorted(key, r)
    ensures multiset(r) == multiset(s) + multiset{x}
  {
    if s == [] then [x]
    else if Leq(key, s[0], x) then
      var rest := Insert(key, s[1..], x);
      KeepHead(key, s, x, rest);
      [s[0]] + rest
    else
      PutFirst(key, s, x);
      [x] + s
  }

  /** The head of a sorted list that may precede x stays in front of x inserted into the rest. */
  lemma KeepHead(key: SortKey, s: seq<Child>, x: Child, rest: seq<Child>)
    requires s != [] && Sorted(key, s) && Leq(key, s[0], x)
    requires Sorted(key, rest) && multiset(rest) == multiset(s[1..]) + multiset{x}
    ensures Sorted(key, [s[0]] + rest)
    ensures multiset([s[0]] + rest) == multiset(s) + multiset{x}
  {
    forall j | 0 <= j < |rest| ensures Leq(key, s[0], rest[j]) {
      assert rest[j] in multiset(rest);
      assert rest[j] in s[1..] || rest[j] == x;
    }
    assert s == [s[0]] + s[1..];
  }

  /** An x that the head may not precede goes first. */
  lemma PutFirst(key: SortKey, s: seq<Child>, x: Child)
    requires s != [] && Sorted(key, s) && !Leq(key, s[0], x)
    ensures Sorted(key, [x] + s)
  {
    LeqTotal(key, s[0], x);
    forall j | 0 < j < |s| ensures Leq(key, x, s[j]) {
      LeqTrans(key, x, s[0], s[j]);
    }
  }

  /** A tree node whose children list the sorts reorder in place. */
  class TreeNode {
    var children: seq<Child>

    constructor (children: seq<Child>)
      ensures this.children == children
    {
      this.children := children;
    }

    /** children.sort(comparator): the children end sorted by the key, the same children. */
    method SortChildren(key: SortKey)
      modifies this
      ensures Sorted(key, children)
      ensures multiset(children) == multiset(old(children))
    {
      var sorted: seq<Child> := [];
      var i := 0;
      while i < |children|
        invariant 0 <= i <= |children| && children == old(children)
        invariant Sorted(key, sorted)
        invariant multiset(sorted) == multiset(children[..i])
      {
        assert children[..i + 1] == children[..i] + [children[i]];
        sorted := Insert(key, sorted, children[i]);
        i := i + 1;
      }
      assert children[..i] == children;
      children := sorted;
    }
  }

  /** handleSortByName and handleSortByMessages: sort the selected node's children, if a node
    * is selected. */
  method HandleSort(selected: Option<TreeNode>, key: SortKey)
    modifies if selected.Some? then {selected.value} else {}
    ensures selected.Some? ==> Sorted(key, selected.value.children)
    ensures selected.Some? ==> multiset(selected.value.children) == multiset(old(selected.value.children))
  {
    if selected.Some? {
      selected.value.SortChildren(key);
    }
  }

  // ----- getEntityName / getSelectedNode -----

  /** The tree's selected item: a tree item whose value may be null. */
  datatype TreeItem = TreeItem(value: Option<DataTreeItem>)

  /** getSelectedNode: the selected item, or null when nothing is selected or its value is null. */
  function GetSelectedNode(selected: Option<TreeItem>): (r: Option<TreeItem>)
    ensures r.None? <==> selected.None? || selected.value.value.None?
    ensures r.Some? ==> r == selected
  {
    if selected.None? || selected.value.value.None? then None else selected
  }

  /** getEntityName: the selected node's name; null also for a NONE (group) node. */
  function GetEntityName(selected: Option<TreeItem>): (r: Option<string>)
    ensures selected.None? || selected.value.value.None? ==> r.None?
    ensures selected.Some? && selected.value.value.Some? && selected.value.value.value.kind == NONE ==> r.None?
    ensures r.Some? ==> selected.Some? && selected.value.value.Some? && r == selected.value.value.value.name
  {
    if selected.None? || selected.value.value.None? || selected.value.value.value.kind == NONE then None
    else selected.value.value.value.name
  }

  /** An entity name implies a selected node; the two differ only on NONE nodes (and on a node
    * whose name is null). */
  lemma EntityNameOfSelectedNode(selected: Option<TreeItem>)
    ensures GetEntityName(selected).Some? ==> GetSelectedNode(selected).Some?
    ensures GetSelectedNode(selected).Some? && GetSelectedNode(selected).value.value.value.kind != NONE ==>
              GetEntityName(selected) == GetSelectedNode(selected).value.value.value.name
  {
  }
}
