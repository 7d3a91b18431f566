/**
 * MessageDialogController: stepping through the message table, the dialog's busy counter, and
 * the record built from the property tree and the custom-property table for a resend.
 */
module MessageDialog {
  import opened Wrappers
  import opened Text
  import opened Messages
  import opened PropsItems
  import opened MessageData
  import Utils

  // ----- tableSelect -----

  /** What tableSelect does: nothing (empty table), keep the first row, report the end while
    * showing `index`, or select `index`. */
  datatype Selection = NoOp | StayAtFirst | ReachedEnd(index: int) | Select(index: int)

  /** current + step, clamped into [0, newSize - 1]. */
  function ClampIndex(current: int, step: int, newSize: int): (k: int)
    requires newSize > 0
    ensures 0 <= k < newSize
    ensures 0 <= current + step < newSize ==> k == current + step
    ensures current + step < 0 ==> k == 0
    ensures current + step >= newSize ==> k == newSize - 1
  {
    var next := current + step;
    if next < 0 then 0 else if next >= newSize then newSize - 1 else next
  }

  /**
   * tableSelect over a table of `size` rows with selected index `current` (-1 for none). A step
   * forward from the last row first runs a synchronous peek, which appends `peeked` rows.
   */
  function TableSelect(size: nat, current: int, step: int, peeked: nat): (r: Selection)
    requires -1 <= current < size
    ensures r == NoOp <==> size == 0
    ensures r == StayAtFirst <==> size > 0 && current == 0 && step < 0
    ensures r.ReachedEnd? <==> size > 0 && current == size - 1 && step > 0 && peeked == 0
    ensures r.ReachedEnd? ==> r.index == size - 1
    ensures r.Select? ==> 0 <= r.index < size + peeked
    ensures r.Select? && (current < size - 1 || step <= 0) ==>
              r.index < size && (0 <= current + step < size ==> r.index == current + step)
    ensures r.Select? && current == size - 1 && step > 0 ==>
              current < r.index && (current + step < size + peeked ==> r.index == current + step)
  {
    if size == 0 then NoOp
    else
      var atLast := current == size - 1;
      var atFirst := current == 0;
      if atFirst && step < 0 then StayAtFirst
      else
        var newSize := if atLast && step > 0 then size + peeked else size;
        var next := ClampIndex(current, step, newSize);
        if next == newSize - 1 && step > 0 && atLast && newSize == size then ReachedEnd(next)
        else Select(next)
  }

  /** The status line after a row is shown (rows count from 1). */
  function RowStatus(index: int): string {
    "Showing Message in Row: " + ShowInt(index + 1)
  }

  /** The dialog: its busy counter, the disabled split pane, the status text and the selection. */
  class Controller {
    var processCount: int
    var disabled: bool
    var status: string
    var selectedIndex: int

    /** The pane is disabled exactly while some process is running. */
    predicate Valid()
      reads this
    {
      processCount >= 0 && (disabled <==> processCount > 0)
    }

    constructor ()
      ensures Valid() && processCount == 0 && !disabled
      ensures status == "" && selectedIndex == -1
    {
      processCount := 0;
      disabled := false;
      status := "";
      selectedIndex := -1;
    }

    /** startProcees: one more running process; the pane is disabled and the message shown. */
    method StartProcess(message: string)
      modifies this
      ensures processCount == old(processCount) + 1 && disabled && status == message
      ensures selectedIndex == old(selectedIndex)
      ensures old(Valid()) ==> Valid()
    {
      processCount := processCount + 1;
      status := message;
      disabled := true;
    }

    /** endProcess: one process fewer; only when none is left is the counter reset to 0, the
      * message shown and the pane enabled again. */
    method EndProcess(message: string)
      modifies this
      ensures old(processCount) - 1 <= 0 ==> processCount == 0 && !disabled && status == message
      ensures old(processCount) - 1 > 0 ==>
                processCount == old(processCount) - 1 && disabled == old(disabled) && status == old(status)
      ensures selectedIndex == old(selectedIndex)
      ensures old(Valid()) ==> Valid()
    {
      var count := processCount - 1;
      processCount := count;
      if count <= 0 {
        processCount := 0;
        status := message;
        disabled := false;
      }
    }

    /**
     * tableSelect: on a non-empty table one process starts and ends, so the counter comes back
     * to where it was; the selection moves only for a Select outcome.
     */
    method TableSelectRow(size: nat, step: int, peeked: nat) returns (r: Selection)
      requires Valid() && -1 <= selectedIndex < size
      modifies this
      ensures r == TableSelect(size, old(selectedIndex), step, peeked)
      ensures Valid() && processCount == old(processCount)
      ensures r.Select? ==> selectedIndex == r.index
      ensures !r.Select? ==> selectedIndex == old(selectedIndex)
      ensures r.NoOp? ==> status == old(status)
      ensures r.StayAtFirst? && old(processCount) == 0 ==> status == RowStatus(0)
      ensures (r.ReachedEnd? || r.Select?) && old(processCount) == 0 ==> status == RowStatus(r.index)
    {
      r := TableSelect(size, selectedIndex, step, peeked);
      if size == 0 {
        return;
      }
      StartProcess("Loading Messages...");
      match r
      case StayAtFirst =>
        EndProcess(RowStatus(0));
      case ReachedEnd(k) =>
        EndProcess(RowStatus(k));
      case Select(k) =>
        selectedIndex := k;
        EndProcess(RowStatus(k));
    }
  }

  // ----- the custom properties of handleResend -----

  /** A custom-property row takes part in the merge when its key is not blank. */
  predicate Kept(row: PropsTreeTableItem)
    reads row
  {
    IsNotBlank(row.key)
  }

  /**
   * The custom-property rows collected into a map: rows with a blank key are dropped, keys are
   * trimmed, a later row wins over an earlier one with the same trimmed key, and a kept row with
   * a null value makes the collector throw.
   */
  function MergeProps(rows: seq<PropsTreeTableItem>): (r: Result<map<string, string>, string>)
    reads rows
  {
    if rows == [] then Success(map[])
    else
      var init := MergeProps(rows[..|rows| - 1]);
      var row := rows[|rows| - 1];
      if !Kept(row) || init.Failure? then init
      else if row.value.None? then Failure("NullPointerException")
      else Success(init.value[Trim(row.key.value) := row.value.value])
  }

  /** The merge fails exactly when a kept row has a null value. */
  lemma {:induction false} MergePropsFails(rows: seq<PropsTreeTableItem>)
    ensures MergeProps(rows).Failure? <==> exists i :: 0 <= i < |rows| && Kept(rows[i]) && rows[i].value.None?
  {
    if rows != [] {
      var n := |rows| - 1;
      MergePropsFails(rows[..n]);
      assert forall i :: 0 <= i < n ==> rows[i] == rows[..n][i];
    }
  }

  /** A successful merge holds exactly the trimmed keys of the kept rows. */
  lemma {:induction false} MergePropsKeys(rows: seq<PropsTreeTableItem>)
    ensures MergeProps(rows).Success? ==> forall k :: k in MergeProps(rows).value <==>
              exists i :: 0 <= i < |rows| && Kept(rows[i]) && Trim(rows[i].key.value) == k
  {
    if rows != [] && MergeProps(rows).Success? {
      var n := |rows| - 1;
      var init := rows[..n];
      MergePropsKeys(init);
      var m := MergeProps(rows).value;
      assert MergeProps(init).Success?;
      var before := MergeProps(init).value;
      assert forall i :: 0 <= i < n ==> rows[i] == init[i];
      assert m.Keys == if Kept(rows[n]) then before.Keys + {Trim(rows[n].key.value)} else before.Keys;
    }
  }

  /** Each key of a successful merge holds the value of the last kept row with that key. */
  lemma {:induction false} MergePropsValues(rows: seq<PropsTreeTableItem>)
    ensures MergeProps(rows).Success? ==>
              forall i :: (0 <= i < |rows| && Kept(rows[i]) && rows[i].value.Some? &&
                           (forall j :: i < j < |rows| && Kept(rows[j]) ==> Trim(rows[j].key.value) != Trim(rows[i].key.value)))
                          ==> && Trim(rows[i].key.value) in MergeProps(rows).value
                              && MergeProps(rows).value[Trim(rows[i].key.value)] == rows[i].value.value
  {
    if rows != [] {
      var n := |rows| - 1;
      var init := rows[..n];
      MergePropsFails(rows);
      MergePropsKeys(init);
      MergePropsValues(init);
      assert forall i :: 0 <= i < n ==> rows[i] == init[i];
    }
  }

  /** The merged properties as application-property values. */
  function AsValues(props: map<string, string>): (r: map<string, Value>)
    ensures r.Keys == props.Keys
    ensures forall k :: k in r ==> r[k] == Str(props[k])
  {
    map k | k in props :: Str(props[k])
  }

  // ----- collectItemsToMap -----

  /** A node of the property tree: its item (possibly null) and its children. */
  datatype PropsTree = PropsTree(item: Option<PropsTreeTableItem>, children: seq<PropsTree>)

  /** The items of a tree in pre-order. */
  function Flatten(t: PropsTree): seq<PropsTreeTableItem>
    decreases t, |t.children| + 1
  {
    (if t.item.Some? then [t.item.value] else []) + FlattenChildren(t, |t.children|)
  }

  /** The items of the first k subtrees of t, in pre-order. */
  function FlattenChildren(t: PropsTree, k: nat): seq<PropsTreeTableItem>
    requires k <= |t.children|
    decreases t, k
  {
    if k == 0 then [] else FlattenChildren(t, k - 1) + Flatten(t.children[k - 1])
  }

  /** An item is indexed when its field name is not blank. */
  predicate Named(item: PropsTreeTableItem) {
    item.fieldName.Some? && !IsBlank(item.fieldName.value)
  }

  /** The map after putting the named items, in order, into m. */
  function Indexed(m: map<string, PropsTreeTableItem>, items: seq<PropsTreeTableItem>): map<string, PropsTreeTableItem> {
    if items == [] then m
    else
      var last := items[|items| - 1];
      var init := Indexed(m, items[..|items| - 1]);
      if Named(last) then init[last.fieldName.value := last] else init
  }

  lemma {:induction false} IndexedAppend(m: map<string, PropsTreeTableItem>, a: seq<PropsTreeTableItem>, b: seq<PropsTreeTableItem>)
    ensures Indexed(m, a + b) == Indexed(Indexed(m, a), b)
    decreases |b|
  {
    if b != [] {
      assert (a + b)[..|a + b| - 1] == a + b[..|b| - 1];
      var last := b[|b| - 1];
      assert (a + b)[|a + b| - 1] == last;
      IndexedAppend(m, a, b[..|b| - 1]);
      assert Indexed(m, a + b) == if Named(last) then Indexed(m, a + b[..|b| - 1])[last.fieldName.value := last]
                                  else Indexed(m, a + b[..|b| - 1]);
    } else {
      assert a + b == a;
    }
  }

  /** A key is indexed when it was in m or names some item; it maps to the last item naming it. */
  lemma {:induction false} IndexedSpec(m: map<string, PropsTreeTableItem>, items: seq<PropsTreeTableItem>)
    ensures forall k :: k in Indexed(m, items) <==>
              k in m || exists i :: 0 <= i < |items| && Named(items[i]) && items[i].fieldName.value == k
    ensures forall i :: (0 <= i < |items| && Named(items[i]) &&
                         (forall j :: i < j < |items| && Named(items[j]) ==> items[j].fieldName != items[i].fieldName))
                        ==> Indexed(m, items)[items[i].fieldName.value] == items[i]
  {
    if items != [] {
      var init := items[..|items| - 1];
      var n := |items| - 1;
      IndexedSpec(m, init);
      assert forall i :: 0 <= i < n ==> items[i] == init[i];
    }
  }

  /** collectItemsToMap: puts every node with a non-blank field name into the map, visiting the
    * node before its children, so a node later in pre-order overwrites an earlier one. */
  method CollectItemsToMap(node: PropsTree, m: map<string, PropsTreeTableItem>) returns (r: map<string, PropsTreeTableItem>)
    ensures r == Indexed(m, Flatten(node))
    decreases node
  {
    r := m;
    var own: seq<PropsTreeTableItem> := [];
    if node.item.Some? {
      var item := node.item.value;
      own := [item];
      var fieldName := item.fieldName;
      if fieldName.Some? && !IsBlank(fieldName.value) {
        r := r[fieldName.value := item];
      }
    }
    assert r == Indexed(m, own) by {
      assert own == [] || own[..0] == [];
    }
    var base := r;
    var i := 0;
    while i < |node.children|
      invariant 0 <= i <= |node.children|
      invariant r == Indexed(base, FlattenChildren(node, i))
    {
      var child := node.children[i];
      r := CollectItemsToMap(child, r);
      IndexedAppend(base, FlattenChildren(node, i), Flatten(child));
      i := i + 1;
    }
    assert Flatten(node) == own + FlattenChildren(node, i);
    IndexedAppend(m, own, FlattenChildren(node, i));
  }

  // ----- createServiceBusMessageData -----

  /** A field read from the tree's index: the item's value, or "" when no item carries that
    * field name (the value of the placeholder item with a null value). */
  function FieldText(fields: map<string, PropsTreeTableItem>, name: string): Option<string>
    reads fields.Values
  {
    if name in fields then fields[name].value else Some("")
  }

  /** The header createServiceBusMessageData fills from the index; the time-to-live stays null. */
  function FormHeader(fields: map<string, PropsTreeTableItem>, parsedTime: Option<Timestamp>): Header
    reads fields.Values
  {
    EMPTY_HEADER.(
      messageId := FieldText(fields, "messageId"),
      correlationId := FieldText(fields, "correlationId"),
      to := FieldText(fields, "to"),
      replyTo := FieldText(fields, "replyTo"),
      subject := FieldText(fields, "subject"),
      contentType := FieldText(fields, "contentType"),
      replyToSessionId := FieldText(fields, "replyToSessionId"),
      sessionId := FieldText(fields, "sessionId"),
      partitionKey := FieldText(fields, "partitionKey"),
      scheduledEnqueueTime := Utils.ParseOffsetDateTime(FieldText(fields, "scheduledEnqueueTime"), parsedTime))
  }

  /** A field no item names reads as "", and a named field reads as its last item's value. */
  lemma FieldTextSpec(root: PropsTree, name: string)
    ensures var items := Flatten(root);
            (forall i :: 0 <= i < |items| && Named(items[i]) ==> items[i].fieldName.value != name)
              ==> FieldText(Indexed(map[], items), name) == Some("")
    ensures var items := Flatten(root);
            forall i :: (0 <= i < |items| && Named(items[i]) && items[i].fieldName.value == name &&
                         (forall j :: i < j < |items| && Named(items[j]) ==> items[j].fieldName != items[i].fieldName))
                        ==> FieldText(Indexed(map[], items), name) == items[i].value
  {
    IndexedSpec(map[], Flatten(root));
  }

  /** The header fields createServiceBusMessageData reads from the tree's field index. */
  method ReadForm(root: PropsTree, parsedTime: Option<Timestamp>) returns (h: Header)
    ensures h == FormHeader(Indexed(map[], Flatten(root)), parsedTime)
  {
    var fields := CollectItemsToMap(root, map[]);
    h := FormHeader(fields, parsedTime);
  }

  /** The ten setter calls: the record's header becomes h; its time-to-live is not touched. */
  method SetHeader(r: ServiceBusMessageData, h: Header)
    requires h.timeToLive == r.timeToLive
    modifies r
    ensures r.Snapshot() == old(r.Snapshot()).(header := h)
  {
    r.messageId, r.correlationId, r.to, r.replyTo, r.subject := h.messageId, h.correlationId, h.to, h.replyTo, h.subject;
    r.contentType, r.replyToSessionId, r.sessionId, r.partitionKey := h.contentType, h.replyToSessionId, h.sessionId, h.partitionKey;
    r.scheduledEnqueueTime := h.scheduledEnqueueTime;
  }

  /**
   * createServiceBusMessageData: a fresh record holding the editor text as its body; with a tree
   * root, the nine header texts and the scheduled time are read from the tree's field index.
   * `parsedTime` is what the date-time parser yields for the scheduled-time text.
   */
  method CreateServiceBusMessageData(text: string, root: Option<PropsTree>, parsedTime: Option<Timestamp>)
    returns (r: ServiceBusMessageData)
    ensures fresh(r)
    ensures root.None? ==> r.Snapshot() == EMPTY_RECORD.(body := Some(text))
    ensures root.Some? ==> r.Snapshot() == EMPTY_RECORD.(
              header := old(FormHeader(Indexed(map[], Flatten(root.value)), parsedTime)), body := Some(text))
  {
    var h := EMPTY_HEADER;
    if root.Some? {
      h := ReadForm(root.value, parsedTime);
      assert h == old(FormHeader(Indexed(map[], Flatten(root.value)), parsedTime));
    }
    r := new ServiceBusMessageData();
    r.SetBody(Some(text));
    if root.None? {
      return;
    }
    SetHeader(r, h);
  }

  /**
   * The record handleResend submits: the form's record with the merged custom properties added
   * to its (empty) property map; a kept row with a null value makes the merge throw.
   */
  method PrepareResend(text: string, root: Option<PropsTree>, parsedTime: Option<Timestamp>,
                       rows: seq<PropsTreeTableItem>)
    returns (r: Result<ServiceBusMessageData, string>)
    ensures r.Success? <==> MergeProps(rows).Success?
    ensures r.Success? ==> fresh(r.value)
    ensures r.Success? && root.None? ==> r.value.Snapshot() == EMPTY_RECORD.(
              applicationProperties := Some(AsValues(MergeProps(rows).value)), body := Some(text))
    ensures r.Success? && root.Some? ==> r.value.Snapshot() == EMPTY_RECORD.(
              header := old(FormHeader(Indexed(map[], Flatten(root.value)), parsedTime)),
              applicationProperties := Some(AsValues(MergeProps(rows).value)), body := Some(text))
  {
    var data := CreateServiceBusMessageData(text, root, parsedTime);
    var props := MergeProps(rows);
    if props.Failure? {
      return Failure(props.error);
    }
    var ok := data.PutAllProperties(AsValues(props.value));
    assert map[] + AsValues(props.value) == AsValues(props.value);
    r := Success(data);
  }
}
