/**
 * ConnectionDialogController: the table of saved connections, the namespace read out of a
 * connection string, the cell-edit commits and the entries written on save.
 */
module ConnectionDialog {
  import opened Wrappers
  import opened Text
  import opened Lists

  // ----- the namespace pattern sb://([^.]+)\.servicebus\.windows\.net -----

  const PREFIX: string := "sb://"
  const SUFFIX: string := ".servicebus.windows.net"

  /** The end of the run of non-'.' characters that starts at i. */
  function NonDotRun(text: string, i: nat): (k: nat)
    requires i <= |text|
    ensures i <= k <= |text|
    ensures forall j :: i <= j < k ==> text[j] != '.'
    ensures k < |text| ==> text[k] == '.'
    decreases |text| - i
  {
    if i == |text| || text[i] == '.' then i else NonDotRun(text, i + 1)
  }

  /** The pattern matches at p with `x` as its group: "sb://", then x (non-empty, no '.'), then
    * ".servicebus.windows.net". */
  ghost predicate MatchesAt(text: string, p: int, x: string) {
    && OccursAt(text, PREFIX, p)
    && |x| > 0
    && (forall j :: 0 <= j < |x| ==> x[j] != '.')
    && OccursAt(text, x, p + |PREFIX|)
    && OccursAt(text, SUFFIX, p + |PREFIX| + |x|)
  }

  /** The group of a match that starts at p, None when the pattern does not match there. The
    * greedy `[^.]+` can only stop at the first '.', so there is at most one match at p. */
  function MatchAt(text: string, p: nat): (r: Option<string>)
    requires p <= |text|
    ensures forall x :: MatchesAt(text, p, x) <==> r == Some(x)
  {
    var start := p + |PREFIX|;
    if OccursAt(text, PREFIX, p) then
      var k := NonDotRun(text, start);
      if k > start && OccursAt(text, SUFFIX, k) then
        var x := text[start..k];
        assert MatchesAt(text, p, x) by {
          assert OccursAt(text, x, start);
        }
        assert forall y :: MatchesAt(text, p, y) ==> y == x by {
          forall y | MatchesAt(text, p, y) ensures y == x {
            GroupEndsAtDot(text, p, y);
          }
        }
        Some(x)
      else
        assert forall y :: !MatchesAt(text, p, y) by {
          forall y | MatchesAt(text, p, y) ensures false {
            GroupEndsAtDot(text, p, y);
          }
        }
        None
    else
      None
  }

  /** A group runs from the end of "sb://" up to the first '.' after it. */
  lemma GroupEndsAtDot(text: string, p: int, x: string)
    requires MatchesAt(text, p, x)
    ensures NonDotRun(text, p + |PREFIX|) == p + |PREFIX| + |x|
    ensures text[p + |PREFIX|..p + |PREFIX| + |x|] == x
  {
    var start := p + |PREFIX|;
    var m := start + |x|;
    assert text[m] == SUFFIX[0];
    assert forall j :: start <= j < m ==> text[j] == x[j - start];
  }

  /** Matcher.find from p on: the group of the first match starting at or after p. */
  function FindNamespace(text: string, p: nat): (r: Option<string>)
    requires p <= |text|
    ensures r.None? <==> forall q, x :: p <= q && MatchesAt(text, q, x) ==> false
    ensures r.Some? ==> exists q :: p <= q && MatchesAt(text, q, r.value) && NoMatchIn(text, p, q)
    decreases |text| - p
  {
    match MatchAt(text, p)
    case Some(x) =>
      assert MatchesAt(text, p, x) && NoMatchIn(text, p, p);
      Some(x)
    case None =>
      if p == |text| then
        assert forall q, x :: p <= q && MatchesAt(text, q, x) ==> q == p;
        None
      else
        var r := FindNamespace(text, p + 1);
        if r.Some? then
          FirstMatchFrom(text, p, r.value);
          r
        else
          r
  }

  /** A first match after p is the first match from p on when none starts at p. */
  lemma FirstMatchFrom(text: string, p: nat, x: string)
    requires forall y :: !MatchesAt(text, p, y)
    requires exists q :: p + 1 <= q && MatchesAt(text, q, x) && NoMatchIn(text, p + 1, q)
    ensures exists q :: p <= q && MatchesAt(text, q, x) && NoMatchIn(text, p, q)
  {
    var q :| p + 1 <= q && MatchesAt(text, q, x) && NoMatchIn(text, p + 1, q);
    assert NoMatchIn(text, p, q);
  }

  /** No match starts in [lo, hi). */
  ghost predicate NoMatchIn(text: string, lo: int, hi: int) {
    forall q, x :: lo <= q < hi ==> !MatchesAt(text, q, x)
  }

  /** The namespace addRow stores: the group of the first match, "" when there is none. */
  function Namespace(text: string): string {
    FindNamespace(text, 0).GetOr("")
  }

  /** The namespace is "" exactly when the pattern occurs nowhere; otherwise it is the group of
    * the leftmost match. */
  lemma NamespaceSpec(text: string)
    ensures Namespace(text) == "" <==> forall q, x :: !MatchesAt(text, q, x)
    ensures Namespace(text) != "" ==>
              exists p :: MatchesAt(text, p, Namespace(text)) && NoMatchIn(text, 0, p)
  {
    var r := FindNamespace(text, 0);
    if r.Some? {
      assert r.value != [] by {
        var p :| 0 <= p && MatchesAt(text, p, r.value) && NoMatchIn(text, 0, p);
      }
    }
  }

  // ----- the table of entries -----

  /** record ConnectionEntry(nameSpace, connectionString); either may be null. */
  datatype ConnectionEntry = ConnectionEntry(nameSpace: Option<string>, connectionString: Option<string>)

  /** The two editable columns. */
  datatype Column = NameSpaceColumn | ConnectionStringColumn

  /** The entry a commit of `newValue` in `column` builds: the other column is kept. */
  function Edited(e: ConnectionEntry, column: Column, newValue: Option<string>): (r: ConnectionEntry)
    ensures column == NameSpaceColumn ==> r.nameSpace == newValue && r.connectionString == e.connectionString
    ensures column == ConnectionStringColumn ==> r.connectionString == newValue && r.nameSpace == e.nameSpace
  {
    match column
    case NameSpaceColumn => ConnectionEntry(newValue, e.connectionString)
    case ConnectionStringColumn => ConnectionEntry(e.nameSpace, newValue)
  }

  /** The index an edit commit writes to: data.indexOf(rowValue), the first entry equal to the
    * edited row's. It is the edited row exactly when no equal entry comes before it. */
  function CommitIndex(data: seq<ConnectionEntry>, row: nat): (i: nat)
    requires row < |data|
    ensures i <= row && data[i] == data[row]
    ensures i == row <==> data[row] !in data[..row]
  {
    var i := IndexOf(data, data[row]);
    assert data[row] in data;
    i
  }

  /** With two equal entries, committing an edit on the second one rewrites the first and
    * leaves the edited row as it was. */
  lemma EditCommitHitsFirstDuplicate(e: ConnectionEntry, column: Column, newValue: Option<string>)
    requires Edited(e, column, newValue) != e
    ensures var data := [e, e];
            var after := data[CommitIndex(data, 1) := Edited(data[1], column, newValue)];
            after[1] == e && after[0] != e
  {
    var data := [e, e];
    assert data[..1] == [e];
    assert CommitIndex(data, 1) == 0;
  }

  /** Edits through the corrected commit: the edited row gets the new value in the edited
    * column; every other row and the other column are kept. */
  lemma EditAtRowSpec(data: seq<ConnectionEntry>, row: nat, column: Column, newValue: Option<string>)
    requires row < |data|
    ensures var after := data[row := Edited(data[row], column, newValue)];
            && |after| == |data|
            && (forall i :: 0 <= i < |data| && i != row ==> after[i] == data[i])
            && (column == NameSpaceColumn ==>
                  after[row].nameSpace == newValue && after[row].connectionString == data[row].connectionString)
            && (column == ConnectionStringColumn ==>
                  after[row].connectionString == newValue && after[row].nameSpace == data[row].nameSpace)
  {
  }

  // ----- saveToProperties -----

  /** An entry is written when its namespace is non-null and not empty once trimmed. */
  predicate Saved(e: ConnectionEntry) {
    e.nameSpace.Some? && Trim(e.nameSpace.value) != ""
  }

  /** The properties written for `entries`, in order: a later entry overwrites an earlier one
    * with the same namespace, and a null connection string is written as "". */
  function SavedProperties(entries: seq<ConnectionEntry>): map<string, string> {
    if entries == [] then map[]
    else
      var e := entries[|entries| - 1];
      var m := SavedProperties(entries[..|entries| - 1]);
      if Saved(e) then m[e.nameSpace.value := e.connectionString.GetOr("")] else m
  }

  /** No entry after i has the namespace of entry i. */
  ghost predicate LastWithNamespace(entries: seq<ConnectionEntry>, i: int)
    requires 0 <= i < |entries|
  {
    forall j :: i < j < |entries| ==> entries[j].nameSpace != entries[i].nameSpace
  }

  /** Exactly the namespaces of the written entries are keys. */
  lemma {:induction false} SavedKeys(entries: seq<ConnectionEntry>)
    ensures forall i :: 0 <= i < |entries| && Saved(entries[i]) ==>
              entries[i].nameSpace.value in SavedProperties(entries)
    ensures forall k :: k in SavedProperties(entries) ==>
              exists i :: 0 <= i < |entries| && Saved(entries[i]) && entries[i].nameSpace == Some(k)
  {
    if entries != [] {
      var n := |entries| - 1;
      var init := entries[..n];
      SavedKeys(init);
      assert forall i :: 0 <= i < n ==> init[i] == entries[i];
    }
  }

  /** Each key maps to the connection string (or "") of the last written entry with that
    * namespace. */
  lemma {:induction false} SavedValues(entries: seq<ConnectionEntry>)
    ensures forall i :: 0 <= i < |entries| && Saved(entries[i]) && LastWithNamespace(entries, i) ==>
              && entries[i].nameSpace.value in SavedProperties(entries)
              && SavedProperties(entries)[entries[i].nameSpace.value] == entries[i].connectionString.GetOr("")
  {
    if entries != [] {
      var n := |entries| - 1;
      var init := entries[..n];
      SavedKeys(init);
      SavedValues(init);
      forall i | 0 <= i < |entries| && Saved(entries[i]) && LastWithNamespace(entries, i)
        ensures && entries[i].nameSpace.value in SavedProperties(entries)
                && SavedProperties(entries)[entries[i].nameSpace.value] == entries[i].connectionString.GetOr("")
      {
        if i < n {
          assert init[i] == entries[i];
          assert LastWithNamespace(init, i);
        }
      }
    }
  }

  /** Entries with a blank namespace leave no key behind. */
  lemma BlankNamespaceNotSaved(entries: seq<ConnectionEntry>, k: string)
    requires forall i :: 0 <= i < |entries| && entries[i].nameSpace == Some(k) ==> Trim(k) == ""
    ensures k !in SavedProperties(entries)
  {
    SavedKeys(entries);
  }

  /** The dialog's table of connections. */
  class ConnectionTable {
    var data: seq<ConnectionEntry>

    constructor ()
      ensures data == []
    {
      data := [];
    }

    /** addRow: a non-blank text adds one entry with its namespace (or "") and the text. */
    method AddRow(text: Option<string>)
      modifies this
      ensures IsNotBlank(text) ==> data == old(data) + [ConnectionEntry(Some(Namespace(text.value)), text)]
      ensures !IsNotBlank(text) ==> data == old(data)
    {
      if IsNotBlank(text) {
        var nameSpace := Namespace(text.value);
        data := data + [ConnectionEntry(Some(nameSpace), text)];
      }
    }

    /** removeRow: removes the first entry equal to the selected one; no-op without a selection. */
    method RemoveRow(selected: Option<ConnectionEntry>)
      modifies this
      ensures selected.None? ==> data == old(data)
      ensures selected.Some? ==> data == RemoveFirst(old(data), selected.value)
    {
      if selected.Some? {
        data := RemoveFirst(data, selected.value);
      }
    }

    /** The edit commit as the column handlers do it: the new entry is written at the index of
      * the first entry equal to the edited row. */
    method CommitEdit(row: nat, column: Column, newValue: Option<string>)
      requires row < |data|
      modifies this
      ensures data == old(data)[CommitIndex(old(data), row) := Edited(old(data)[row], column, newValue)]
    {
      var index := CommitIndex(data, row);
      data := data[index := Edited(data[row], column, newValue)];
    }

    /** The edit commit writing to the edited row itself. */
    method CommitEditAt(row: nat, column: Column, newValue: Option<string>)
      requires row < |data|
      modifies this
      ensures data == old(data)[row := Edited(old(data)[row], column, newValue)]
    {
      data := data[row := Edited(data[row], column, newValue)];
    }

    /** The properties saveToProperties fills before storing them. */
    method SaveToProperties() returns (properties: map<string, string>)
      ensures properties == SavedProperties(data)
    {
      properties := map[];
      var i := 0;
      while i < |data|
        invariant 0 <= i <= |data|
        invariant properties == SavedProperties(data[..i])
      {
        var entry := data[i];
        assert data[..i + 1][..i] == data[..i];
        if entry.nameSpace.Some? && Trim(entry.nameSpace.value) != "" {
          properties := properties[entry.nameSpace.value := entry.connectionString.GetOr("")];
        }
        i := i + 1;
      }
      assert data[..i] == data;
    }
  }
}
