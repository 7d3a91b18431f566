/**
 * GenericTableHelper: row insertion, deletion and an in-memory copy buffer over a table's items.
 * The selection model is read through parameters: `selectedIndex` is the selected row (-1 for
 * none) and `selectedItems` the selected rows; `newRow` is what the row factory supplies.
 */
module GenericTable {

  /** Where a new row or pasted rows go: after the selected row, or at the end without one. */
  function InsertionPoint(size: nat, selectedIndex: int): (p: nat)
    requires -1 <= selectedIndex < size
    ensures p <= size
    ensures selectedIndex >= 0 ==> p == selectedIndex + 1
    ensures selectedIndex == -1 ==> p == size
  {
    var index := if selectedIndex < 0 then size - 1 else selectedIndex;
    index + 1
  }

  /** List.add(p, ·) / List.addAll(p, ·): `xs` placed before position p, in order. */
  function InsertAt<T>(s: seq<T>, p: nat, xs: seq<T>): (r: seq<T>)
    requires p <= |s|
    ensures |r| == |s| + |xs|
    ensures r[..p] == s[..p] && r[p..p + |xs|] == xs && r[p + |xs|..] == s[p..]
    ensures r[..p] + r[p + |xs|..] == s
    ensures multiset(r) == multiset(s) + multiset(xs)
  {
    var r := s[..p] + xs + s[p..];
    assert r[..p] == s[..p];
    assert r[p..p + |xs|] == xs;
    assert r[p + |xs|..] == s[p..];
    assert s == s[..p] + s[p..];
    r
  }

  /** List.removeAll(selected): drops every row equal to some selected row, keeping the order
    * of the rest. */
  function RemoveAll<T(==,!new)>(rows: seq<T>, selected: seq<T>): (r: seq<T>)
    ensures |r| <= |rows|
  {
    if rows == [] then []
    else
      var rest := RemoveAll(rows[1..], selected);
      if rows[0] in selected then rest else [rows[0]] + rest
  }

  /** A row survives exactly when it equals no selected row, with all its copies. */
  lemma {:induction false} RemoveAllSpec<T(!new)>(rows: seq<T>, selected: seq<T>)
    ensures forall x :: x in RemoveAll(rows, selected) <==> x in rows && x !in selected
    ensures forall x :: multiset(RemoveAll(rows, selected))[x] ==
              if x in selected then 0 else multiset(rows)[x]
  {
    if rows != [] {
      RemoveAllSpec(rows[1..], selected);
      assert rows == [rows[0]] + rows[1..];
    }
  }

  /** Removing nothing keeps every row; removing twice is removing once. */
  lemma RemoveAllIdempotent<T(!new)>(rows: seq<T>, selected: seq<T>)
    ensures RemoveAll(rows, []) == rows
    ensures RemoveAll(RemoveAll(rows, selected), selected) == RemoveAll(rows, selected)
  {
    if rows != [] {
      RemoveAllIdempotent(rows[1..], selected);
    }
  }

  /** Pasting rows that are not yet in the table and cutting them again restores it. */
  lemma {:induction false} CutUndoesPaste<T(!new)>(rows: seq<T>, p: nat, buffer: seq<T>)
    requires p <= |rows|
    requires forall x :: x in buffer ==> x !in rows
    ensures RemoveAll(InsertAt(rows, p, buffer), buffer) == rows
  {
    var front, back := rows[..p], rows[p..];
    assert rows == front + back;
    calc {
      RemoveAll(InsertAt(rows, p, buffer), buffer);
      RemoveAll((front + buffer) + back, buffer);
      { RemoveAllAppend(front + buffer, back, buffer); }
      RemoveAll(front + buffer, buffer) + RemoveAll(back, buffer);
      { RemoveAllAppend(front, buffer, buffer); }
      RemoveAll(front, buffer) + RemoveAll(buffer, buffer) + RemoveAll(back, buffer);
      { RemoveAllKeeps(front, buffer); RemoveAllKeeps(back, buffer); RemoveAllDrops(buffer); }
      front + [] + back;
      rows;
    }
  }

  lemma {:induction false} RemoveAllKeeps<T(!new)>(rows: seq<T>, selected: seq<T>)
    requires forall x :: x in rows ==> x !in selected
    ensures RemoveAll(rows, selected) == rows
  {
    if rows != [] {
      RemoveAllKeeps(rows[1..], selected);
    }
  }

  lemma {:induction false} RemoveAllDrops<T(!new)>(selected: seq<T>)
    ensures RemoveAll(selected, selected) == []
  {
    RemoveAllSpec(selected, selected);
  }

  lemma {:induction false} RemoveAllAppend<T(!new)>(a: seq<T>, b: seq<T>, selected: seq<T>)
    ensures RemoveAll(a + b, selected) == RemoveAll(a, selected) + RemoveAll(b, selected)
  {
    if a == [] {
      assert a + b == b;
    } else {
      var ab := a + b;
      assert ab[0] == a[0];
      assert ab[1..] == a[1..] + b;
      if a[0] in selected {
        calc {
          RemoveAll(ab, selected);
          RemoveAll(a[1..] + b, selected);
          { RemoveAllAppend(a[1..], b, selected); }
          RemoveAll(a[1..], selected) + RemoveAll(b, selected);
          RemoveAll(a, selected) + RemoveAll(b, selected);
        }
      } else {
        calc {
          RemoveAll(ab, selected);
          [a[0]] + RemoveAll(a[1..] + b, selected);
          { RemoveAllAppend(a[1..], b, selected); }
          [a[0]] + (RemoveAll(a[1..], selected) + RemoveAll(b, selected));
          ([a[0]] + RemoveAll(a[1..], selected)) + RemoveAll(b, selected);
          RemoveAll(a, selected) + RemoveAll(b, selected);
        }
      }
    }
  }

  /** The table's items and the helper's copy buffer. */
  class TableHelper<T(==,!new)> {
    var rows: seq<T>
    var buffer: seq<T>

    constructor (rows: seq<T>)
      ensures this.rows == rows && buffer == []
    {
      this.rows := rows;
      buffer := [];
    }

    /** addRowAfterSelection: a fresh row after the selected one (at the end without one), and
      * the new row becomes the selection. */
    method AddRowAfterSelection(selectedIndex: int, newRow: T) returns (selected: nat)
      requires -1 <= selectedIndex < |rows|
      modifies this
      ensures selected == InsertionPoint(|old(rows)|, selectedIndex)
      ensures rows == InsertAt(old(rows), selected, [newRow]) && rows[selected] == newRow
      ensures buffer == old(buffer)
    {
      var index := selectedIndex;
      if index < 0 {
        index := |rows| - 1;
      }
      rows := InsertAt(rows, index + 1, [newRow]);
      selected := index + 1;
    }

    /** addRowIfLastSelected: adds a row at the end only when the last row is selected (an
      * empty table with no selection counts); returns the selection afterwards. */
    method AddRowIfLastSelected(selectedIndex: int, newRow: T) returns (selected: int)
      requires -1 <= selectedIndex < |rows|
      modifies this
      ensures selectedIndex == |old(rows)| - 1 ==>
                rows == old(rows) + [newRow] && selected == |old(rows)|
      ensures selectedIndex != |old(rows)| - 1 ==> rows == old(rows) && selected == selectedIndex
      ensures buffer == old(buffer)
    {
      var lastIndex := |rows| - 1;
      selected := selectedIndex;
      if selectedIndex == lastIndex {
        selected := AddRowAfterSelection(selectedIndex, newRow);
      }
    }

    /** deleteSelection: removes every row equal to a selected row. */
    method DeleteSelection(selectedItems: seq<T>)
      modifies this
      ensures rows == RemoveAll(old(rows), selectedItems)
      ensures buffer == old(buffer)
    {
      rows := RemoveAll(rows, selectedItems);
    }

    /** copySelection: the buffer becomes the selected rows; the table is unchanged. */
    method CopySelection(selectedItems: seq<T>)
      modifies this
      ensures buffer == selectedItems && rows == old(rows)
    {
      buffer := selectedItems;
    }

    /** cutSelection: copy, then delete, so the buffer holds the rows taken out. */
    method CutSelection(selectedItems: seq<T>)
      modifies this
      ensures buffer == selectedItems
      ensures rows == RemoveAll(old(rows), selectedItems)
    {
      CopySelection(selectedItems);
      DeleteSelection(selectedItems);
    }

    /** pasteSelection: nothing with an empty buffer; otherwise the buffer, in order, after the
      * selected row (at the end without one). */
    method PasteSelection(selectedIndex: int)
      requires -1 <= selectedIndex < |rows|
      modifies this
      ensures old(buffer) == [] ==> rows == old(rows)
      ensures old(buffer) != [] ==>
                rows == InsertAt(old(rows), InsertionPoint(|old(rows)|, selectedIndex), old(buffer))
      ensures |rows| == |old(rows)| + |old(buffer)|
      ensures buffer == old(buffer)
    {
      if buffer == [] {
        return;
      }
      var index := selectedIndex;
      if index < 0 {
        index := |rows| - 1;
      }
      rows := InsertAt(rows, index + 1, buffer);
    }
  }
}
