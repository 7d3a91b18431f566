/**
 * FxClipboardCopyHandler: the tab- and newline-separated text copied from selected table cells,
 * the text copied from a selected tree item, and the Ctrl/Cmd+C key filter that puts it on the
 * system clipboard.
 */
module Clipboard {
  import opened Wrappers
  import opened Text

  // ----- copySelectedCells -----

  /** A selected table cell: its row and the column's cell data as text (None for null). */
  datatype Cell = Cell(row: nat, data: Option<string>)

  /** A null cell contributes "". */
  function CellText(c: Cell): string {
    c.data.GetOr("")
  }

  /** Between two consecutive selected cells: a tab within a row, a newline across rows. */
  function Separator(prev: Cell, next: Cell): string {
    if prev.row == next.row then "\t" else "\n"
  }

  /** The copied text: each cell's text, with the separator between consecutive cells and none
    * before the first. */
  function TsvText(cells: seq<Cell>): string
    requires cells != []
  {
    var n := |cells| - 1;
    if n == 0 then CellText(cells[0])
    else TsvText(cells[..n]) + Separator(cells[n - 1], cells[n]) + CellText(cells[n])
  }

  /** copySelectedCells: null for an empty selection, otherwise the selection's text. */
  method CopySelectedCells(cells: seq<Cell>) returns (text: Option<string>)
    ensures text.None? <==> cells == []
    ensures text.Some? ==> text.value == TsvText(cells)
  {
    if |cells| == 0 {
      return None;
    }
    var sb := "";
    var lastRow: int := -1;
    for i := 0 to |cells|
      invariant i == 0 ==> sb == "" && lastRow == -1
      invariant i > 0 ==> sb == TsvText(cells[..i]) && lastRow == cells[i - 1].row
    {
      var row := cells[i].row;
      if lastRow == row {
        sb := sb + "\t";
      } else if lastRow != -1 {
        sb := sb + "\n";
      }
      sb := sb + CellText(cells[i]);
      lastRow := row;
      assert cells[..i + 1][..i] == cells[..i];
    }
    assert cells[..|cells|] == cells;
    return Some(sb);
  }

  /** The number of occurrences of c in s. */
  function Count(s: string, c: char): nat {
    if s == [] then 0 else (if s[0] == c then 1 else 0) + Count(s[1..], c)
  }

  lemma {:induction false} CountAppend(a: string, b: string, c: char)
    ensures Count(a + b, c) == Count(a, c) + Count(b, c)
  {
    if a == [] {
      assert a + b == b;
    } else {
      CountAppend(a[1..], b, c);
      assert (a + b)[1..] == a[1..] + b;
    }
  }

  /** The number of consecutive pairs of selected cells on different rows. */
  function RowChanges(cells: seq<Cell>): nat {
    if |cells| < 2 then 0
    else
      var n := |cells| - 1;
      RowChanges(cells[..n]) + (if cells[n - 1].row != cells[n].row then 1 else 0)
  }

  /** No cell text holds a tab or a newline. */
  predicate PlainCells(cells: seq<Cell>) {
    forall i :: 0 <= i < |cells| ==> Count(CellText(cells[i]), '\t') == 0 && Count(CellText(cells[i]), '\n') == 0
  }

  /** When no cell holds a tab or a newline, there is one separator fewer than cells, and the
    * newlines are exactly the row changes. */
  lemma {:induction false} SeparatorCounts(cells: seq<Cell>)
    requires cells != [] && PlainCells(cells)
    ensures Count(TsvText(cells), '\t') + Count(TsvText(cells), '\n') == |cells| - 1
    ensures Count(TsvText(cells), '\n') == RowChanges(cells)
  {
    var n := |cells| - 1;
    if n > 0 {
      var init := cells[..n];
      assert PlainCells(init) by {
        forall i | 0 <= i < |init| ensures init[i] == cells[i] { }
      }
      SeparatorCounts(init);
      var sep := Separator(cells[n - 1], cells[n]);
      CountAppend(TsvText(init), sep, '\t');
      CountAppend(TsvText(init), sep, '\n');
      CountAppend(TsvText(init) + sep, CellText(cells[n]), '\t');
      CountAppend(TsvText(init) + sep, CellText(cells[n]), '\n');
      assert Count(sep, '\t') == (if sep == "\t" then 1 else 0);
      assert Count(sep, '\n') == (if sep == "\n" then 1 else 0);
    }
  }

  /** The text opens with the first cell's text: there is no leading separator. */
  lemma {:induction false} TsvTextStartsWithFirstCell(cells: seq<Cell>)
    requires cells != []
    ensures CellText(cells[0]) <= TsvText(cells)
  {
    var n := |cells| - 1;
    if n > 0 {
      TsvTextStartsWithFirstCell(cells[..n]);
      assert cells[..n][0] == cells[0];
    }
  }

  /** A selection of null cells copies only tabs and newlines, which is blank text, so the
    * key filter leaves the clipboard alone. */
  lemma {:induction false} NullCellsCopyBlank(cells: seq<Cell>)
    requires cells != []
    requires forall i :: 0 <= i < |cells| ==> cells[i].data.None?
    ensures IsBlank(TsvText(cells))
  {
    var n := |cells| - 1;
    if n > 0 {
      NullCellsCopyBlank(cells[..n]);
      var t := TsvText(cells[..n]) + Separator(cells[n - 1], cells[n]);
      assert TsvText(cells) == t;
      assert forall k :: |TsvText(cells[..n])| <= k < |t| ==> t[k] == '\t' || t[k] == '\n';
    }
  }

  // ----- copySelectedTreeItem -----

  /** copySelectedTreeItem: the selected item's value as text; null without a selected item or
    * when its value is null. `selected` is the selected item, holding its value's text. */
  function CopySelectedTreeItem(selected: Option<Option<string>>): (r: Option<string>)
    ensures r.Some? <==> selected.Some? && selected.value.Some?
    ensures r.Some? ==> r == selected.value
  {
    if selected.Some? && selected.value.Some? then selected.value else None
  }

  // ----- enableCopy -----

  datatype KeyCode = C | OtherKey

  datatype KeyEvent = KeyEvent(controlDown: bool, metaDown: bool, code: KeyCode)

  /** The control the filter is installed on, with what is selected in it. */
  datatype Control =
    | TableControl(cells: seq<Cell>)
    | TreeControl(selected: Option<Option<string>>)
    | OtherControl

  /** Ctrl+C or Cmd+C. */
  predicate IsCopyKey(e: KeyEvent) {
    (e.controlDown || e.metaDown) && e.code == C
  }

  /** The text a copy key takes from the control: the selected cells' text, the selected tree
    * value, or null for any other control. */
  function CopiedText(control: Control): (r: Option<string>)
    ensures control.TableControl? ==> (r.None? <==> control.cells == [])
    ensures control.TreeControl? ==> r == CopySelectedTreeItem(control.selected)
    ensures control.OtherControl? ==> r.None?
  {
    match control
    case TableControl(cells) => if cells == [] then None else Some(TsvText(cells))
    case TreeControl(selected) => CopySelectedTreeItem(selected)
    case OtherControl => None
  }

  /** The system clipboard's string content. */
  class SystemClipboard {
    var content: Option<string>

    constructor (content: Option<string>)
      ensures this.content == content
    {
      this.content := content;
    }
  }

  /** The key-pressed filter: a copy key puts the copied text on the clipboard when it is not
    * blank, and is consumed either way; any other key passes through untouched. */
  method HandleKeyPressed(event: KeyEvent, control: Control, clipboard: SystemClipboard)
    returns (consumed: bool)
    modifies clipboard
    ensures consumed == IsCopyKey(event)
    ensures IsCopyKey(event) && IsNotBlank(CopiedText(control)) ==>
              clipboard.content == CopiedText(control)
    ensures !(IsCopyKey(event) && IsNotBlank(CopiedText(control))) ==>
              clipboard.content == old(clipboard.content)
  {
    consumed := false;
    if (event.controlDown || event.metaDown) && event.code == C {
      var text: Option<string> := None;
      match control {
        case TableControl(cells) =>
          text := CopySelectedCells(cells);
        case TreeControl(selected) =>
          text := CopySelectedTreeItem(selected);
        case OtherControl =>
      }
      if text.Some? && !IsBlank(text.value) {
        clipboard.content := text;
      }
      consumed := true;
    }
  }
}
