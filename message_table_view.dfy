/**
 * MainUIMessageTableViewManager: the two message tables (active and dead-letter) of the main
 * window, the paging cursor that lets repeated peeks walk through an entity, and the body-size
 * column.
 */
module MessageTableView {
  import opened Wrappers
  import opened Messages
  import opened NodeTypes
  import opened DataTreeItems
  import MessageUtils

  // ----- the broker's peek -----

  /** The broker keeps an entity's messages in strictly increasing sequence-number order. */
  predicate Sorted(q: seq<ReceivedMessage>) {
    forall i, j :: 0 <= i < j < |q| ==> q[i].sequenceNumber < q[j].sequenceNumber
  }

  /** The messages whose sequence number is at least `from`, in their order. */
  function AtOrAfter(q: seq<ReceivedMessage>, from: int): (r: seq<ReceivedMessage>)
    ensures |r| <= |q|
  {
    if q == [] then []
    else (if q[0].sequenceNumber >= from then [q[0]] else []) + AtOrAfter(q[1..], from)
  }

  /**
   * receiver.peekMessages(count, from): at most `count` messages, starting with the first one
   * whose sequence number is at least `from`, without locking or removing anything.
   */
  function Peek(q: seq<ReceivedMessage>, from: int, count: nat): (r: seq<ReceivedMessage>)
    ensures |r| <= count
    ensures r <= AtOrAfter(q, from)
    ensures |r| < count ==> r == AtOrAfter(q, from)
  {
    var after := AtOrAfter(q, from);
    if count < |after| then after[..count] else after
  }

  /** A message is peekable from `from` exactly when the entity holds it and its sequence
    * number is at least `from`. */
  lemma {:induction false} AtOrAfterMembers(q: seq<ReceivedMessage>, from: int, m: ReceivedMessage)
    ensures m in AtOrAfter(q, from) <==> m in q && m.sequenceNumber >= from
  {
    if q != [] {
      AtOrAfterMembers(q[1..], from, m);
      assert q == [q[0]] + q[1..];
    }
  }

  /** Where the next page starts: after the last message of this page, or where this page
    * started when it was empty. */
  function NextStart(from: int, page: seq<ReceivedMessage>): int {
    if page == [] then from else page[|page| - 1].sequenceNumber + 1
  }

  /** In a sorted entity the messages below `x` come first: a split point exists. */
  lemma {:induction false} SplitPoint(q: seq<ReceivedMessage>, x: int) returns (k: nat)
    requires Sorted(q)
    ensures k <= |q|
    ensures forall i :: 0 <= i < k ==> q[i].sequenceNumber < x
    ensures forall i :: k <= i < |q| ==> q[i].sequenceNumber >= x
  {
    if q == [] {
      k := 0;
    } else if q[0].sequenceNumber >= x {
      k := 0;
      forall i | 0 <= i < |q|
        ensures q[i].sequenceNumber >= x
      {
        if i > 0 {
          assert q[0].sequenceNumber < q[i].sequenceNumber;
        }
      }
    } else {
      var k1 := SplitPoint(q[1..], x);
      k := k1 + 1;
      forall i | 0 < i < |q|
        ensures (i < k ==> q[i].sequenceNumber < x) && (k <= i ==> q[i].sequenceNumber >= x)
      {
        assert q[i] == q[1..][i - 1];
      }
    }
  }

  /** Below the split point nothing is kept; from it on everything is. */
  lemma {:induction false} AtOrAfterSuffix(q: seq<ReceivedMessage>, x: int, k: nat)
    requires k <= |q|
    requires forall i :: 0 <= i < k ==> q[i].sequenceNumber < x
    requires forall i :: k <= i < |q| ==> q[i].sequenceNumber >= x
    ensures AtOrAfter(q, x) == q[k..]
  {
    if q != [] {
      var k1 := if k == 0 then 0 else k - 1;
      forall i | 0 <= i < |q[1..]|
        ensures (i < k1 ==> q[1..][i].sequenceNumber < x) && (k1 <= i ==> q[1..][i].sequenceNumber >= x)
      {
        assert q[1..][i] == q[i + 1];
      }
      AtOrAfterSuffix(q[1..], x, k1);
      if k == 0 {
        assert [q[0]] + q[1..] == q;
      } else {
        assert q[1..][k1..] == q[k..];
      }
    }
  }

  /** In a sorted entity, one past any message's sequence number splits the entity right after
    * that message. */
  lemma SplitAfter(q: seq<ReceivedMessage>, k: nat)
    requires Sorted(q) && 0 < k <= |q|
    ensures forall i :: 0 <= i < k ==> q[i].sequenceNumber < q[k - 1].sequenceNumber + 1
    ensures forall i :: k <= i < |q| ==> q[i].sequenceNumber >= q[k - 1].sequenceNumber + 1
  {
    forall i | 0 <= i < k - 1
      ensures q[i].sequenceNumber < q[k - 1].sequenceNumber
    {
    }
    forall i | k <= i < |q|
      ensures q[k - 1].sequenceNumber < q[i].sequenceNumber
    {
    }
  }

  /** After the first `n` messages at or after `from`, the messages past the last of them are
    * exactly the rest. */
  lemma RestAfterPrefix(q: seq<ReceivedMessage>, from: int, n: nat)
    requires Sorted(q)
    requires 0 < n <= |AtOrAfter(q, from)|
    ensures AtOrAfter(q, AtOrAfter(q, from)[n - 1].sequenceNumber + 1) == AtOrAfter(q, from)[n..]
  {
    var k0 := SplitPoint(q, from);
    AtOrAfterSuffix(q, from, k0);
    var k := k0 + n;
    assert AtOrAfter(q, from)[n - 1] == q[k - 1];
    SplitAfter(q, k);
    AtOrAfterSuffix(q, q[k - 1].sequenceNumber + 1, k);
  }

  /**
   * Paging neither repeats nor skips: a page followed by the page that starts after its last
   * message is the single page of the combined size.
   */
  lemma PagesJoin(q: seq<ReceivedMessage>, from: int, n1: nat, n2: nat)
    requires Sorted(q)
    ensures Peek(q, from, n1) + Peek(q, NextStart(from, Peek(q, from, n1)), n2) == Peek(q, from, n1 + n2)
  {
    var after := AtOrAfter(q, from);
    var p1 := Peek(q, from, n1);
    if p1 != [] {
      SecondPage(q, from, n1, n2);
      if |p1| < n1 {
        assert after[|p1|..] == [];
      } else {
        assert p1 == after[..n1];
        PrefixJoin(after, n1, n2);
      }
    }
  }

  /** The page after a non-empty first page is taken from what follows that page. */
  lemma SecondPage(q: seq<ReceivedMessage>, from: int, n1: nat, n2: nat)
    requires Sorted(q) && Peek(q, from, n1) != []
    ensures var p1 := Peek(q, from, n1);
            var rest := AtOrAfter(q, from)[|p1|..];
            Peek(q, NextStart(from, p1), n2) == if n2 < |rest| then rest[..n2] else rest
  {
    var after := AtOrAfter(q, from);
    var p1 := Peek(q, from, n1);
    var n := |p1|;
    assert AtOrAfter(q, NextStart(from, p1)) == after[n..] by {
      assert p1[n - 1] == after[n - 1] by {
        assert p1 == after[..n];
      }
      RestAfterPrefix(q, from, n);
    }
  }

  /** The first n1 elements followed by the first n2 of what remains are the first n1 + n2. */
  lemma PrefixJoin(s: seq<ReceivedMessage>, n1: nat, n2: nat)
    requires n1 <= |s|
    ensures s[..n1] + (if n2 < |s[n1..]| then s[n1..][..n2] else s[n1..]) ==
            (if n1 + n2 < |s| then s[..n1 + n2] else s)
  {
    if n1 + n2 < |s| {
      assert s[..n1] + s[n1..][..n2] == s[..n1 + n2];
    } else {
      assert s[..n1] + s[n1..] == s;
    }
  }

  // ----- the selected node -----

  /**
   * The entity and sub-entity a peek reads: for a subscription its topic (the parent node) and
   * its own name, otherwise the node's name and a null sub-entity. A subscription without a
   * parent node makes the lookup fail.
   */
  function PeekTarget(item: DataTreeItem, parent: Option<DataTreeItem>): (r: Option<(Option<string>, Option<string>)>)
    ensures r.None? <==> item.kind == SUBSCRIPTION && parent.None?
    ensures r.Some? && item.kind == SUBSCRIPTION ==> r.value == (parent.value.name, item.name)
    ensures r.Some? && item.kind != SUBSCRIPTION ==> r.value == (item.name, None)
  {
    if item.kind != SUBSCRIPTION then Some((item.name, None))
    else if parent.None? then None
    else Some((parent.value.name, item.name))
  }

  /**
   * The peek names the same entity as MessageUtils.parseNode, but a node that is not a
   * subscription peeks with a null sub-entity where parseNode reports "".
   */
  lemma PeekTargetAgreesWithParseNode(item: DataTreeItem, parent: Option<DataTreeItem>)
    ensures PeekTarget(item, parent).Some? <==> MessageUtils.ParseNode(item, parent).Some?
    ensures PeekTarget(item, parent).Some? ==>
              PeekTarget(item, parent).value.0 == MessageUtils.ParseNode(item, parent).value.name
    ensures PeekTarget(item, parent).Some? && item.kind == SUBSCRIPTION ==>
              PeekTarget(item, parent).value.1 == MessageUtils.ParseNode(item, parent).value.sub
    ensures PeekTarget(item, parent).Some? && item.kind != SUBSCRIPTION ==>
              PeekTarget(item, parent).value.1 == None && MessageUtils.ParseNode(item, parent).value.sub == Some("")
  {
  }

  // ----- the manager -----

  class MessageTableViewManager {
    /** The rows of the active-message table and of the dead-letter table. */
    var rows: seq<ReceivedMessage>
    var dlqRows: seq<ReceivedMessage>
    /** The sequence number of the last message peeked; -1 before the first. */
    var lastSequenceNumber: int
    var isPeekingActive: bool

    constructor ()
      ensures rows == [] && dlqRows == []
      ensures lastSequenceNumber == -1 && !isPeekingActive
    {
      rows, dlqRows := [], [];
      lastSequenceNumber := -1;
      isPeekingActive := false;
    }

    /** initialize: the cursor goes back before the first message, peeking stops, and both
      * tables get new, empty item lists. */
    method Initialize()
      modifies this
      ensures rows == [] && dlqRows == []
      ensures lastSequenceNumber == -1 && !isPeekingActive
    {
      lastSequenceNumber := -1;
      isPeekingActive := false;
      rows, dlqRows := [], [];
    }

    /** runActive(add row): the row is added only while peeking is active. */
    method RunActive(isDlq: bool, m: ReceivedMessage)
      modifies this`rows, this`dlqRows
      ensures isPeekingActive && !isDlq ==> rows == old(rows) + [m] && dlqRows == old(dlqRows)
      ensures isPeekingActive && isDlq ==> dlqRows == old(dlqRows) + [m] && rows == old(rows)
      ensures !isPeekingActive ==> rows == old(rows) && dlqRows == old(dlqRows)
    {
      if isPeekingActive {
        if isDlq {
          dlqRows := dlqRows + [m];
        } else {
          rows := rows + [m];
        }
      }
    }

    /** The forEach of a peek: each message is added through runActive and then becomes the
      * last one seen. */
    method ShowPage(isDlq: bool, peeked: seq<ReceivedMessage>)
      requires isPeekingActive
      modifies this`rows, this`dlqRows, this`lastSequenceNumber
      ensures lastSequenceNumber + 1 == NextStart(old(lastSequenceNumber) + 1, peeked)
      ensures !isDlq ==> rows == old(rows) + peeked && dlqRows == old(dlqRows)
      ensures isDlq ==> dlqRows == old(dlqRows) + peeked && rows == old(rows)
    {
      ghost var from := lastSequenceNumber + 1;
      var i := 0;
      while i < |peeked|
        invariant 0 <= i <= |peeked|
        invariant lastSequenceNumber + 1 == NextStart(from, peeked[..i])
        invariant !isDlq ==> rows == old(rows) + peeked[..i] && dlqRows == old(dlqRows)
        invariant isDlq ==> dlqRows == old(dlqRows) + peeked[..i] && rows == old(rows)
      {
        RunActive(isDlq, peeked[i]);
        lastSequenceNumber := peeked[i].sequenceNumber;
        assert peeked[..i + 1] == peeked[..i] + [peeked[i]];
        i := i + 1;
      }
      assert peeked[..i] == peeked;
    }

    /**
     * peekMessages(count): peeks `count` messages of the selected entity (its dead-letter
     * sub-queue when `isDlq`), starting after the last one seen; each is added to the matching
     * table and moves the cursor to its sequence number. `stored` is what the broker holds in
     * that entity. A subscription node without a parent fails before anything changes.
     */
    method PeekMessages(item: DataTreeItem, parent: Option<DataTreeItem>, isDlq: bool, count: nat,
                        stored: seq<ReceivedMessage>)
      returns (page: Option<seq<ReceivedMessage>>)
      modifies this
      ensures page.None? <==> PeekTarget(item, parent).None?
      ensures page.None? ==> rows == old(rows) && dlqRows == old(dlqRows)
      ensures page.None? ==> lastSequenceNumber == old(lastSequenceNumber) && isPeekingActive == old(isPeekingActive)
      ensures page.Some? ==> page.value == Peek(stored, old(lastSequenceNumber) + 1, count)
      ensures page.Some? ==> isPeekingActive
      ensures page.Some? ==> lastSequenceNumber + 1 == NextStart(old(lastSequenceNumber) + 1, page.value)
      ensures page.Some? && !isDlq ==> rows == old(rows) + page.value && dlqRows == old(dlqRows)
      ensures page.Some? && isDlq ==> dlqRows == old(dlqRows) + page.value && rows == old(rows)
    {
      var target := PeekTarget(item, parent);
      if target.None? {
        return None;
      }
      isPeekingActive := true;
      var from := lastSequenceNumber + 1;
      var peeked := Peek(stored, from, count);
      ShowPage(isDlq, peeked);
      page := Some(peeked);
    }
  }

  /** After initialize the first page starts at sequence number 0, and a second peek continues
    * exactly where the first stopped: the table holds one page of the combined size. */
  method TwoPeeksAfterInitialize(mgr: MessageTableViewManager, item: DataTreeItem, n1: nat, n2: nat,
                                 stored: seq<ReceivedMessage>)
    returns (first: Option<seq<ReceivedMessage>>, second: Option<seq<ReceivedMessage>>)
    requires item.kind != SUBSCRIPTION
    requires Sorted(stored)
    modifies mgr
    ensures first.Some? && first.value == Peek(stored, 0, n1)
    ensures second.Some?
    ensures mgr.rows == Peek(stored, 0, n1 + n2)
  {
    mgr.Initialize();
    first := mgr.PeekMessages(item, None, false, n1, stored);
    second := mgr.PeekMessages(item, None, false, n2, stored);
    PagesJoin(stored, 0, n1, n2);
  }

  /** A row addition that runs after initialize has stopped peeking is dropped. */
  method StaleRowDropped(mgr: MessageTableViewManager, m: ReceivedMessage, isDlq: bool)
    modifies mgr
    ensures mgr.rows == [] && mgr.dlqRows == []
  {
    mgr.Initialize();
    mgr.RunActive(isDlq, m);
  }

  // ----- the body-size column -----

  /**
   * getMessageBodySize: the chunks of a DATA body are written into one buffer and its size is
   * the result; an AMQP value or sequence counts the UTF-8 bytes of its text, 0 when it is null.
   * That text is the one extractBody shows.
   */
  method BodySize(m: ReceivedMessage) returns (size: nat)
    requires m.raw.Some?
    ensures m.raw.value.body.Data? ==> size == |Concat(m.raw.value.body.chunks)|
    ensures m.raw.value.body.Data? ==> size == TotalLength(m.raw.value.body.chunks)
    ensures m.raw.value.body.AmqpValue? ==>
      size == (if m.raw.value.body.value.Null? then 0 else Utf8Length(Show(m.raw.value.body.value)))
    ensures m.raw.value.body.AmqpSequence? ==>
      size == (if m.raw.value.body.items.None? then 0 else Utf8Length(ShowList(m.raw.value.body.items.value)))
    ensures !m.raw.value.body.Data? ==> size == Utf8Length(MessageUtils.ExtractBody(Some(m)).value)
  {
    match m.raw.value.body {
      case Data(chunks, _) =>
        var buffer: seq<byte> := [];
        var i := 0;
        while i < |chunks|
          invariant 0 <= i <= |chunks|
          invariant buffer == Concat(chunks[..i])
        {
          assert chunks[..i + 1][..i] == chunks[..i];
          buffer := buffer + chunks[i];
          i := i + 1;
        }
        assert chunks[..|chunks|] == chunks;
        ConcatLength(chunks);
        size := |buffer|;
      case AmqpValue(v) =>
        size := if v.Null? then 0 else Utf8Length(Show(v));
      case AmqpSequence(items) =>
        size := if items == None then 0 else Utf8Length(ShowList(items.value));
    }
  }
}
