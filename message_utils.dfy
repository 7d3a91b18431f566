/**
 * MessageUtils: the batched transfers of an entity's messages (purge, move to
 * the dead-letter sub-queue, restore from it), run against a broker that is
 * modelled as a value.
 *
 * A receive takes the first messages of the sub-queue, at most BATCH_SIZE of
 * them. In receive-and-delete mode the batch leaves the sub-queue at once. In
 * peek-lock mode a message leaves only when it is completed or dead-lettered; an
 * abandoned message, or one whose lock lapses after an exception, stays where it
 * was. Which broker calls fail is given up front as a Faults value.
 */
module MessageUtils {
  import opened Wrappers
  import opened Text
  import opened Messages
  import opened Lists
  import opened NodeTypes
  import opened DataTreeItems

  const BATCH_SIZE: nat := 2
  const TIME_OUT_SEC: nat := 5
  const DEAD_LETTER_REASON: string := "Manual move"
  const DEAD_LETTER_DESCRIPTION: string := "Moved by Service Bus Inspector"

  /** How a receiver settled a message. */
  datatype Settlement =
    | Completed(message: ReceivedMessage)
    | Abandoned(message: ReceivedMessage)
    | DeadLettered(message: ReceivedMessage)

  /** The broker calls that throw: sending a clone of these messages, completing them, dead-lettering them, abandoning them. */
  datatype Faults = Faults(sendFails: set<ReceivedMessage>, completeFails: set<ReceivedMessage>,
                           deadLetterFails: set<ReceivedMessage>, abandonFails: set<ReceivedMessage>)

  const NO_FAULTS: Faults := Faults({}, {}, {}, {})

  /**
   * The broker as one transfer sees it: the sub-queue it receives from, the
   * messages it has delivered to the destination (sent clones, or dead-lettered
   * copies), and the settlements it has made, in order.
   */
  datatype Broker = Broker(source: seq<ReceivedMessage>, delivered: seq<ReceivedMessage>, log: seq<Settlement>)

  /** A per-message action either returns a number to add up or throws. */
  datatype Outcome<S> = Returned(state: S, value: int) | Thrown(state: S)

  /** What a whole transfer did: the final broker, the running count, how many receives, whether it ended in the catch block. */
  datatype Transfer = Transfer(broker: Broker, count: int, receives: nat, failed: bool)

  /** receiveMessages(BATCH_SIZE, timeout): the first messages of the sub-queue, at most BATCH_SIZE. */
  function Receive(queue: seq<ReceivedMessage>): (batch: seq<ReceivedMessage>)
    ensures |batch| <= BATCH_SIZE && |batch| <= |queue| && batch == queue[..|batch|]
    ensures |batch| < BATCH_SIZE ==> batch == queue
  {
    if |queue| <= BATCH_SIZE then queue else queue[..BATCH_SIZE]
  }

  /** Receive-and-delete mode: the received batch leaves the sub-queue. */
  function ReceiveAndDelete(b: Broker): (r: Broker)
    ensures Receive(b.source) + r.source == b.source
    ensures r.delivered == b.delivered && r.log == b.log
  {
    b.(source := b.source[|Receive(b.source)|..])
  }

  /** List.remove(Object), and the broker dropping a settled message: the first equal element goes. */
  function Remove(q: seq<ReceivedMessage>, m: ReceivedMessage): (r: seq<ReceivedMessage>)
    ensures m in q ==> |r| == |q| - 1 && multiset(r) == multiset(q) - multiset{m}
    ensures m !in q ==> r == q
    ensures q != [] && q[0] == m ==> r == q[1..]
  {
    if q == [] then []
    else if q[0] == m then
      assert q == [q[0]] + q[1..];
      q[1..]
    else
      assert q == [q[0]] + q[1..];
      [q[0]] + Remove(q[1..], m)
  }

  /** The broker's removal is List.remove(Object): the first element equal to m goes, and the
    * others keep their order. */
  lemma {:induction false} RemoveIsRemoveFirst(q: seq<ReceivedMessage>, m: ReceivedMessage)
    ensures Remove(q, m) == RemoveFirst(q, m)
  {
    if q != [] {
      if q[0] == m {
        RemoveFirstHead(q, m);
      } else {
        RemoveFirstSkip(q, m);
        RemoveIsRemoveFirst(q[1..], m);
      }
    }
  }

  /** The per-message actions applied left to right; the first exception ends the batch. */
  function ApplyAll<S>(batch: seq<ReceivedMessage>, s: S, action: (S, ReceivedMessage) -> Outcome<S>): Outcome<S> {
    if batch == [] then Returned(s, 0)
    else
      match action(s, batch[0])
      case Thrown(s1) => Thrown(s1)
      case Returned(s1, v) => Plus(v, ApplyAll(batch[1..], s1, action))
  }

  /** A batch of two messages, unfolded. */
  lemma ApplyTwo<S>(x: ReceivedMessage, y: ReceivedMessage, s: S, action: (S, ReceivedMessage) -> Outcome<S>)
    ensures action(s, x).Returned? && action(action(s, x).state, y).Returned? ==>
      ApplyAll([x, y], s, action)
      == Returned(action(action(s, x).state, y).state, action(s, x).value + action(action(s, x).state, y).value)
  {
    if action(s, x).Returned? && action(action(s, x).state, y).Returned? {
      var s1 := action(s, x).state;
      assert [x, y][0] == x && [x, y][1..] == [y];
      assert ApplyAll([x, y], s, action) == Plus(action(s, x).value, ApplyAll([y], s1, action));
      assert [y][0] == y && [y][1..] == [];
      assert ApplyAll([y], s1, action) == Plus(action(s1, y).value, ApplyAll([], action(s1, y).state, action));
    }
  }

  function Plus<S>(n: int, o: Outcome<S>): Outcome<S> {
    match o
    case Thrown(s) => Thrown(s)
    case Returned(s, v) => Returned(s, n + v)
  }

  /**
   * receiveMatchAndComplete: receives one batch and adds up what the action
   * returns for each of its messages; an exception escapes to the caller.
   */
  method ReceiveMatchAndComplete<S>(queue: seq<ReceivedMessage>, s: S, action: (S, ReceivedMessage) -> Outcome<S>)
    returns (batch: seq<ReceivedMessage>, r: Outcome<S>)
    ensures batch == Receive(queue) && |batch| <= BATCH_SIZE
    ensures r == ApplyAll(batch, s, action)
  {
    batch := Receive(queue);
    var completedCount := 0;
    var state := s;
    var i := 0;
    while i < |batch|
      invariant 0 <= i <= |batch|
      invariant ApplyAll(batch, s, action) == Plus(completedCount, ApplyAll(batch[i..], state, action))
    {
      assert batch[i..][1..] == batch[i + 1..];
      match action(state, batch[i]) {
        case Thrown(s1) =>
          r := Thrown(s1);
          return;
        case Returned(s1, v) =>
          completedCount := completedCount + v;
          state := s1;
      }
      i := i + 1;
    }
    r := Returned(state, completedCount);
  }

  // ----- purge -----

  /** addCount: every purged message counts one. */
  function AddCount(b: Broker, m: ReceivedMessage): Outcome<Broker> {
    Returned(b, 1)
  }

  lemma {:induction false} AddCountBatch(batch: seq<ReceivedMessage>, b: Broker)
    ensures ApplyAll(batch, b, AddCount) == Returned(b, |batch|)
  {
    if batch != [] {
      AddCountBatch(batch[1..], b);
    }
  }

  /**
   * purgeAllMessages: receive-and-delete on the entity, repeated while a batch
   * holds exactly BATCH_SIZE messages. n messages take n / 2 + 1 receives and
   * are all counted.
   */
  method PurgeAllMessages(queue: seq<ReceivedMessage>) returns (count: int, receives: nat, remaining: seq<ReceivedMessage>)
    ensures remaining == [] && count == |queue|
    ensures receives == |queue| / BATCH_SIZE + 1
  {
    var broker := Broker(queue, [], []);
    count, receives := 0, 0;
    while true
      invariant 0 <= count <= |queue| && count % BATCH_SIZE == 0
      invariant broker.source == queue[count..]
      invariant receives == count / BATCH_SIZE
      decreases |broker.source|
    {
      var batch, outcome := ReceiveMatchAndComplete(broker.source, ReceiveAndDelete(broker), AddCount);
      AddCountBatch(batch, ReceiveAndDelete(broker));
      broker := outcome.state;
      var receivedCount := outcome.value;
      count := count + receivedCount;
      receives := receives + 1;
      if receivedCount != BATCH_SIZE {
        remaining := broker.source;
        return;
      }
    }
  }

  /**
   * purgeAllDlqMessages: receive-and-delete on the dead-letter sub-queue,
   * repeated while a batch holds at least BATCH_SIZE messages.
   */
  method PurgeAllDlqMessages(dlq: seq<ReceivedMessage>) returns (count: int, receives: nat, remaining: seq<ReceivedMessage>)
    ensures remaining == [] && count == |dlq|
    ensures receives == |dlq| / BATCH_SIZE + 1
  {
    var broker := Broker(dlq, [], []);
    count, receives := 0, 0;
    while true
      invariant 0 <= count <= |dlq| && count % BATCH_SIZE == 0
      invariant broker.source == dlq[count..]
      invariant receives == count / BATCH_SIZE
      decreases |broker.source|
    {
      var batch, outcome := ReceiveMatchAndComplete(broker.source, ReceiveAndDelete(broker), AddCount);
      AddCountBatch(batch, ReceiveAndDelete(broker));
      broker := outcome.state;
      var receivedCount := outcome.value;
      count := count + receivedCount;
      receives := receives + 1;
      if receivedCount < BATCH_SIZE {
        remaining := broker.source;
        return;
      }
    }
  }

  /** A batch never holds more than BATCH_SIZE messages, so "== BATCH_SIZE" and ">= BATCH_SIZE" stop alike. */
  lemma LoopTestsAgree(queue: seq<ReceivedMessage>)
    ensures |Receive(queue)| >= BATCH_SIZE <==> |Receive(queue)| == BATCH_SIZE
  {
  }

  // ----- move to the dead-letter sub-queue -----

  /** The copy the dead-letter sub-queue receives, with the reason and description the application sets. */
  function DeadLetterCopy(m: ReceivedMessage): (r: ReceivedMessage)
    ensures r.deadLetter.reason == Some(DEAD_LETTER_REASON)
    ensures r.deadLetter.errorDescription == Some(DEAD_LETTER_DESCRIPTION)
    ensures r.header == m.header && r.sequenceNumber == m.sequenceNumber && r.raw == m.raw
  {
    m.(deadLetter := m.deadLetter.(reason := Some(DEAD_LETTER_REASON), errorDescription := Some(DEAD_LETTER_DESCRIPTION)))
  }

  /** The per-message action of moveAllMessagesToDlq: dead-letter it and count one. */
  function DeadLetter(b: Broker, m: ReceivedMessage): Outcome<Broker> {
    Returned(Broker(Remove(b.source, m), b.delivered + [DeadLetterCopy(m)], b.log + [DeadLettered(m)]), 1)
  }

  function DeadLetterCopies(q: seq<ReceivedMessage>): (r: seq<ReceivedMessage>)
    ensures |r| == |q|
  {
    if q == [] then [] else [DeadLetterCopy(q[0])] + DeadLetterCopies(q[1..])
  }

  function DeadLetterLog(q: seq<ReceivedMessage>): (r: seq<Settlement>)
    ensures |r| == |q|
  {
    if q == [] then [] else [DeadLettered(q[0])] + DeadLetterLog(q[1..])
  }

  /** Dead-lettering a received batch takes it off the front and appends its copies, in order. */
  lemma {:induction false} DeadLetterBatch(batch: seq<ReceivedMessage>, b: Broker)
    requires |batch| <= |b.source| && batch == b.source[..|batch|]
    ensures ApplyAll(batch, b, DeadLetter)
         == Returned(Broker(b.source[|batch|..], b.delivered + DeadLetterCopies(batch), b.log + DeadLetterLog(batch)), |batch|)
  {
    if batch == [] {
      assert b.source[0..] == b.source;
      assert b.delivered + DeadLetterCopies(batch) == b.delivered;
      assert b.log + DeadLetterLog(batch) == b.log;
    } else {
      var b1 := DeadLetterHead(b);
      ApplyAllCons(batch, b, DeadLetter);
      BatchTail(batch, b.source);
      DeadLetterBatch(batch[1..], b1);
      DeadLetterCons(b, batch);
    }
  }

  /** Dead-lettering the head of the sub-queue takes it off the front. */
  lemma DeadLetterHead(b: Broker) returns (b1: Broker)
    requires b.source != []
    ensures b1 == Broker(b.source[1..], b.delivered + [DeadLetterCopy(b.source[0])], b.log + [DeadLettered(b.source[0])])
    ensures DeadLetter(b, b.source[0]) == Returned(b1, 1)
  {
    b1 := Broker(b.source[1..], b.delivered + [DeadLetterCopy(b.source[0])], b.log + [DeadLettered(b.source[0])]);
  }

  lemma ApplyAllCons<S>(batch: seq<ReceivedMessage>, s: S, action: (S, ReceivedMessage) -> Outcome<S>)
    requires batch != [] && action(s, batch[0]).Returned?
    ensures ApplyAll(batch, s, action) == Plus(action(s, batch[0]).value, ApplyAll(batch[1..], action(s, batch[0]).state, action))
  {
  }

  lemma BatchTail(batch: seq<ReceivedMessage>, q: seq<ReceivedMessage>)
    requires batch != [] && |batch| <= |q| && batch == q[..|batch|]
    ensures batch[0] == q[0] && batch[1..] == q[1..][..|batch| - 1] && q[1..][|batch| - 1..] == q[|batch|..]
  {
  }

  lemma DeadLetterCons(b: Broker, batch: seq<ReceivedMessage>)
    requires batch != []
    ensures b.delivered + [DeadLetterCopy(batch[0])] + DeadLetterCopies(batch[1..]) == b.delivered + DeadLetterCopies(batch)
    ensures b.log + [DeadLettered(batch[0])] + DeadLetterLog(batch[1..]) == b.log + DeadLetterLog(batch)
  {
    assert b.delivered + [DeadLetterCopy(batch[0])] + DeadLetterCopies(batch[1..])
        == b.delivered + ([DeadLetterCopy(batch[0])] + DeadLetterCopies(batch[1..]));
    assert b.log + [DeadLettered(batch[0])] + DeadLetterLog(batch[1..])
        == b.log + ([DeadLettered(batch[0])] + DeadLetterLog(batch[1..]));
  }

  /** The broker once moveAllMessagesToDlq has dead-lettered the first k messages of the entity. */
  function MovedToDlq(active: seq<ReceivedMessage>, k: nat): Broker
    requires k <= |active|
  {
    Broker(active[k..], DeadLetterCopies(active[..k]), DeadLetterLog(active[..k]))
  }

  /** The lambda moveAllMessagesToDlq hands to receiveMatchAndComplete: rc.deadLetter throws for the failing messages. */
  function DeadLetterAction(faults: Faults): (Broker, ReceivedMessage) -> Outcome<Broker> {
    (b, m) => if m in faults.deadLetterFails then Thrown(b) else DeadLetter(b, m)
  }

  /** The position of the first message of q in fails, |q| when there is none. */
  function FirstFail(q: seq<ReceivedMessage>, fails: set<ReceivedMessage>): (f: nat)
    ensures f <= |q|
    ensures f < |q| ==> q[f] in fails
  {
    if q == [] then 0
    else if q[0] in fails then 0
    else 1 + FirstFail(q[1..], fails)
  }

  /** No message before the first failing one fails. */
  lemma {:induction false} FirstFailBefore(q: seq<ReceivedMessage>, fails: set<ReceivedMessage>, i: nat)
    requires i < FirstFail(q, fails)
    ensures q[i] !in fails
  {
    if i > 0 {
      FirstFailBefore(q[1..], fails, i - 1);
    }
  }

  /** Without a failing message the first failure is past the end. */
  lemma FirstFailNone(q: seq<ReceivedMessage>, fails: set<ReceivedMessage>)
    ensures FirstFail(q, fails) == |q| <==> forall m :: m in q ==> m !in fails
  {
    var f := FirstFail(q, fails);
    if f < |q| {
      assert q[f] in q;
    } else {
      forall m | m in q ensures m !in fails {
        var i :| 0 <= i < |q| && q[i] == m;
        FirstFailBefore(q, fails, i);
      }
    }
  }

  /**
   * A round of moveAllMessagesToDlq dead-letters the next batch and counts it; `next` is how many
   * are moved after it. A dead-letter call that throws ends the batch: the messages before it are
   * dead-lettered, the failing one and the rest stay in the entity.
   */
  lemma DeadLetterRound(active: seq<ReceivedMessage>, count: nat, batch: seq<ReceivedMessage>, next: nat, faults: Faults)
    requires count <= FirstFail(active, faults.deadLetterFails)
    requires count <= |active| && batch == Receive(active[count..]) && next == count + |batch|
    ensures next <= |active|
    ensures var f := FirstFail(active, faults.deadLetterFails);
            ApplyAll(batch, MovedToDlq(active, count), DeadLetterAction(faults))
            == if next <= f then Returned(MovedToDlq(active, next), |batch|) else Thrown(MovedToDlq(active, f))
  {
    assert batch == active[count..][..|batch|];
    DeadLetterSlice(active, count, |batch|, next, faults);
  }

  /** Dead-lettering the next n messages, whichever receive returned them, up to the first that throws. */
  lemma {:induction false} DeadLetterSlice(active: seq<ReceivedMessage>, count: nat, n: nat, next: nat, faults: Faults)
    requires next == count + n <= |active| && count <= FirstFail(active, faults.deadLetterFails)
    ensures var f := FirstFail(active, faults.deadLetterFails);
            ApplyAll(active[count..][..n], MovedToDlq(active, count), DeadLetterAction(faults))
            == if next <= f then Returned(MovedToDlq(active, next), n) else Thrown(MovedToDlq(active, f))
    decreases n
  {
    var f := FirstFail(active, faults.deadLetterFails);
    var batch := active[count..][..n];
    if n == 0 {
      assert batch == [];
    } else if count == f {
      DeadLetterStops(active, count, n, faults);
    } else {
      var rest := DeadLetterGoesOn(active, count, n, faults);
      DeadLetterSlice(active, count + 1, n - 1, next, faults);
      PlusOne(rest, MovedToDlq(active, next), MovedToDlq(active, f), n, next <= f);
    }
  }

  /** The first failing message throws at once, with the broker as it was. */
  lemma DeadLetterStops(active: seq<ReceivedMessage>, count: nat, n: nat, faults: Faults)
    requires 0 < n && count + n <= |active| && count == FirstFail(active, faults.deadLetterFails)
    ensures ApplyAll(active[count..][..n], MovedToDlq(active, count), DeadLetterAction(faults)) == Thrown(MovedToDlq(active, count))
  {
    BatchHeadAt(active, count, n);
  }

  /** A message before the first failing one is dead-lettered, and the rest of the batch follows. */
  lemma DeadLetterGoesOn(active: seq<ReceivedMessage>, count: nat, n: nat, faults: Faults) returns (rest: Outcome<Broker>)
    requires 0 < n && count + n <= |active| && count < FirstFail(active, faults.deadLetterFails)
    ensures rest == ApplyAll(active[count + 1..][..n - 1], MovedToDlq(active, count + 1), DeadLetterAction(faults))
    ensures ApplyAll(active[count..][..n], MovedToDlq(active, count), DeadLetterAction(faults)) == Plus(1, rest)
  {
    var act := DeadLetterAction(faults);
    rest := ApplyAll(active[count + 1..][..n - 1], MovedToDlq(active, count + 1), act);
    FirstFailBefore(active, faults.deadLetterFails, count);
    BatchHeadAt(active, count, n);
    DeadLetterNext(active, count);
    ApplyAllCons(active[count..][..n], MovedToDlq(active, count), act);
  }

  /** Counting one more in front of a batch outcome. */
  lemma PlusOne<S>(o: Outcome<S>, done: S, stopped: S, n: int, ok: bool)
    requires o == if ok then Returned(done, n - 1) else Thrown(stopped)
    ensures Plus(1, o) == if ok then Returned(done, n) else Thrown(stopped)
  {
  }

  /** The first of the next n messages, and the n - 1 after it. */
  lemma BatchHeadAt(active: seq<ReceivedMessage>, count: nat, n: nat)
    requires 0 < n && count + n <= |active|
    ensures active[count..][..n][0] == active[count]
    ensures active[count..][..n][1..] == active[count + 1..][..n - 1]
  {
  }

  /** Dead-lettering the message after the first count ones moves one more. */
  lemma DeadLetterNext(active: seq<ReceivedMessage>, count: nat)
    requires count < |active|
    ensures DeadLetter(MovedToDlq(active, count), active[count]) == Returned(MovedToDlq(active, count + 1), 1)
  {
    var b := MovedToDlq(active, count);
    var b1 := DeadLetterHead(b);
    MovedToDlqStep(active, count, 1, count + 1);
    assert active[count..][..1] == [active[count]];
    assert DeadLetterCopies([active[count]]) == [DeadLetterCopy(active[count])];
    assert DeadLetterLog([active[count]]) == [DeadLettered(active[count])];
  }

  /** Moving n more messages is appending their copies and settlements. */
  lemma MovedToDlqStep(active: seq<ReceivedMessage>, count: nat, n: nat, next: nat)
    requires next == count + n <= |active|
    ensures MovedToDlq(active, next)
         == Broker(MovedToDlq(active, count).source[n..],
                   MovedToDlq(active, count).delivered + DeadLetterCopies(active[count..][..n]),
                   MovedToDlq(active, count).log + DeadLetterLog(active[count..][..n]))
  {
    SliceJoin(active, count, n);
    DeadLetterRoundParts(active, count, n);
  }

  lemma DeadLetterRoundParts(active: seq<ReceivedMessage>, count: nat, n: nat)
    requires count + n <= |active|
    ensures DeadLetterCopies(active[..count]) + DeadLetterCopies(active[count..][..n]) == DeadLetterCopies(active[..count + n])
    ensures DeadLetterLog(active[..count]) + DeadLetterLog(active[count..][..n]) == DeadLetterLog(active[..count + n])
  {
    SliceJoin(active, count, n);
    DeadLetterAppend(active[..count], active[count..][..n]);
  }

  /** Splitting a sequence at k and then taking n more elements. */
  lemma SliceJoin<T>(q: seq<T>, k: nat, n: nat)
    requires k + n <= |q|
    ensures q[..k] + q[k..][..n] == q[..k + n]
    ensures q[k..][n..] == q[k + n..]
  {
    assert q[k..][..n] == q[k..k + n];
  }

  /** Dropping the first element of a suffix. */
  lemma SliceTail<T>(q: seq<T>, i: nat)
    requires i < |q|
    ensures q[i..][1..] == q[i + 1..] && q[i..][0] == q[i]
  {
  }

  /** A non-empty sequence holds its first element. */
  lemma HeadIn<T>(q: seq<T>)
    ensures q == [] || q[0] in q
  {
  }

  lemma DeadLetterAppend(done: seq<ReceivedMessage>, batch: seq<ReceivedMessage>)
    ensures DeadLetterCopies(done) + DeadLetterCopies(batch) == DeadLetterCopies(done + batch)
    ensures DeadLetterLog(done) + DeadLetterLog(batch) == DeadLetterLog(done + batch)
  {
    CopiesAppend(done, batch);
    LogAppend(done, batch);
  }

  lemma {:induction false} CopiesAppend(done: seq<ReceivedMessage>, batch: seq<ReceivedMessage>)
    ensures DeadLetterCopies(done) + DeadLetterCopies(batch) == DeadLetterCopies(done + batch)
  {
    if done == [] {
      assert done + batch == batch;
    } else {
      assert (done + batch)[1..] == done[1..] + batch;
      CopiesAppend(done[1..], batch);
    }
  }

  lemma {:induction false} LogAppend(done: seq<ReceivedMessage>, batch: seq<ReceivedMessage>)
    ensures DeadLetterLog(done) + DeadLetterLog(batch) == DeadLetterLog(done + batch)
  {
    if done == [] {
      assert done + batch == batch;
    } else {
      assert (done + batch)[1..] == done[1..] + batch;
      LogAppend(done[1..], batch);
    }
  }

  /** receiveMatchAndComplete with the action of moveAllMessagesToDlq, after `count` messages have been moved. */
  method ReceiveDeadLetterRound(active: seq<ReceivedMessage>, count: nat, faults: Faults)
    returns (batch: seq<ReceivedMessage>, next: nat, outcome: Outcome<Broker>, moved: nat)
    requires count <= |active| && count <= FirstFail(active, faults.deadLetterFails)
    ensures batch == Receive(active[count..]) && next == count + |batch| <= |active|
    ensures var f := FirstFail(active, faults.deadLetterFails);
            outcome == if next <= f then Returned(MovedToDlq(active, next), |batch|) else Thrown(MovedToDlq(active, f))
    ensures moved == (if outcome.Returned? then next else FirstFail(active, faults.deadLetterFails))
    ensures outcome.state == MovedToDlq(active, moved)
  {
    batch, outcome := ReceiveMatchAndComplete(active[count..], MovedToDlq(active, count), DeadLetterAction(faults));
    next := count + |batch|;
    DeadLetterRound(active, count, batch, next, faults);
    moved := if outcome.Returned? then next else FirstFail(active, faults.deadLetterFails);
  }

  /**
   * moveAllMessagesToDlq: peek-lock on the entity; every received message is
   * dead-lettered with the fixed reason and counted; repeated while a batch
   * counts exactly BATCH_SIZE. A dead-letter call that throws ends the whole
   * transfer in the catch block, with the count of the earlier batches. So the
   * messages before the first failing one are moved, once each and in order,
   * and the entity keeps that one and the rest; without a failure it ends empty.
   */
  method MoveAllMessagesToDlq(active: seq<ReceivedMessage>, faults: Faults)
    returns (count: int, receives: nat, broker: Broker, failed: bool)
    ensures var f := FirstFail(active, faults.deadLetterFails);
            && broker == MovedToDlq(active, f)
            && (failed <==> f < |active|)
            && count == (if failed then f - f % BATCH_SIZE else |active|)
            && receives == f / BATCH_SIZE + 1
    ensures failed <==> exists m :: m in active && m in faults.deadLetterFails
    ensures !failed ==> broker.source == [] && count == |active|
                        && broker.delivered == DeadLetterCopies(active) && broker.log == DeadLetterLog(active)
  {
    ghost var f := FirstFail(active, faults.deadLetterFails);
    FirstFailNone(active, faults.deadLetterFails);
    broker := Broker(active, [], []);
    count, receives, failed := 0, 0, false;
    while true
      invariant 0 <= count <= f && count == receives * BATCH_SIZE
      invariant broker == MovedToDlq(active, count)
      decreases |broker.source|
    {
      var batch, next, outcome, moved := ReceiveDeadLetterRound(active, count, faults);
      LastRoundCounts(count, |batch|, f, receives);
      receives := receives + 1;
      broker := outcome.state;
      if outcome.Thrown? {
        failed := true;
        return;
      }
      var receivedCount := outcome.value;
      if receivedCount != BATCH_SIZE {
        assert batch == active[count..];
        count := next;
        MovedAllToDlq(active);
        return;
      }
      count := next;
    }
  }

  /** Once every message is moved the entity is empty and the sub-queue holds all their copies. */
  lemma MovedAllToDlq(active: seq<ReceivedMessage>)
    ensures MovedToDlq(active, |active|) == Broker([], DeadLetterCopies(active), DeadLetterLog(active))
  {
    assert active[..|active|] == active;
  }

  /** The round that stops the transfer starts at a multiple of BATCH_SIZE and reaches past f, or stops at it. */
  lemma LastRoundCounts(count: nat, n: nat, f: nat, rounds: nat)
    requires count == rounds * BATCH_SIZE && n <= BATCH_SIZE && count <= f
    ensures f < count + n || (f == count + n && n < BATCH_SIZE) ==>
              count == f - f % BATCH_SIZE && rounds + 1 == f / BATCH_SIZE + 1
  {
  }

  // ----- restore from the dead-letter sub-queue -----

  /**
   * completeMessage: 1 after a successful complete, which takes the message off
   * the sub-queue; otherwise the message is abandoned and 0 is returned, so the
   * message gets exactly one settlement. The abandon in the catch block is not
   * guarded: when it throws too, the exception escapes with the message still in
   * the sub-queue and not settled.
   */
  function CompleteMessage(b: Broker, m: ReceivedMessage, faults: Faults): (r: Outcome<Broker>)
    ensures r.Thrown? <==> m in faults.completeFails && m in faults.abandonFails
    ensures r.Thrown? ==> r.state == b
    ensures r.Returned? ==> r.value == (if m in faults.completeFails then 0 else 1)
    ensures r.Returned? ==> r.state.log == b.log + [if r.value == 1 then Completed(m) else Abandoned(m)]
    ensures r.Returned? ==> r.state.source == (if r.value == 1 then Remove(b.source, m) else b.source)
    ensures r.state.delivered == b.delivered
  {
    if m !in faults.completeFails then Returned(b.(source := Remove(b.source, m), log := b.log + [Completed(m)]), 1)
    else if m in faults.abandonFails then Thrown(b)
    else Returned(b.(log := b.log + [Abandoned(m)]), 0)
  }

  /** The per-message action of moveAllMessagesToQueue: send a clone, then completeMessage; a failed send throws. */
  function RestoreStep(b: Broker, m: ReceivedMessage, faults: Faults): Outcome<Broker> {
    if m in faults.sendFails then Thrown(b)
    else CompleteMessage(b.(delivered := b.delivered + [m]), m, faults)
  }

  function RestoreAction(faults: Faults): (Broker, ReceivedMessage) -> Outcome<Broker> {
    (b, m) => RestoreStep(b, m, faults)
  }

  /** The messages of a settlement log, in order. */
  function Settled(log: seq<Settlement>): (r: seq<ReceivedMessage>)
    ensures |r| == |log| && forall i :: 0 <= i < |log| ==> r[i] == log[i].message
  {
    seq(|log|, i requires 0 <= i < |log| => log[i].message)
  }

  /**
   * Every message whose clone was sent has exactly one settlement, in the order
   * of sending, except that the last one sent has none when both its complete
   * and its abandon threw.
   */
  predicate SettledOnce(b: Broker, faults: Faults) {
    || Settled(b.log) == b.delivered
    || (&& b.delivered != []
        && Settled(b.log) == b.delivered[..|b.delivered| - 1]
        && b.delivered[|b.delivered| - 1] in faults.completeFails
        && b.delivered[|b.delivered| - 1] in faults.abandonFails)
  }

  /** The messages a log completed, in order. */
  function CompletedIn(log: seq<Settlement>): seq<ReceivedMessage> {
    if log == [] then []
    else CompletedIn(log[..|log| - 1]) + (if log[|log| - 1].Completed? then [log[|log| - 1].message] else [])
  }

  function CompletedLog(q: seq<ReceivedMessage>): (r: seq<Settlement>)
    ensures |r| == |q|
  {
    if q == [] then [] else [Completed(q[0])] + CompletedLog(q[1..])
  }

  /** One restore step, unfolded. */
  lemma RestoreUnfold(batch: seq<ReceivedMessage>, b: Broker, faults: Faults)
    requires batch != []
    ensures ApplyAll(batch, b, RestoreAction(faults))
         == match RestoreStep(b, batch[0], faults)
            case Thrown(s1) => Thrown(s1)
            case Returned(s1, v) => Plus(v, ApplyAll(batch[1..], s1, RestoreAction(faults)))
  {
  }

  /**
   * In a restore batch every completion takes one message off the sub-queue and
   * counts one, and the count reaches the batch size only if nothing in the
   * batch failed to complete.
   */
  lemma {:induction false} RestoreBatchCounts(batch: seq<ReceivedMessage>, b: Broker, faults: Faults)
    requires multiset(batch) <= multiset(b.source)
    ensures var r := ApplyAll(batch, b, RestoreAction(faults));
      && (r.Returned? ==> |r.state.source| == |b.source| - r.value && 0 <= r.value <= |batch|)
      && (r.Returned? && r.value == |batch| ==> forall m :: m in batch ==> m !in faults.completeFails)
  {
    if batch != [] {
      var m := batch[0];
      assert batch == [m] + batch[1..];
      assert m in multiset(b.source);
      RestoreUnfold(batch, b, faults);
      var step := RestoreStep(b, m, faults);
      if step.Returned? {
        assert multiset(batch[1..]) <= multiset(step.state.source);
        RestoreBatchCounts(batch[1..], step.state, faults);
      }
    }
  }

  /**
   * In a restore batch every message whose clone was sent gets exactly one
   * settlement, and no other message gets one; only a batch that throws can
   * leave its last sent message unsettled, when its complete and its abandon
   * both threw.
   */
  lemma {:induction false} RestoreBatchSettles(batch: seq<ReceivedMessage>, b: Broker, faults: Faults)
    requires Settled(b.log) == b.delivered
    ensures var r := ApplyAll(batch, b, RestoreAction(faults));
      (r.Returned? ==> Settled(r.state.log) == r.state.delivered) && SettledOnce(r.state, faults)
  {
    if batch != [] {
      RestoreUnfold(batch, b, faults);
      var m := batch[0];
      var step := RestoreStep(b, m, faults);
      if step.Returned? {
        assert Settled(step.state.log) == Settled(b.log) + [m];
        RestoreBatchSettles(batch[1..], step.state, faults);
      } else if m !in faults.sendFails {
        assert step.state == b.(delivered := b.delivered + [m]);
        assert step.state.delivered[..|step.state.delivered| - 1] == b.delivered;
      }
    }
  }

  /** A restore batch loses no message: what is still queued plus what was completed is unchanged. */
  lemma {:induction false} RestoreBatchConserves(batch: seq<ReceivedMessage>, b: Broker, faults: Faults)
    requires multiset(batch) <= multiset(b.source)
    ensures var r := ApplyAll(batch, b, RestoreAction(faults));
      multiset(r.state.source) + multiset(CompletedIn(r.state.log))
      == multiset(b.source) + multiset(CompletedIn(b.log))
  {
    if batch != [] {
      RestoreUnfold(batch, b, faults);
      RestoreStepConserves(batch, b, faults);
      var step := RestoreStep(b, batch[0], faults);
      if step.Returned? {
        RestoreBatchConserves(batch[1..], step.state, faults);
      }
    }
  }

  /** One restore step keeps the rest of the batch in the sub-queue and loses no message. */
  lemma RestoreStepConserves(batch: seq<ReceivedMessage>, b: Broker, faults: Faults)
    requires batch != [] && multiset(batch) <= multiset(b.source)
    ensures var step := RestoreStep(b, batch[0], faults);
      step.Returned? ==>
        && multiset(batch[1..]) <= multiset(step.state.source)
        && multiset(step.state.source) + multiset(CompletedIn(step.state.log))
           == multiset(b.source) + multiset(CompletedIn(b.log))
  {
    var m := batch[0];
    HeadOut(batch, multiset(b.source));
    if m !in faults.sendFails {
      var b1 := RestoreStep(b, m, faults).state;
      if m in faults.completeFails && m in faults.abandonFails {
      } else if m in faults.completeFails {
        assert b1.source == b.source && b1.log == b.log + [Abandoned(m)];
        CompletedInSnoc(b.log, Abandoned(m));
      } else {
        RemovePresent(b.source, m);
        assert b1.source == Remove(b.source, m) && b1.log == b.log + [Completed(m)];
        CompletedInSnoc(b.log, Completed(m));
        TakeAndGive(multiset(b.source), multiset(CompletedIn(b.log)), m);
      }
    }
  }

  /** Removing a message that is present takes exactly one copy of it out. */
  lemma RemovePresent(q: seq<ReceivedMessage>, m: ReceivedMessage)
    requires m in multiset(q)
    ensures multiset(Remove(q, m)) == multiset(q) - multiset{m}
  {
  }

  /** The head of a batch held in a multiset is in it, and the rest of the batch is held by what is left. */
  lemma HeadOut<T>(batch: seq<T>, held: multiset<T>)
    requires batch != [] && multiset(batch) <= held
    ensures batch[0] in held
    ensures multiset(batch[1..]) <= held - multiset{batch[0]}
    ensures multiset(batch[1..]) <= held
  {
    assert batch == [batch[0]] + batch[1..];
  }

  /** Taking an element out of one multiset and adding it to another keeps the sum. */
  lemma TakeAndGive<T>(from: multiset<T>, to: multiset<T>, x: T)
    requires x in from
    ensures (from - multiset{x}) + (to + multiset{x}) == from + to
  {
  }

  lemma CompletedInSnoc(log: seq<Settlement>, s: Settlement)
    ensures CompletedIn(log + [s]) == CompletedIn(log) + (if s.Completed? then [s.message] else [])
  {
    assert (log + [s])[..|log|] == log;
  }

  /** One batch of moveAllMessagesToQueue from broker b. */
  function RestoreRound(b: Broker, faults: Faults): (r: Outcome<Broker>)
    ensures r.Returned? ==> |r.state.source| == |b.source| - r.value && 0 <= r.value <= BATCH_SIZE
  {
    var batch := Receive(b.source);
    assert multiset(batch) <= multiset(b.source) by {
      assert b.source == batch + b.source[|batch|..];
    }
    RestoreBatchCounts(batch, b, faults);
    ApplyAll(batch, b, RestoreAction(faults))
  }

  /** receiveMatchAndComplete with the action of moveAllMessagesToQueue. */
  method ReceiveRestoreRound(b: Broker, faults: Faults) returns (outcome: Outcome<Broker>)
    ensures outcome == RestoreRound(b, faults)
  {
    var _, o := ReceiveMatchAndComplete(b.source, b, RestoreAction(faults));
    outcome := o;
  }

  /** The rounds of moveAllMessagesToQueue from broker b on, with the count and receives so far. */
  function RestoreRounds(b: Broker, faults: Faults, count: int, receives: nat): Transfer
    decreases |b.source|
  {
    match RestoreRound(b, faults)
    case Thrown(s) => Transfer(s, count, receives + 1, true)
    case Returned(s, n) =>
      if n >= BATCH_SIZE then RestoreRounds(s, faults, count + n, receives + 1)
      else Transfer(s, count + n, receives + 1, false)
  }

  function RestoreAll(dlq: seq<ReceivedMessage>, faults: Faults): Transfer {
    RestoreRounds(Broker(dlq, [], []), faults, 0, 0)
  }

  /** One round of moveAllMessagesToQueue, unfolded, with the new count and number of receives given as plain values. */
  lemma RestoreRoundsUnfold(b: Broker, faults: Faults, count: int, receives: nat, outcome: Outcome<Broker>, count1: int, receives1: nat)
    requires outcome == RestoreRound(b, faults) && receives1 == receives + 1
    requires outcome.Returned? ==> count1 == count + outcome.value
    ensures outcome.Thrown? ==> RestoreRounds(b, faults, count, receives) == Transfer(outcome.state, count, receives1, true)
    ensures outcome.Returned? && outcome.value >= BATCH_SIZE ==>
      RestoreRounds(b, faults, count, receives) == RestoreRounds(outcome.state, faults, count1, receives1)
    ensures outcome.Returned? && outcome.value < BATCH_SIZE ==>
      RestoreRounds(b, faults, count, receives) == Transfer(outcome.state, count1, receives1, false)
  {
  }

  /** A batch holds nothing that is not in the queue it came from. */
  lemma ReceiveIn(q: seq<ReceivedMessage>)
    ensures multiset(Receive(q)) <= multiset(q)
  {
    assert q == Receive(q) + q[|Receive(q)|..];
  }

  /**
   * Across all rounds, every message whose clone was sent gets exactly one
   * settlement, and no other message gets one, except the last one sent when the
   * transfer ended because its complete and its abandon threw.
   */
  lemma {:induction false} RestoreRoundsSettle(b: Broker, faults: Faults, count: int, receives: nat)
    requires Settled(b.log) == b.delivered
    ensures var t := RestoreRounds(b, faults, count, receives);
      (!t.failed ==> Settled(t.broker.log) == t.broker.delivered) && SettledOnce(t.broker, faults)
    decreases |b.source|
  {
    RestoreBatchSettles(Receive(b.source), b, faults);
    var o := RestoreRound(b, faults);
    var count1, receives1 := if o.Returned? then count + o.value else count, receives + 1;
    RestoreRoundsUnfold(b, faults, count, receives, o, count1, receives1);
    if o.Returned? && o.value >= BATCH_SIZE {
      RestoreRoundsSettle(o.state, faults, count1, receives1);
    }
  }

  /** Across all rounds no message is lost: each is still in the sub-queue or was completed. */
  lemma {:induction false} RestoreRoundsConserve(b: Broker, faults: Faults, count: int, receives: nat)
    ensures var t := RestoreRounds(b, faults, count, receives);
      multiset(t.broker.source) + multiset(CompletedIn(t.broker.log))
      == multiset(b.source) + multiset(CompletedIn(b.log))
    decreases |b.source|
  {
    ReceiveIn(b.source);
    RestoreBatchConserves(Receive(b.source), b, faults);
    var o := RestoreRound(b, faults);
    var count1, receives1 := if o.Returned? then count + o.value else count, receives + 1;
    RestoreRoundsUnfold(b, faults, count, receives, o, count1, receives1);
    if o.Returned? && o.value >= BATCH_SIZE {
      RestoreRoundsConserve(o.state, faults, count1, receives1);
    }
  }

  /**
   * Whatever fails, moveAllMessagesToQueue loses no dead-lettered message: each
   * is still in the sub-queue or was completed. Each message it sent is settled
   * exactly once, except that a transfer ended by an exception leaves its last
   * sent message unsettled when that message's complete and abandon both threw.
   */
  lemma MoveAllMessagesToQueueSafe(dlq: seq<ReceivedMessage>, faults: Faults)
    ensures var t := RestoreAll(dlq, faults);
      && (!t.failed ==> Settled(t.broker.log) == t.broker.delivered)
      && SettledOnce(t.broker, faults)
      && multiset(t.broker.source) + multiset(CompletedIn(t.broker.log)) == multiset(dlq)
  {
    var b := Broker(dlq, [], []);
    assert Settled(b.log) == b.delivered;
    RestoreRoundsSettle(b, faults, 0, 0);
    RestoreRoundsConserve(b, faults, 0, 0);
  }

  /** A message of the batch that cannot be completed ends moveAllMessagesToQueue after that batch. */
  lemma RestoreStopsOnCompleteFailure(b: Broker, faults: Faults, count: int, receives: nat, m: ReceivedMessage)
    requires m in Receive(b.source) && m in faults.completeFails
    ensures RestoreRound(b, faults).Returned? ==>
      RestoreRounds(b, faults, count, receives)
      == Transfer(RestoreRound(b, faults).state, count + RestoreRound(b, faults).value, receives + 1, false)
  {
    ReceiveIn(b.source);
    RestoreBatchCounts(Receive(b.source), b, faults);
  }

  /** The broker once moveAllMessagesToQueue has restored the first k messages with nothing failing. */
  function RestoredUpTo(dlq: seq<ReceivedMessage>, k: nat): Broker
    requires k <= |dlq|
  {
    Broker(dlq[k..], dlq[..k], CompletedLog(dlq[..k]))
  }

  /** With nothing failing, the head of the sub-queue is sent, completed and counted. */
  lemma RestoreHead(b: Broker)
    requires b.source != []
    ensures RestoreAction(NO_FAULTS)(b, b.source[0])
         == Returned(Broker(b.source[1..], b.delivered + [b.source[0]], b.log + [Completed(b.source[0])]), 1)
  {
  }

  lemma {:induction false} RestoreBatchClean(batch: seq<ReceivedMessage>, b: Broker)
    requires |batch| <= |b.source| && batch == b.source[..|batch|]
    ensures ApplyAll(batch, b, RestoreAction(NO_FAULTS))
         == Returned(Broker(b.source[|batch|..], b.delivered + batch, b.log + CompletedLog(batch)), |batch|)
  {
    if batch == [] {
      assert b.source[0..] == b.source;
      assert b.delivered + batch == b.delivered;
      assert b.log + CompletedLog(batch) == b.log;
    } else {
      var m := batch[0];
      var b1 := Broker(b.source[1..], b.delivered + [m], b.log + [Completed(m)]);
      assert ApplyAll(batch, b, RestoreAction(NO_FAULTS)) == Plus(1, ApplyAll(batch[1..], b1, RestoreAction(NO_FAULTS))) by {
        RestoreHead(b);
      }
      assert batch[1..] == b1.source[..|batch| - 1];
      RestoreBatchClean(batch[1..], b1);
      assert b1.source[|batch| - 1..] == b.source[|batch|..];
      RestoreCons(b, batch);
    }
  }

  lemma RestoreCons(b: Broker, batch: seq<ReceivedMessage>)
    requires batch != []
    ensures b.delivered + [batch[0]] + batch[1..] == b.delivered + batch
    ensures b.log + [Completed(batch[0])] + CompletedLog(batch[1..]) == b.log + CompletedLog(batch)
  {
    assert b.delivered + [batch[0]] + batch[1..] == b.delivered + ([batch[0]] + batch[1..]);
    assert [batch[0]] + batch[1..] == batch;
    assert b.log + [Completed(batch[0])] + CompletedLog(batch[1..])
        == b.log + ([Completed(batch[0])] + CompletedLog(batch[1..]));
  }

  lemma {:induction false} CompletedLogAppend(done: seq<ReceivedMessage>, batch: seq<ReceivedMessage>)
    ensures CompletedLog(done) + CompletedLog(batch) == CompletedLog(done + batch)
  {
    if done == [] {
      assert done + batch == batch;
    } else {
      assert (done + batch)[1..] == done[1..] + batch;
      CompletedLogAppend(done[1..], batch);
    }
  }

  /** With nothing failing, a round restores the next batch of the sub-queue: n messages, up to index next. */
  lemma RestoreRoundClean(dlq: seq<ReceivedMessage>, k: nat) returns (n: nat, next: nat)
    requires k <= |dlq|
    ensures next == k + n && next <= |dlq| && n <= BATCH_SIZE
    ensures n < BATCH_SIZE ==> next == |dlq|
    ensures RestoreRound(RestoredUpTo(dlq, k), NO_FAULTS) == Returned(RestoredUpTo(dlq, next), n)
  {
    var batch := Receive(dlq[k..]);
    n, next := |batch|, k + |batch|;
    RestoreBatchClean(batch, RestoredUpTo(dlq, k));
    SliceJoin(dlq, k, n);
    CompletedLogAppend(dlq[..k], batch);
  }

  lemma {:induction false} RestoreRoundsClean(dlq: seq<ReceivedMessage>, k: nat, rounds: nat)
    requires k <= |dlq| && k == BATCH_SIZE * rounds
    ensures RestoreRounds(RestoredUpTo(dlq, k), NO_FAULTS, k, rounds)
         == Transfer(RestoredUpTo(dlq, |dlq|), |dlq|, |dlq| / BATCH_SIZE + 1, false)
    decreases |dlq| - k
  {
    var n, next := RestoreRoundClean(dlq, k);
    var nextRounds := rounds + 1;
    RestoreRoundsUnfold(RestoredUpTo(dlq, k), NO_FAULTS, k, rounds, RestoreRound(RestoredUpTo(dlq, k), NO_FAULTS), next, nextRounds);
    if n >= BATCH_SIZE {
      RestoreRoundsClean(dlq, next, nextRounds);
    } else {
      LastRound(|dlq|, k, rounds);
    }
  }

  /** The round that receives fewer than BATCH_SIZE messages is the last one, and the receives counted so far are |dlq| / BATCH_SIZE. */
  lemma LastRound(size: nat, k: nat, rounds: nat)
    requires k == BATCH_SIZE * rounds && k <= size < k + BATCH_SIZE
    ensures size / BATCH_SIZE == rounds
  {
  }

  /**
   * With nothing failing, moveAllMessagesToQueue sends every dead-lettered
   * message back in order, completes each one, empties the sub-queue and
   * reports their number, after |dlq| / 2 + 1 receives.
   */
  lemma MoveAllMessagesToQueueClean(dlq: seq<ReceivedMessage>)
    ensures RestoreAll(dlq, NO_FAULTS) == Transfer(Broker([], dlq, CompletedLog(dlq)), |dlq|, |dlq| / BATCH_SIZE + 1, false)
  {
    assert RestoredUpTo(dlq, 0) == Broker(dlq, [], []) by {
      assert dlq[0..] == dlq && dlq[..0] == [];
    }
    assert RestoredUpTo(dlq, |dlq|) == Broker([], dlq, CompletedLog(dlq)) by {
      assert dlq[..|dlq|] == dlq;
    }
    RestoreRoundsClean(dlq, 0, 0);
  }

  /**
   * moveAllMessagesToQueue: peek-lock on the dead-letter sub-queue; each message
   * is cloned to the entity and then completed (or abandoned); repeated while a
   * batch counts at least BATCH_SIZE. A failed send escapes to the catch block
   * and ends the transfer.
   */
  method MoveAllMessagesToQueue(dlq: seq<ReceivedMessage>, faults: Faults) returns (t: Transfer)
    ensures t == RestoreAll(dlq, faults)
  {
    var broker := Broker(dlq, [], []);
    var count, receives := 0, 0;
    ghost var goal := RestoreAll(dlq, faults);
    while true
      invariant RestoreRounds(broker, faults, count, receives) == goal
      decreases |broker.source|
    {
      var outcome := ReceiveRestoreRound(broker, faults);
      var nextReceives := receives + 1;
      if outcome.Thrown? {
        RestoreRoundsUnfold(broker, faults, count, receives, outcome, count, nextReceives);
        return Transfer(outcome.state, count, nextReceives, true);
      }
      var receivedCount := outcome.value;
      var nextCount := count + receivedCount;
      RestoreRoundsUnfold(broker, faults, count, receives, outcome, nextCount, nextReceives);
      broker, count, receives := outcome.state, nextCount, nextReceives;
      if receivedCount < BATCH_SIZE {
        return Transfer(broker, count, receives, false);
      }
    }
  }

  // ----- restore selected messages -----

  /**
   * The filter of both selective moves: the target's id is non-null and equal to
   * the received message's, and the sequence numbers agree.
   */
  predicate Matches(target: ReceivedMessage, m: ReceivedMessage) {
    target.header.messageId.Some? && target.header.messageId == m.header.messageId
    && target.sequenceNumber == m.sequenceNumber
  }

  /**
   * The stream lookup of a received message among the targets: the first
   * matching target, or null; a target with a null id reached before a match
   * makes getMessageId().equals throw.
   */
  function FindMatch(targets: seq<ReceivedMessage>, m: ReceivedMessage): (r: Result<Option<ReceivedMessage>, string>)
    ensures r.Failure? ==> exists i :: 0 <= i < |targets| && targets[i].header.messageId.None?
    ensures (forall i :: 0 <= i < |targets| ==> targets[i].header.messageId.Some?) ==> r.Success?
    ensures r.Success? && r.value.Some? ==> r.value.value in targets && Matches(r.value.value, m)
    ensures r.Success? && r.value.None? ==> forall i :: 0 <= i < |targets| ==> !Matches(targets[i], m)
  {
    if targets == [] then Success(None)
    else if targets[0].header.messageId.None? then Failure("NullPointerException")
    else if Matches(targets[0], m) then Success(Some(targets[0]))
    else FindMatch(targets[1..], m)
  }

  /** What a selective move has done so far: the broker, the targets still wanted, and the targets moved, in order. */
  datatype Selection = Selection(broker: Broker, targets: seq<ReceivedMessage>, removed: seq<ReceivedMessage>)

  /** One batch of moveMessagesToQueue: the selection and the count of unmatched messages of this batch. */
  datatype Round = Round(sel: Selection, unmatched: nat)

  /**
   * The per-message action of moveMessagesToQueue: a matched message has a
   * clone of its target sent, the target moved from the targets to the result,
   * and is then completed (completeMessage); an unmatched one is abandoned and
   * counted. A failed lookup, send or abandon throws, and so does a
   * completeMessage whose own abandon throws, after the target has moved.
   */
  function SelectStep(r: Round, m: ReceivedMessage, faults: Faults): Outcome<Round> {
    var s := r.sel;
    match FindMatch(s.targets, m)
    case Failure(_) => Thrown(r)
    case Success(None) =>
      if m in faults.abandonFails then Thrown(r)
      else Returned(Round(s.(broker := s.broker.(log := s.broker.log + [Abandoned(m)])), r.unmatched + 1), 0)
    case Success(Some(t)) =>
      if t in faults.sendFails then Thrown(r)
      else
        var c := CompleteMessage(s.broker.(delivered := s.broker.delivered + [t]), m, faults);
        var moved := Round(Selection(c.state, Remove(s.targets, t), s.removed + [t]), r.unmatched);
        if c.Thrown? then Thrown(moved) else Returned(moved, c.value)
  }

  function SelectAction(faults: Faults): (Round, ReceivedMessage) -> Outcome<Round> {
    (r, m) => SelectStep(r, m, faults)
  }

  /** How moveMessagesToQueue ended: in the catch block, by its break, or with the round budget spent. */
  datatype Selected = Selected(sel: Selection, failed: bool, exhausted: bool)

  /** One batch of moveMessagesToQueue from selection s, with the unmatched count reset. */
  function SelectRound(s: Selection, faults: Faults): Outcome<Round> {
    ApplyAll(Receive(s.broker.source), Round(s, 0), SelectAction(faults))
  }

  /** receiveMatchAndComplete with the action of moveMessagesToQueue. */
  method ReceiveSelectRound(s: Selection, faults: Faults) returns (outcome: Outcome<Round>)
    ensures outcome == SelectRound(s, faults)
  {
    var _, o := ReceiveMatchAndComplete(s.broker.source, Round(s, 0), SelectAction(faults));
    outcome := o;
  }

  /**
   * The rounds of moveMessagesToQueue from selection s on, at most `fuel` of
   * them. A round breaks out when fewer than BATCH_SIZE of its messages were
   * unmatched or no target is left.
   */
  function SelectRounds(s: Selection, faults: Faults, fuel: nat): Selected
    decreases fuel, 1
  {
    if fuel == 0 then Selected(s, false, true)
    else AfterRound(SelectRound(s, faults), faults, fuel - 1)
  }

  /** The loop test of moveMessagesToQueue after a round's outcome, with `left` rounds to go. */
  function AfterRound(outcome: Outcome<Round>, faults: Faults, left: nat): Selected
    decreases left + 1, 0
  {
    match outcome
    case Thrown(r) => Selected(r.sel, true, false)
    case Returned(r, _) =>
      if r.unmatched < BATCH_SIZE || r.sel.targets == [] then Selected(r.sel, false, false)
      else SelectRounds(r.sel, faults, left)
  }

  /** After a round of moveMessagesToQueue the loop either breaks out with its result or goes on from a new selection. */
  datatype Step = Break(done: Selected) | Continue(next: Selection)

  /** One round of the loop in moveMessagesToQueue, and whether the loop goes on. */
  method SelectRoundOrBreak(s: Selection, faults: Faults, fuel: nat, left: nat) returns (step: Step)
    requires fuel == left + 1
    ensures step.Break? ==> SelectRounds(s, faults, fuel) == step.done
    ensures step.Continue? ==> SelectRounds(s, faults, fuel) == SelectRounds(step.next, faults, left)
  {
    var outcome := ReceiveSelectRound(s, faults);
    assert SelectRounds(s, faults, fuel) == AfterRound(outcome, faults, left);
    if outcome.Thrown? {
      step := Break(Selected(outcome.state.sel, true, false));
    } else if outcome.state.unmatched < BATCH_SIZE || outcome.state.sel.targets == [] {
      step := Break(Selected(outcome.state.sel, false, false));
    } else {
      step := Continue(outcome.state.sel);
    }
  }

  function SelectAll(dlq: seq<ReceivedMessage>, targets: seq<ReceivedMessage>, faults: Faults, fuel: nat): Selected {
    SelectRounds(Selection(Broker(dlq, [], []), targets, []), faults, fuel)
  }

  /**
   * moveMessagesToQueue, run for at most `fuel` rounds: peek-lock on the
   * dead-letter sub-queue, moving the messages that match a target and
   * abandoning the others. The result is the list of moved targets.
   */
  method MoveMessagesToQueue(dlq: seq<ReceivedMessage>, targets: seq<ReceivedMessage>, faults: Faults, fuel: nat)
    returns (removed: seq<ReceivedMessage>, r: Selected)
    ensures r == SelectAll(dlq, targets, faults, fuel) && removed == r.sel.removed
  {
    var s := Selection(Broker(dlq, [], []), targets, []);
    var roundsLeft := fuel;
    ghost var goal := SelectAll(dlq, targets, faults, fuel);
    while roundsLeft > 0
      invariant SelectRounds(s, faults, roundsLeft) == goal
      decreases roundsLeft
    {
      var left := roundsLeft - 1;
      var step := SelectRoundOrBreak(s, faults, roundsLeft, left);
      if step.Break? {
        r, removed := step.done, step.done.sel.removed;
        return;
      }
      s, roundsLeft := step.next, left;
    }
    r, removed := Selected(s, false, true), s.removed;
  }

  /** What a selective move holds on to: the targets moved plus the targets still wanted. */
  function Kept(s: Selection): multiset<ReceivedMessage> {
    multiset(s.removed) + multiset(s.targets)
  }

  /** A step of moveMessagesToQueue only moves a target from the wanted list to the result. */
  lemma SelectStepConserves(r: Round, m: ReceivedMessage, faults: Faults)
    ensures Kept(SelectStep(r, m, faults).state.sel) == Kept(r.sel)
  {
    var s := r.sel;
    match FindMatch(s.targets, m)
    case Failure(_) =>
    case Success(None) =>
    case Success(Some(t)) =>
      if t !in faults.sendFails {
        var s1 := SelectStep(r, m, faults).state.sel;
        assert s1.removed == s.removed + [t] && s1.targets == Remove(s.targets, t);
      }
  }

  lemma {:induction false} SelectBatchConserves(batch: seq<ReceivedMessage>, r: Round, faults: Faults)
    ensures Kept(ApplyAll(batch, r, SelectAction(faults)).state.sel) == Kept(r.sel)
  {
    if batch != [] {
      SelectStepConserves(r, batch[0], faults);
      var step := SelectStep(r, batch[0], faults);
      if step.Returned? {
        SelectBatchConserves(batch[1..], step.state, faults);
      }
    }
  }

  /**
   * Whatever happens, moveMessagesToQueue returns only original targets, each
   * at most as often as it was given, so never more than it was given.
   */
  lemma {:induction false} SelectRoundsConserves(s: Selection, faults: Faults, fuel: nat)
    ensures Kept(SelectRounds(s, faults, fuel).sel) == Kept(s)
    decreases fuel
  {
    if fuel > 0 {
      SelectBatchConserves(Receive(s.broker.source), Round(s, 0), faults);
      var o := SelectRound(s, faults);
      if o.Returned? && !(o.state.unmatched < BATCH_SIZE || o.state.sel.targets == []) {
        SelectRoundsConserves(o.state.sel, faults, fuel - 1);
      }
    }
  }

  lemma MoveMessagesToQueueSubset(dlq: seq<ReceivedMessage>, targets: seq<ReceivedMessage>, faults: Faults, fuel: nat)
    ensures multiset(SelectAll(dlq, targets, faults, fuel).sel.removed) <= multiset(targets)
    ensures |SelectAll(dlq, targets, faults, fuel).sel.removed| <= |targets|
  {
    var s := Selection(Broker(dlq, [], []), targets, []);
    SelectRoundsConserves(s, faults, fuel);
    var r := SelectAll(dlq, targets, faults, fuel).sel;
    assert multiset(s.removed) == multiset{};
    assert Kept(r) == multiset(targets);
    assert multiset(r.removed) <= Kept(r);
    assert |multiset(r.removed)| <= |Kept(r)|;
  }

  /** No target matches m, and every target's id is non-null. */
  predicate Unwanted(targets: seq<ReceivedMessage>, m: ReceivedMessage) {
    forall i :: 0 <= i < |targets| ==> targets[i].header.messageId.Some? && !Matches(targets[i], m)
  }

  /** Two unwanted messages at the head of the sub-queue are abandoned, leaving the sub-queue as it was. */
  lemma SelectRoundAbandonsBoth(s: Selection, faults: Faults)
    requires |s.broker.source| >= 2
    requires Unwanted(s.targets, s.broker.source[0]) && Unwanted(s.targets, s.broker.source[1])
    requires s.broker.source[0] !in faults.abandonFails && s.broker.source[1] !in faults.abandonFails
    ensures SelectRound(s, faults).Returned?
    ensures SelectRound(s, faults).state.unmatched == 2
    ensures SelectRound(s, faults).state.sel.broker.source == s.broker.source
    ensures SelectRound(s, faults).state.sel.targets == s.targets
  {
    var q := s.broker.source;
    var batch := Receive(q);
    assert batch == [q[0], q[1]];
    var r1 := Round(s.(broker := s.broker.(log := s.broker.log + [Abandoned(q[0])])), 1);
    assert SelectStep(Round(s, 0), q[0], faults) == Returned(r1, 0);
    var s2 := r1.sel.(broker := r1.sel.broker.(log := r1.sel.broker.log + [Abandoned(q[1])]));
    assert SelectStep(r1, q[1], faults) == Returned(Round(s2, 2), 0);
    var act := SelectAction(faults);
    assert batch[1..] == [q[1]] && batch[1..][1..] == [];
    assert ApplyAll(batch[1..], r1, act) == Returned(Round(s2, 2), 0);
    assert ApplyAll(batch, Round(s, 0), act) == Returned(Round(s2, 2), 0);
  }

  /**
   * Finding: once the first two messages of the dead-letter sub-queue match no
   * target, and abandoning them succeeds, moveMessagesToQueue abandons them and
   * receives them again, round after round, and never ends, whatever its budget.
   */
  lemma {:induction false} SelectNeverEnds(s: Selection, faults: Faults, fuel: nat)
    requires |s.broker.source| >= 2 && s.targets != []
    requires Unwanted(s.targets, s.broker.source[0]) && Unwanted(s.targets, s.broker.source[1])
    requires s.broker.source[0] !in faults.abandonFails && s.broker.source[1] !in faults.abandonFails
    ensures SelectRounds(s, faults, fuel).exhausted
    decreases fuel
  {
    if fuel > 0 {
      SelectRoundAbandonsBoth(s, faults);
      SelectNeverEnds(SelectRound(s, faults).state.sel, faults, fuel - 1);
    }
  }

  /**
   * An unwanted message at the head of the sub-queue whose abandon throws ends
   * moveMessagesToQueue in its catch block at once, with nothing moved or
   * settled and the message still in the sub-queue.
   */
  lemma SelectAbandonFailureEnds(s: Selection, faults: Faults, fuel: nat)
    requires s.broker.source != [] && fuel > 0
    requires Unwanted(s.targets, s.broker.source[0]) && s.broker.source[0] in faults.abandonFails
    ensures SelectRounds(s, faults, fuel) == Selected(s, true, false)
  {
    var q := s.broker.source;
    var batch := Receive(q);
    assert batch[0] == q[0];
    assert SelectStep(Round(s, 0), q[0], faults) == Thrown(Round(s, 0));
    assert ApplyAll(batch, Round(s, 0), SelectAction(faults)) == Thrown(Round(s, 0));
  }

  /**
   * A matched message whose complete and abandon both throw ends the round in
   * the catch block after its clone was sent and its target moved to the result,
   * with the message still in the sub-queue and not settled.
   */
  lemma SelectCompleteAndAbandonFail(r: Round, m: ReceivedMessage, t: ReceivedMessage, faults: Faults)
    requires FindMatch(r.sel.targets, m) == Success(Some(t))
    requires t !in faults.sendFails && m in faults.completeFails && m in faults.abandonFails
    ensures var b := r.sel.broker;
      SelectStep(r, m, faults)
      == Thrown(Round(Selection(b.(delivered := b.delivered + [t]), Remove(r.sel.targets, t), r.sel.removed + [t]), r.unmatched))
  {
  }

  /** A matched message whose send and complete succeed: its target moves to the result and it leaves the sub-queue. */
  lemma SelectStepMoves(r: Round, m: ReceivedMessage, t: ReceivedMessage, faults: Faults)
    requires FindMatch(r.sel.targets, m) == Success(Some(t))
    requires t !in faults.sendFails && m !in faults.completeFails
    ensures var b := r.sel.broker;
      SelectStep(r, m, faults)
      == Returned(Round(Selection(Broker(Remove(b.source, m), b.delivered + [t], b.log + [Completed(m)]),
                                  Remove(r.sel.targets, t), r.sel.removed + [t]), r.unmatched), 1)
  {
  }

  /** Messages with a non-null id whose id and sequence number tell them apart. */
  predicate Distinct3(a: ReceivedMessage, b: ReceivedMessage, c: ReceivedMessage) {
    && a.header.messageId.Some? && b.header.messageId.Some? && c.header.messageId.Some?
    && !Matches(a, b) && !Matches(a, c) && !Matches(b, a) && !Matches(b, c) && !Matches(c, a) && !Matches(c, b)
  }

  /**
   * Finding: asked to move the three messages of a three-message dead-letter
   * sub-queue, moveMessagesToQueue moves the first two and stops, because its
   * loop test counts unmatched messages instead of received ones; the third
   * stays behind.
   */
  lemma SelectStopsAfterOneBatch(a: ReceivedMessage, b: ReceivedMessage, c: ReceivedMessage, fuel: nat)
    requires fuel > 0 && Distinct3(a, b, c)
    ensures var r := SelectAll([a, b, c], [a, b, c], NO_FAULTS, fuel);
      && r.sel.removed == [a, b] && r.sel.targets == [c] && r.sel.broker.source == [c]
      && !r.failed && !r.exhausted
  {
    var s0 := Selection(Broker([a, b, c], [], []), [a, b, c], []);
    var s2 := Selection(Broker([c], [a, b], [Completed(a), Completed(b)]), [c], [a, b]);
    FirstTwoMoved(a, b, c);
    assert SelectAll([a, b, c], [a, b, c], NO_FAULTS, fuel) == AfterRound(Returned(Round(s2, 0), 2), NO_FAULTS, fuel - 1);
  }

  lemma FirstTwoMoved(a: ReceivedMessage, b: ReceivedMessage, c: ReceivedMessage)
    requires Distinct3(a, b, c)
    ensures SelectRound(Selection(Broker([a, b, c], [], []), [a, b, c], []), NO_FAULTS)
         == Returned(Round(Selection(Broker([c], [a, b], [Completed(a), Completed(b)]), [c], [a, b]), 0), 2)
  {
    var act := SelectAction(NO_FAULTS);
    var s0 := Selection(Broker([a, b, c], [], []), [a, b, c], []);
    var s1 := Selection(Broker([b, c], [a], [Completed(a)]), [b, c], [a]);
    var s2 := Selection(Broker([c], [a, b], [Completed(a), Completed(b)]), [c], [a, b]);
    FirstMoved(a, b, c);
    SecondMoved(a, b, c);
    ApplyTwo(a, b, Round(s0, 0), act);
    assert Receive([a, b, c]) == [a, b];
  }

  lemma FirstMoved(a: ReceivedMessage, b: ReceivedMessage, c: ReceivedMessage)
    requires Distinct3(a, b, c)
    ensures SelectAction(NO_FAULTS)(Round(Selection(Broker([a, b, c], [], []), [a, b, c], []), 0), a)
         == Returned(Round(Selection(Broker([b, c], [a], [Completed(a)]), [b, c], [a]), 0), 1)
  {
    var s0 := Selection(Broker([a, b, c], [], []), [a, b, c], []);
    assert FindMatch([a, b, c], a) == Success(Some(a));
    assert Remove([a, b, c], a) == [b, c];
    SelectStepMoves(Round(s0, 0), a, a, NO_FAULTS);
    assert [] + [a] == [a] && [] + [Completed(a)] == [Completed(a)];
  }

  lemma SecondMoved(a: ReceivedMessage, b: ReceivedMessage, c: ReceivedMessage)
    requires Distinct3(a, b, c)
    ensures SelectAction(NO_FAULTS)(Round(Selection(Broker([b, c], [a], [Completed(a)]), [b, c], [a]), 0), b)
         == Returned(Round(Selection(Broker([c], [a, b], [Completed(a), Completed(b)]), [c], [a, b]), 0), 1)
  {
    var s1 := Selection(Broker([b, c], [a], [Completed(a)]), [b, c], [a]);
    assert FindMatch([b, c], b) == Success(Some(b));
    assert Remove([b, c], b) == [c];
    SelectStepMoves(Round(s1, 0), b, b, NO_FAULTS);
    assert [a] + [b] == [a, b] && [Completed(a)] + [Completed(b)] == [Completed(a), Completed(b)];
  }

  // ----- moveMessagesToQueue with the loop test corrected -----

  /**
   * The rounds of moveMessagesToQueue with the batch counter bumped for every
   * received message, as the loop test evidently intends: a round goes on to the
   * next only after a full batch, while targets remain.
   */
  function FixedRounds(s: Selection, faults: Faults, fuel: nat): Selected
    decreases fuel, 1
  {
    if fuel == 0 then Selected(s, false, true)
    else FixedAfter(SelectRound(s, faults), |Receive(s.broker.source)|, faults, fuel - 1)
  }

  /** The corrected loop test after a round that received `received` messages, with `left` rounds to go. */
  function FixedAfter(outcome: Outcome<Round>, received: nat, faults: Faults, left: nat): Selected
    decreases left + 1, 0
  {
    match outcome
    case Thrown(r) => Selected(r.sel, true, false)
    case Returned(r, _) =>
      if received < BATCH_SIZE || r.sel.targets == [] then Selected(r.sel, false, false)
      else FixedRounds(r.sel, faults, left)
  }

  /** The corrected loop, run for at most `fuel` rounds; the result is the list of moved targets. */
  method MoveMessagesToQueueFixed(dlq: seq<ReceivedMessage>, targets: seq<ReceivedMessage>, faults: Faults, fuel: nat)
    returns (removed: seq<ReceivedMessage>, r: Selected)
    ensures r == FixedRounds(Selection(Broker(dlq, [], []), targets, []), faults, fuel) && removed == r.sel.removed
  {
    var s := Selection(Broker(dlq, [], []), targets, []);
    var roundsLeft := fuel;
    ghost var goal := FixedRounds(s, faults, fuel);
    while roundsLeft > 0
      invariant FixedRounds(s, faults, roundsLeft) == goal
      decreases roundsLeft
    {
      var received := |Receive(s.broker.source)|;
      var outcome := ReceiveSelectRound(s, faults);
      if outcome.Thrown? {
        r := Selected(outcome.state.sel, true, false);
        removed := r.sel.removed;
        return;
      }
      if received < BATCH_SIZE || outcome.state.sel.targets == [] {
        r := Selected(outcome.state.sel, false, false);
        removed := r.sel.removed;
        return;
      }
      s, roundsLeft := outcome.state.sel, roundsLeft - 1;
    }
    r, removed := Selected(s, false, true), s.removed;
  }

  /** Every message has a non-null id. */
  predicate HasIds(q: seq<ReceivedMessage>) {
    forall i :: 0 <= i < |q| ==> q[i].header.messageId.Some?
  }

  /** The head of a sub-queue that is also the head of the targets is moved and completed. */
  lemma SelectStepHead(r: Round)
    requires r.sel.broker.source != [] && r.sel.targets == r.sel.broker.source
    requires r.sel.targets[0].header.messageId.Some?
    ensures var q, b := r.sel.targets, r.sel.broker;
      SelectStep(r, q[0], NO_FAULTS)
      == Returned(Round(Selection(Broker(q[1..], b.delivered + [q[0]], b.log + [Completed(q[0])]),
                                  q[1..], r.sel.removed + [q[0]]), r.unmatched), 1)
  {
    var q := r.sel.targets;
    assert FindMatch(q, q[0]) == Success(Some(q[0]));
    SelectStepMoves(r, q[0], q[0], NO_FAULTS);
  }

  /** The round after the first n messages of a sub-queue equal to the targets have been moved. */
  function Drained(r: Round, n: nat): Round
    requires n <= |r.sel.targets|
  {
    var q, b := r.sel.targets, r.sel.broker;
    Round(Selection(Broker(q[n..], b.delivered + q[..n], b.log + CompletedLog(q[..n])),
                    q[n..], r.sel.removed + q[..n]), r.unmatched)
  }

  /** Moving the head, then n - 1 more, is moving n. */
  lemma DrainedStep(r: Round, n: nat)
    requires 0 < n <= |r.sel.targets|
    ensures var q, b := r.sel.targets, r.sel.broker;
      Drained(Round(Selection(Broker(q[1..], b.delivered + [q[0]], b.log + [Completed(q[0])]),
                              q[1..], r.sel.removed + [q[0]]), r.unmatched), n - 1)
      == Drained(r, n)
  {
    var q := r.sel.targets;
    var q1 := q[1..];
    assert q1[n - 1..] == q[n..];
    assert q[..n] == [q[0]] + q1[..n - 1];
    assert q[..n][1..] == q1[..n - 1];
    assert CompletedLog(q[..n]) == [Completed(q[0])] + CompletedLog(q1[..n - 1]);
  }

  /** The first n messages of a sub-queue that equals the targets are all moved, in order. */
  lemma {:induction false} SelectBatchHead(n: nat, r: Round)
    requires r.sel.targets == r.sel.broker.source && n <= |r.sel.targets| && HasIds(r.sel.targets)
    ensures var o := ApplyAll(r.sel.targets[..n], r, SelectAction(NO_FAULTS));
      o.Returned? && o.state == Drained(r, n)
    decreases n
  {
    var q := r.sel.targets;
    if n == 0 {
      assert q[..0] == [] && q[0..] == q;
    } else {
      SelectStepHead(r);
      var act := SelectAction(NO_FAULTS);
      var r1 := act(r, q[0]).state;
      var q1 := q[1..];
      assert HasIds(q1) by {
        forall i | 0 <= i < |q1| ensures q1[i].header.messageId.Some? {
          assert q1[i] == q[i + 1];
        }
      }
      assert q[..n][0] == q[0] && q[..n][1..] == q1[..n - 1];
      assert ApplyAll(q[..n], r, act) == Plus(1, ApplyAll(q1[..n - 1], r1, act));
      SelectBatchHead(n - 1, r1);
      DrainedStep(r, n);
    }
  }

  lemma HasIdsSuffix(q: seq<ReceivedMessage>, n: nat)
    requires HasIds(q) && n <= |q|
    ensures HasIds(q[n..])
  {
    forall i | 0 <= i < |q| - n ensures q[n..][i].header.messageId.Some? {
      assert q[n..][i] == q[n + i];
    }
  }

  /** One round of the corrected loop over a sub-queue equal to the targets, unfolded. */
  lemma FixedRoundHead(s: Selection, fuel: nat) returns (n: nat, s1: Selection)
    requires s.targets == s.broker.source && HasIds(s.targets) && fuel > 0
    ensures var q := s.targets;
      && n == |Receive(q)| <= |q| && (n < BATCH_SIZE ==> n == |q|)
      && s1.targets == q[n..] && s1.broker.source == q[n..] && s1.removed == s.removed + q[..n]
    ensures n < BATCH_SIZE || s1.targets == [] ==> FixedRounds(s, NO_FAULTS, fuel) == Selected(s1, false, false)
    ensures n == BATCH_SIZE && s1.targets != [] ==> FixedRounds(s, NO_FAULTS, fuel) == FixedRounds(s1, NO_FAULTS, fuel - 1)
  {
    var q := s.targets;
    n := |Receive(q)|;
    assert Receive(q) == q[..n];
    SelectBatchHead(n, Round(s, 0));
    s1 := Drained(Round(s, 0), n).sel;
  }

  /** The loop ended normally with every target moved, in order, and the sub-queue empty. */
  predicate MovedAll(s: Selection, r: Selected) {
    && r.sel.removed == s.removed + s.targets && r.sel.targets == [] && r.sel.broker.source == []
    && !r.failed && !r.exhausted
  }

  /**
   * Asked to move every message of the dead-letter sub-queue, the corrected loop
   * moves them all, in order, empties the sub-queue and ends, given one round per
   * batch.
   */
  lemma {:induction false} FixedRoundsDrain(s: Selection, fuel: nat)
    requires s.targets == s.broker.source && HasIds(s.targets)
    requires fuel * BATCH_SIZE > |s.targets|
    ensures MovedAll(s, FixedRounds(s, NO_FAULTS, fuel))
    decreases fuel
  {
    var q := s.targets;
    var n, s1 := FixedRoundHead(s, fuel);
    if n < BATCH_SIZE || q[n..] == [] {
      MovedAllAtOnce(s, s1, n);
    } else {
      DrainedRest(s, s1, fuel, n);
      FixedRoundsDrain(s1, fuel - 1);
      MovedAllShift(s, s1, FixedRounds(s1, NO_FAULTS, fuel - 1), n);
    }
  }

  /** What the first round leaves: a sub-queue still equal to the targets, fewer rounds needed. */
  lemma DrainedRest(s: Selection, s1: Selection, fuel: nat, n: nat)
    requires s.targets == s.broker.source && HasIds(s.targets)
    requires fuel * BATCH_SIZE > |s.targets| && fuel > 0 && n == BATCH_SIZE <= |s.targets|
    requires s1.targets == s.targets[n..] && s1.broker.source == s.targets[n..]
    ensures s1.targets == s1.broker.source && HasIds(s1.targets) && (fuel - 1) * BATCH_SIZE > |s1.targets|
  {
    HasIdsSuffix(s.targets, n);
  }

  /** A first round that leaves nothing behind has moved everything. */
  lemma MovedAllAtOnce(s: Selection, s1: Selection, n: nat)
    requires n <= |s.targets| && s.targets[n..] == []
    requires s1.targets == s.targets[n..] && s1.broker.source == s.targets[n..] && s1.removed == s.removed + s.targets[..n]
    ensures MovedAll(s, Selected(s1, false, false))
  {
    assert s.targets[..n] == s.targets;
  }

  /** Moving the rest after the first batch is moving everything. */
  lemma MovedAllShift(s: Selection, s1: Selection, r: Selected, n: nat)
    requires n <= |s.targets| && s1.targets == s.targets[n..] && s1.removed == s.removed + s.targets[..n]
    requires MovedAll(s1, r)
    ensures MovedAll(s, r)
  {
    var q := s.targets;
    assert s.removed + q[..n] + q[n..] == s.removed + q;
  }

  /** With the corrected counter the three-message sub-queue that the written loop leaves half-moved is moved whole. */
  lemma FixedMovesAllThree(a: ReceivedMessage, b: ReceivedMessage, c: ReceivedMessage, fuel: nat)
    requires fuel >= 2 && Distinct3(a, b, c)
    ensures var r := FixedRounds(Selection(Broker([a, b, c], [], []), [a, b, c], []), NO_FAULTS, fuel);
      && r.sel.removed == [a, b, c] && r.sel.targets == [] && r.sel.broker.source == []
      && !r.failed && !r.exhausted
  {
    var s := Selection(Broker([a, b, c], [], []), [a, b, c], []);
    assert HasIds([a, b, c]);
    FixedRoundsDrain(s, fuel);
  }

  /**
   * The corrected counter alone does not end the loop when the first two messages
   * of the sub-queue match no target: they are abandoned, received again as a full
   * batch, and the loop goes on whatever its budget.
   */
  lemma {:induction false} FixedStillLoops(s: Selection, faults: Faults, fuel: nat)
    requires |s.broker.source| >= 2 && s.targets != []
    requires Unwanted(s.targets, s.broker.source[0]) && Unwanted(s.targets, s.broker.source[1])
    requires s.broker.source[0] !in faults.abandonFails && s.broker.source[1] !in faults.abandonFails
    ensures FixedRounds(s, faults, fuel).exhausted
    decreases fuel
  {
    if fuel > 0 {
      SelectRoundAbandonsBoth(s, faults);
      FixedStillLoops(SelectRound(s, faults).state.sel, faults, fuel - 1);
    }
  }

  // ----- the stream variant: moveMessagesAsyncToQueue -----

  /** What the stream handler did with one message: the new selection, and whether an exception left the handler. */
  datatype Handled = Handled(sel: Selection, thrown: bool)

  /**
   * The handler moveMessagesAsyncToQueue runs for each message the stream
   * delivers: an unmatched message is left alone; a matched one has its own
   * clone sent, its target moved to the result, and is then completed. A failed
   * lookup, send or complete is caught and the message is abandoned.
   */
  function StreamStep(s: Selection, m: ReceivedMessage, faults: Faults): Handled {
    var b := s.broker;
    match FindMatch(s.targets, m)
    case Failure(_) => Caught(s, m, faults)
    case Success(None) => Handled(s, false)
    case Success(Some(t)) =>
      if m in faults.sendFails then Caught(s, m, faults)
      else
        var sent := b.(delivered := b.delivered + [m]);
        if m in faults.completeFails then Caught(Selection(sent, Remove(s.targets, t), s.removed + [t]), m, faults)
        else
          var settled := sent.(source := Remove(sent.source, m), log := sent.log + [Completed(m)]);
          Handled(Selection(settled, Remove(s.targets, t), s.removed + [t]), false)
  }

  /**
   * The handler's catch block: the message is abandoned. That abandon is not
   * guarded, so when it throws the exception leaves the handler, which ends the
   * subscription: the stream delivers nothing more.
   */
  function Caught(s: Selection, m: ReceivedMessage, faults: Faults): (h: Handled)
    ensures h.thrown <==> m in faults.abandonFails
    ensures h.sel.targets == s.targets && h.sel.removed == s.removed && h.sel.broker.delivered == s.broker.delivered
    ensures h.sel.broker.log == s.broker.log + (if h.thrown then [] else [Abandoned(m)])
    ensures h.sel.broker.source == s.broker.source
  {
    if m in faults.abandonFails then Handled(s, true)
    else Handled(s.(broker := s.broker.(log := s.broker.log + [Abandoned(m)])), false)
  }

  /** The handler applied to the stream in order, until the stream ends, no target is left, or the handler throws. */
  function StreamAll(stream: seq<ReceivedMessage>, s: Selection, faults: Faults): Selection
    decreases |stream|
  {
    if stream == [] || s.targets == [] then s
    else
      var h := StreamStep(s, stream[0], faults);
      if h.thrown then h.sel else StreamAll(stream[1..], h.sel, faults)
  }

  /** The stream from index i on, with one more message taken while targets remain. */
  lemma StreamAllStep(dlq: seq<ReceivedMessage>, i: nat, next: nat, s: Selection, faults: Faults)
    requires i < |dlq| && next == i + 1 && s.targets != []
    ensures var h := StreamStep(s, dlq[i], faults);
      StreamAll(dlq[i..], s, faults) == if h.thrown then h.sel else StreamAll(dlq[next..], h.sel, faults)
  {
    SliceTail(dlq, i);
  }

  /**
   * moveMessagesAsyncToQueue, with the stream taken to deliver the dead-letter
   * sub-queue once, in order: the result is the list of moved targets.
   */
  method MoveMessagesAsyncToQueue(dlq: seq<ReceivedMessage>, targets: seq<ReceivedMessage>, faults: Faults)
    returns (removed: seq<ReceivedMessage>, s: Selection)
    ensures s == StreamAll(dlq, Selection(Broker(dlq, [], []), targets, []), faults)
    ensures removed == s.removed
  {
    s := Selection(Broker(dlq, [], []), targets, []);
    ghost var goal := StreamAll(dlq, s, faults);
    var i := 0;
    while i < |dlq| && s.targets != []
      invariant 0 <= i <= |dlq|
      invariant StreamAll(dlq[i..], s, faults) == goal
    {
      var next := i + 1;
      StreamAllStep(dlq, i, next, s, faults);
      var h := StreamStep(s, dlq[i], faults);
      if h.thrown {
        s, removed := h.sel, h.sel.removed;
        return;
      }
      s := h.sel;
      i := next;
    }
    removed := s.removed;
  }

  /** The stream handler only moves a target from the wanted list to the result. */
  lemma StreamStepConserves(s: Selection, m: ReceivedMessage, faults: Faults)
    ensures Kept(StreamStep(s, m, faults).sel) == Kept(s)
  {
    match FindMatch(s.targets, m)
    case Failure(_) =>
    case Success(None) =>
    case Success(Some(t)) =>
      if m !in faults.sendFails {
        var s1 := StreamStep(s, m, faults).sel;
        assert s1.removed == s.removed + [t] && s1.targets == Remove(s.targets, t);
      }
  }

  lemma {:induction false} StreamConserves(stream: seq<ReceivedMessage>, s: Selection, faults: Faults)
    ensures Kept(StreamAll(stream, s, faults)) == Kept(s)
    decreases |stream|
  {
    if stream != [] && s.targets != [] {
      var h := StreamStep(s, stream[0], faults);
      StreamStepConserves(s, stream[0], faults);
      if !h.thrown {
        StreamConserves(stream[1..], h.sel, faults);
      }
    }
  }

  /** Every moved target is paired, in order, with the sent message it matched. */
  predicate Paired(s: Selection) {
    && |s.removed| == |s.broker.delivered|
    && forall i :: 0 <= i < |s.removed| ==> Matches(s.removed[i], s.broker.delivered[i])
  }

  lemma StreamStepPaired(s: Selection, m: ReceivedMessage, faults: Faults)
    requires Paired(s)
    ensures Paired(StreamStep(s, m, faults).sel)
  {
    match FindMatch(s.targets, m)
    case Failure(_) =>
    case Success(None) =>
    case Success(Some(t)) =>
      if m !in faults.sendFails {
        var s1 := StreamStep(s, m, faults).sel;
        assert s1.removed == s.removed + [t] && s1.broker.delivered == s.broker.delivered + [m];
      }
  }

  /** The stream variant sends a clone of each received message that it moves, and of no other. */
  lemma {:induction false} StreamPaired(stream: seq<ReceivedMessage>, s: Selection, faults: Faults)
    requires Paired(s)
    ensures Paired(StreamAll(stream, s, faults))
    decreases |stream|
  {
    if stream != [] && s.targets != [] {
      var h := StreamStep(s, stream[0], faults);
      StreamStepPaired(s, stream[0], faults);
      if !h.thrown {
        StreamPaired(stream[1..], h.sel, faults);
      }
    }
  }

  /** Two messages carry the same id and sequence number. */
  predicate SameKey(t: ReceivedMessage, u: ReceivedMessage) {
    t.header.messageId == u.header.messageId && t.sequenceNumber == u.sequenceNumber
  }

  /** Targets as the message table selects them: non-null ids, no message twice, no two with the same key. */
  predicate Wanted(targets: seq<ReceivedMessage>) {
    && (forall t :: t in targets ==> t.header.messageId.Some?)
    && (forall t, u :: t in targets && u in targets && SameKey(t, u) ==> t == u)
    && (forall t :: t in targets ==> multiset(targets)[t] == 1)
  }

  /** Every target has a matching message somewhere in the stream. */
  predicate Covered(targets: seq<ReceivedMessage>, stream: seq<ReceivedMessage>) {
    forall t :: t in targets ==> exists k :: 0 <= k < |stream| && Matches(t, stream[k])
  }

  /** A handled message leaves the targets wanted, and no remaining target matches it. */
  lemma StreamStepNarrows(s: Selection, m: ReceivedMessage, faults: Faults)
    requires Wanted(s.targets) && faults.sendFails == {}
    ensures var t1 := StreamStep(s, m, faults).sel.targets;
      Wanted(t1) && forall u :: u in t1 ==> u in s.targets && !Matches(u, m)
  {
    match FindMatch(s.targets, m)
    case Failure(_) =>
    case Success(None) =>
    case Success(Some(t)) =>
      var t1 := Remove(s.targets, t);
      assert multiset(t1) == multiset(s.targets) - multiset{t};
      forall u | u in t1
        ensures u in s.targets && !Matches(u, m) && multiset(t1)[u] == 1
      {
        assert u in multiset(t1);
        assert Matches(u, m) ==> SameKey(u, t);
        assert multiset(t1)[t] == 0;
      }
  }

  /**
   * The evidently intended behaviour of a selective move, which the stream
   * variant has: when no send and no abandon fails and every wanted target has a
   * matching message in the dead-letter sub-queue, every target is moved.
   */
  lemma {:induction false} StreamMovesAll(stream: seq<ReceivedMessage>, s: Selection, faults: Faults)
    requires Wanted(s.targets) && faults.sendFails == {} && faults.abandonFails == {} && Covered(s.targets, stream)
    ensures StreamAll(stream, s, faults).targets == []
    decreases |stream|
  {
    if stream == [] {
      HeadIn(s.targets);
    } else if s.targets != [] {
      var h := StreamStep(s, stream[0], faults);
      var s1 := h.sel;
      assert !h.thrown;
      StreamStepNarrows(s, stream[0], faults);
      forall u | u in s1.targets
        ensures exists k :: 0 <= k < |stream[1..]| && Matches(u, stream[1..][k])
      {
        var k :| 0 <= k < |stream| && Matches(u, stream[k]);
        assert k != 0;
        assert stream[1..][k - 1] == stream[k];
      }
      StreamMovesAll(stream[1..], s1, faults);
    }
  }

  /** moveMessagesAsyncToQueue returns exactly the targets, once each, under the conditions above. */
  lemma MoveMessagesAsyncMovesAll(dlq: seq<ReceivedMessage>, targets: seq<ReceivedMessage>, faults: Faults)
    requires Wanted(targets) && faults.sendFails == {} && faults.abandonFails == {} && Covered(targets, dlq)
    ensures var r := StreamAll(dlq, Selection(Broker(dlq, [], []), targets, []), faults);
      r.targets == [] && multiset(r.removed) == multiset(targets) && Paired(r)
  {
    var s := Selection(Broker(dlq, [], []), targets, []);
    var r := StreamAll(dlq, s, faults);
    StreamMovesAll(dlq, s, faults);
    StreamPaired(dlq, s, faults);
    assert multiset(r.removed) == multiset(targets) by {
      StreamConserves(dlq, s, faults);
      assert Kept(s) == multiset(targets);
      assert Kept(r) == multiset(r.removed);
    }
  }

  // ----- the entity of a tree node -----

  /** What a transfer works on: the entity's name, the subscription ("" when there is none) and the kind. */
  datatype Entity = Entity(name: Option<string>, sub: Option<string>, kind: NodeType)

  /**
   * parseNode: a subscription node names its topic through its parent and
   * itself as the subscription; any other node names itself, with sub "".
   * None stands for the NullPointerException of a subscription node that has no
   * parent.
   */
  function ParseNode(item: DataTreeItem, parent: Option<DataTreeItem>): (r: Option<Entity>)
    ensures r.None? <==> item.kind == SUBSCRIPTION && parent.None?
    ensures r.Some? ==> r.value.kind == item.kind
    ensures r.Some? && item.kind == SUBSCRIPTION ==> r.value.name == parent.value.name && r.value.sub == item.name
    ensures r.Some? && item.kind != SUBSCRIPTION ==> r.value.name == item.name && r.value.sub == Some("")
  {
    if item.kind == SUBSCRIPTION then
      if parent.None? then None else Some(Entity(parent.value.name, item.name, item.kind))
    else Some(Entity(item.name, Some(""), item.kind))
  }

  // ----- saved file names -----

  /** The characters a file name may not hold, which the sanitising pattern replaces. */
  predicate Reserved(c: char) {
    c == '\\' || c == '/' || c == ':' || c == '*' || c == '?' || c == '"' || c == '<' || c == '>' || c == '|'
  }

  function SafeChar(c: char): char {
    if Reserved(c) then '_' else c
  }

  /** replaceAll of the reserved characters by '_': same length, reserved characters become '_', the rest stay. */
  function Sanitize(s: string): (r: string)
    ensures |r| == |s|
    ensures forall i :: 0 <= i < |s| ==> r[i] == SafeChar(s[i])
  {
    if s == [] then [] else [SafeChar(s[0])] + Sanitize(s[1..])
  }

  /** The id part of a saved file name: the sanitised message id, or "null" when there is none. */
  function SafeId(id: Option<string>): (r: string)
    ensures forall i :: 0 <= i < |r| ==> !Reserved(r[i])
    ensures id.Some? ==> |r| == |id.value|
  {
    if id.None? then "null" else Sanitize(id.value)
  }

  /** Sanitising leaves a text that holds no reserved character unchanged, and only such a text. */
  lemma SanitizeKeeps(s: string)
    ensures Sanitize(s) == s <==> forall i :: 0 <= i < |s| ==> !Reserved(s[i])
  {
    if Sanitize(s) == s {
      forall i | 0 <= i < |s| ensures !Reserved(s[i]) {
        assert Sanitize(s)[i] == s[i];
      }
    }
  }

  /** Sanitising twice is sanitising once. */
  lemma SanitizeIdempotent(s: string)
    ensures Sanitize(Sanitize(s)) == Sanitize(s)
  {
    SanitizeKeeps(Sanitize(s));
  }

  /** The name saveMessages gives a message's file: "<sequence number>-<safe id>.json". */
  function FileName(m: ReceivedMessage): string {
    ShowInt(m.sequenceNumber) + "-" + SafeId(m.MessageId()) + ".json"
  }

  /** No character of s is reserved, and none is a line break. */
  predicate OneLine(s: string) {
    forall i :: 0 <= i < |s| ==> !Reserved(s[i]) && s[i] != '\n'
  }

  lemma OneLineJoin(a: string, b: string)
    requires OneLine(a) && OneLine(b)
    ensures OneLine(a + b)
  {
    forall i | 0 <= i < |a + b| ensures !Reserved((a + b)[i]) && (a + b)[i] != '\n' {
      if i >= |a| {
        assert (a + b)[i] == b[i - |a|];
      }
    }
  }

  /**
   * A file name holds no reserved character and ends in ".json"; it holds a line
   * break only when the message id does, since the id's line breaks are kept.
   */
  lemma FileNameSafe(m: ReceivedMessage)
    requires m.MessageId().Some? ==> forall i :: 0 <= i < |m.MessageId().value| ==> m.MessageId().value[i] != '\n'
    ensures OneLine(FileName(m))
    ensures |FileName(m)| >= 5 && FileName(m)[|FileName(m)| - 5..] == ".json"
  {
    var number := ShowInt(m.sequenceNumber);
    assert OneLine(number) by {
      if m.sequenceNumber < 0 {
        assert number == "-" + ShowNat(-m.sequenceNumber);
        assert forall i :: 0 <= i < |number| ==> number[i] == '-' || IsDigit(number[i]);
      }
    }
    var id := SafeId(m.MessageId());
    assert OneLine(id) by {
      if m.MessageId().Some? {
        assert forall i :: 0 <= i < |id| ==> id[i] == SafeChar(m.MessageId().value[i]);
      }
    }
    OneLineJoin(number, "-");
    OneLineJoin(number + "-", id);
    OneLineJoin(number + "-" + id, ".json");
  }

  /** The listing saveMessages returns: each file name followed by a line break, in order. */
  function Listing(messages: seq<ReceivedMessage>): string {
    if messages == [] then ""
    else Listing(messages[..|messages| - 1]) + FileName(messages[|messages| - 1]) + "\n"
  }

  /** The number of occurrences of c in s. */
  function Occurrences(s: string, c: char): nat {
    if s == [] then 0 else (if s[0] == c then 1 else 0) + Occurrences(s[1..], c)
  }

  lemma {:induction false} OccurrencesAppend(a: string, b: string, c: char)
    ensures Occurrences(a + b, c) == Occurrences(a, c) + Occurrences(b, c)
  {
    if a == [] {
      assert a + b == b;
    } else {
      assert (a + b)[0] == a[0] && (a + b)[1..] == a[1..] + b;
      OccurrencesAppend(a[1..], b, c);
    }
  }

  lemma {:induction false} OccurrencesNone(s: string, c: char)
    requires forall i :: 0 <= i < |s| ==> s[i] != c
    ensures Occurrences(s, c) == 0
  {
    if s != [] {
      OccurrencesNone(s[1..], c);
    }
  }

  /** The listing has exactly one line per saved message. */
  lemma {:induction false} ListingLines(messages: seq<ReceivedMessage>)
    requires forall k :: 0 <= k < |messages| && messages[k].MessageId().Some? ==>
      forall i :: 0 <= i < |messages[k].MessageId().value| ==> messages[k].MessageId().value[i] != '\n'
    ensures Occurrences(Listing(messages), '\n') == |messages|
  {
    if messages != [] {
      var last := messages[|messages| - 1];
      ListingLines(messages[..|messages| - 1]);
      FileNameSafe(last);
      assert last == messages[|messages| - 1];
      OccurrencesNone(FileName(last), '\n');
      OccurrencesAppend(Listing(messages[..|messages| - 1]), FileName(last), '\n');
      OccurrencesAppend(Listing(messages[..|messages| - 1]) + FileName(last), "\n", '\n');
    }
  }

  /** Saving one more message appends its name and a line break to the listing. */
  lemma SaveStep(messages: seq<ReceivedMessage>, i: nat)
    requires i < |messages|
    ensures Listing(messages[..i + 1]) == Listing(messages[..i]) + FileName(messages[i]) + "\n"
  {
    assert messages[..i + 1][..i] == messages[..i];
  }

  /**
   * saveMessages: each message is written to its own file, named by FileName,
   * and the names are listed one per line. Writing the files is I/O and is not
   * part of this model.
   */
  method SaveMessages(messages: seq<ReceivedMessage>) returns (listing: string)
    ensures listing == Listing(messages)
  {
    listing := "";
    for i := 0 to |messages|
      invariant listing == Listing(messages[..i])
    {
      var fileName := FileName(messages[i]);
      SaveStep(messages, i);
      listing := listing + fileName + "\n";
    }
    assert messages[..|messages|] == messages;
  }

  // ----- message bodies -----

  /**
   * MessageUtils.extractBody: null for a missing message or raw message; the
   * decoded text of a DATA body; the text of an AMQP value or sequence, or ""
   * when it is null.
   */
  function ExtractBody(message: Option<ReceivedMessage>): (r: Option<string>)
    ensures r.None? <==> message.None? || message.value.raw.None?
    ensures r.Some? && message.value.raw.value.body.AmqpValue? ==>
      r.value == (if message.value.raw.value.body.value.Null? then "" else Show(message.value.raw.value.body.value))
    ensures r.Some? && message.value.raw.value.body.AmqpSequence? ==>
      r.value == (if message.value.raw.value.body.items.Some? then ShowList(message.value.raw.value.body.items.value) else "")
    ensures r.Some? && message.value.raw.value.body.Data? ==> r.value == message.value.raw.value.body.decoded
  {
    match message
    case None => None
    case Some(m) =>
      match m.raw
      case None => None
      case Some(raw) =>
        match raw.body
        case Data(_, decoded) => Some(decoded)
        case AmqpValue(v) => Some(if v.Null? then "" else Show(v))
        case AmqpSequence(items) => Some(if items.Some? then ShowList(items.value) else "")
  }
}
