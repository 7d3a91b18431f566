/**
 * The client pools of ServiceBusManager: a sender pool keyed by "TYPE:name" and a receiver
 * pool keyed by "type:entity:sub:mode:subQueue", each caching at most one live client per key.
 * A client is a value carrying its creation number (its identity), the key it was cached under
 * and the builder parameters it was built with; closing a client records its number.
 */
module ServiceBus {
  import opened Wrappers
  import opened NodeTypes

  /** Synchronous receivers prefetch this many messages. */
  const PREFETCH_COUNT: int := 20

  /** ServiceBusReceiveMode. */
  datatype ReceiveMode = PEEK_LOCK | RECEIVE_AND_DELETE

  /** SubQueue: the only sub-queue this program asks for is the dead-letter queue. */
  datatype SubQueue = DEAD_LETTER_QUEUE

  /** What a client builder was configured with; None marks a setter that was never called. */
  datatype Params = Params(
    queueName: Option<Option<string>>,
    topicName: Option<Option<string>>,
    subscriptionName: Option<string>,
    receiveMode: Option<ReceiveMode>,
    subQueue: Option<SubQueue>,
    prefetchCount: Option<int>,
    autoComplete: bool)

  /** A built client: its creation number, the pool key it belongs to and its configuration. */
  datatype Client = Client(id: nat, key: string, params: Params)

  /** `String.format("%s", type)` on the enum: its constant name. */
  function KindText(t: NodeType): (r: string)
    ensures ':' !in r
  {
    match t
    case QUEUE => "QUEUE"
    case TOPIC => "TOPIC"
    case SUBSCRIPTION => "SUBSCRIPTION"
    case NONE => "NONE"
  }

  /** `%s` of a possibly null string. */
  function NameText(s: Option<string>): string {
    match s
    case None => "null"
    case Some(v) => v
  }

  function ModeText(m: Option<ReceiveMode>): (r: string)
    ensures ':' !in r
  {
    match m
    case None => "null"
    case Some(PEEK_LOCK) => "PEEK_LOCK"
    case Some(RECEIVE_AND_DELETE) => "RECEIVE_AND_DELETE"
  }

  function SubQueueText(q: Option<SubQueue>): (r: string)
    ensures ':' !in r
  {
    match q
    case None => "null"
    case Some(DEAD_LETTER_QUEUE) => "DEAD_LETTER_QUEUE"
  }

  /** The sender pool key "TYPE:name". */
  function SenderKey(t: NodeType, name: Option<string>): (r: string)
    ensures |r| > |KindText(t)| && r[|KindText(t)|] == ':'
  {
    KindText(t) + ":" + NameText(name)
  }

  /** The receiver pool key "type:entity:sub:mode:subQueue". */
  function ReceiverKey(t: NodeType, entity: Option<string>, sub: Option<string>,
                       mode: Option<ReceiveMode>, subQ: Option<SubQueue>): (r: string)
    ensures |r| >= 4
  {
    KindText(t) + ":" + NameText(entity) + ":" + NameText(sub) + ":" + ModeText(mode) + ":" + SubQueueText(subQ)
  }

  /** getReceiver's isDlq flag: the dead-letter sub-queue, or none. */
  function SubQueueFor(isDlq: bool): (q: Option<SubQueue>)
    ensures q.Some? <==> isDlq
  {
    if isDlq then Some(DEAD_LETTER_QUEUE) else None
  }

  /** createSenderClient: a queue is addressed by queueName, every other kind by topicName. */
  function SenderParams(t: NodeType, entity: Option<string>): (p: Params)
    ensures t == QUEUE ==> p.queueName == Some(entity) && p.topicName.None?
    ensures t != QUEUE ==> p.topicName == Some(entity) && p.queueName.None?
    ensures p.subscriptionName.None? && p.receiveMode.None? && p.subQueue.None?
  {
    if t == QUEUE then Params(Some(entity), None, None, None, None, None, true)
    else Params(None, Some(entity), None, None, None, None, true)
  }

  /** createReceiverBuilder: each optional setter is called exactly when its argument is non-null. */
  function ReceiverBuilder(t: NodeType, entity: Option<string>, sub: Option<string>,
                           mode: Option<ReceiveMode>, subQ: Option<SubQueue>): (p: Params)
    ensures t == QUEUE ==> p.queueName == Some(entity) && p.topicName.None?
    ensures t != QUEUE ==> p.topicName == Some(entity) && p.queueName.None?
    ensures p.subscriptionName == sub && p.receiveMode == mode && p.subQueue == subQ
    ensures p.prefetchCount.None? && p.autoComplete
  {
    Params(if t == QUEUE then Some(entity) else None,
           if t == QUEUE then None else Some(entity),
           sub, mode, subQ, None, true)
  }

  /** newReceiver: the builder plus prefetch 20. */
  function SyncReceiverParams(t: NodeType, entity: Option<string>, sub: Option<string>,
                              mode: Option<ReceiveMode>, subQ: Option<SubQueue>): (p: Params)
    ensures p.prefetchCount == Some(PREFETCH_COUNT) && p.autoComplete
    ensures p.subscriptionName == sub && p.receiveMode == mode && p.subQueue == subQ
  {
    ReceiverBuilder(t, entity, sub, mode, subQ).(prefetchCount := Some(PREFETCH_COUNT))
  }

  /** newAsyncReceiver: the builder with auto-complete disabled and the default prefetch. */
  function AsyncReceiverParams(t: NodeType, entity: Option<string>, sub: Option<string>,
                               mode: Option<ReceiveMode>, subQ: Option<SubQueue>): (p: Params)
    ensures p.prefetchCount.None? && !p.autoComplete
    ensures p.subscriptionName == sub && p.receiveMode == mode && p.subQueue == subQ
  {
    ReceiverBuilder(t, entity, sub, mode, subQ).(autoComplete := false)
  }

  /** The ids of the clients cached under `keys`. */
  function IdsOf(m: map<string, Client>, keys: set<string>): set<nat> {
    set k | k in keys && k in m :: m[k].id
  }

  lemma IdsOfAdd(m: map<string, Client>, keys: set<string>, k: string)
    requires k in m
    ensures IdsOf(m, keys + {k}) == IdsOf(m, keys) + {m[k].id}
  {
    assert m[k].id in IdsOf(m, keys + {k});
  }

  /** A pool is well formed when every entry sits under its own key, was built by this pool,
    * is still open, and no client is cached twice. */
  ghost predicate WellFormedPool(m: map<string, Client>, created: nat, closed: set<nat>) {
    (forall i :: i in closed ==> i < created)
    && (forall k :: k in m ==> m[k].key == k && m[k].id < created && m[k].id !in closed)
    && (forall k1, k2 :: k1 in m && k2 in m && m[k1].id == m[k2].id ==> k1 == k2)
  }

  /** Removing a cached client and closing it keeps a pool well formed. */
  lemma RemoveClosed(m: map<string, Client>, created: nat, closed: set<nat>, key: string)
    requires WellFormedPool(m, created, closed) && key in m
    ensures WellFormedPool(m - {key}, created, closed + {m[key].id})
  {
    forall k | k in m - {key}
      ensures m[k].id != m[key].id
    {
    }
  }

  /** Closing a client that a well-formed pool does not cache keeps it well formed. */
  lemma CloseOther(m: map<string, Client>, created: nat, closed: set<nat>, id: nat)
    requires WellFormedPool(m, created, closed) && id < created
    requires forall k :: k in m ==> m[k].id != id
    ensures WellFormedPool(m, created, closed + {id})
  {
  }

  /** Building a client that a pool does not cache keeps the pool well formed. */
  lemma Grow(m: map<string, Client>, created: nat, closed: set<nat>)
    requires WellFormedPool(m, created, closed)
    ensures WellFormedPool(m, created + 1, closed)
  {
  }

  /** The keys of `m` among `keys` whose client fails to close. */
  function FailedKeys(m: map<string, Client>, keys: set<string>, failing: set<nat>): set<string> {
    set k | k in keys && k in m && m[k].id in failing
  }

  lemma FailedKeysAdd(m: map<string, Client>, keys: set<string>, k: string, failing: set<nat>)
    requires k in m
    ensures FailedKeys(m, keys + {k}, failing) == FailedKeys(m, keys, failing) + (if m[k].id in failing then {k} else {})
  {
  }

  /** A client with a fresh number keeps a pool well formed when it is cached under its key. */
  lemma CacheFresh(m: map<string, Client>, created: nat, closed: set<nat>, c: Client)
    requires WellFormedPool(m, created, closed)
    requires c.id == created && c.id !in closed
    ensures WellFormedPool(m[c.key := c], created + 1, closed)
  {
  }

  /** The number of the client cached under `key`, if any. */
  function IdAt(m: map<string, Client>, key: string): (ids: set<nat>)
    ensures |ids| <= 1
  {
    if key in m then {m[key].id} else {}
  }

  /** Every client a well-formed pool caches was built by it. */
  lemma IdsBelow(m: map<string, Client>, created: nat, closed: set<nat>)
    requires WellFormedPool(m, created, closed)
    ensures forall i :: i in IdsOf(m, m.Keys) ==> i < created
  {
  }

  /** `forEach(close)` over the clients of a map, in the map's unspecified order, where a close
    * that throws ends the pass. Returns the numbers of the clients whose close was called. */
  method CloseEach(m: map<string, Client>, failing: set<nat>) returns (ids: set<nat>, r: Result<(), nat>)
    ensures r.Success? <==> forall k :: k in m ==> m[k].id !in failing
    ensures r.Success? ==> ids == IdsOf(m, m.Keys)
    ensures r.Failure? ==> r.error in failing && r.error in ids && ids <= IdsOf(m, m.Keys)
  {
    var done: set<string> := {};
    ids := {};
    while done != m.Keys
      invariant done <= m.Keys
      invariant ids == IdsOf(m, done)
      invariant forall k :: k in done ==> m[k].id !in failing
      decreases |m.Keys - done|
    {
      var k :| k in m.Keys - done;
      IdsOfAdd(m, done, k);
      ids := ids + {m[k].id};
      if m[k].id in failing {
        assert IdsOf(m, done + {k}) <= IdsOf(m, m.Keys);
        return ids, Failure(m[k].id);
      }
      done := done + {k};
    }
    r := Success(());
  }

  /** `forEach` over the clients of a map closing each one and catching (and reporting) every
    * failure. Returns the numbers closed and the keys whose close threw. */
  method CloseEachCatching(m: map<string, Client>, failing: set<nat>) returns (ids: set<nat>, failed: set<string>)
    ensures ids == IdsOf(m, m.Keys)
    ensures failed == FailedKeys(m, m.Keys, failing)
  {
    var done: set<string> := {};
    ids, failed := {}, {};
    while done != m.Keys
      invariant done <= m.Keys
      invariant ids == IdsOf(m, done)
      invariant failed == FailedKeys(m, done, failing)
      decreases |m.Keys - done|
    {
      var k :| k in m.Keys - done;
      IdsOfAdd(m, done, k);
      FailedKeysAdd(m, done, k, failing);
      ids := ids + {m[k].id};
      if m[k].id in failing {
        failed := failed + {k};
      }
      done := done + {k};
    }
  }

  /** ServiceBusManager.SenderClient: one cached sender per "TYPE:name". */
  class SenderClient {
    const connectionString: string
    var senders: map<string, Client>
    /** How many clients this pool has built: the next client's number. */
    var created: nat
    /** The numbers of the clients whose close was called. */
    var closed: set<nat>

    ghost predicate Valid()
      reads this
    {
      WellFormedPool(senders, created, closed)
    }

    constructor (connectionString: string)
      ensures this.connectionString == connectionString
      ensures senders == map[] && created == 0 && closed == {}
      ensures Valid()
    {
      this.connectionString := connectionString;
      senders := map[];
      created := 0;
      closed := {};
    }

    /**
     * getSender: with isNew, first remove and close the cached sender for the key (a close that
     * throws ends the call with that client's number); then return the cached sender, building
     * and caching one only when the key has none.
     */
    method GetSender(t: NodeType, entity: Option<string>, isNew: bool, failing: set<nat>)
      returns (r: Result<Client, nat>)
      requires Valid()
      modifies this
      ensures Valid()
      ensures var key := SenderKey(t, entity);
        var replaced := isNew && key in old(senders);
        && (r.Failure? <==> replaced && old(senders)[key].id in failing)
        && (replaced ==> closed == old(closed) + {old(senders)[key].id})
        && (!replaced ==> closed == old(closed))
        && (r.Failure? ==> r.error == old(senders)[key].id
                           && senders == old(senders) - {key} && created == old(created))
        && (r.Success? ==> key in senders && senders[key] == r.value && r.value.id !in closed)
        && (r.Success? && !replaced && key in old(senders) ==>
              r.value == old(senders)[key] && senders == old(senders) && created == old(created))
        && (r.Success? && (replaced || key !in old(senders)) ==>
              r.value == Client(old(created), key, SenderParams(t, entity))
              && senders == old(senders)[key := r.value] && created == old(created) + 1)
    {
      var key := SenderKey(t, entity);
      if isNew && key in senders {
        var previous := senders[key];
        RemoveClosed(senders, created, closed, key);
        senders := senders - {key};
        closed := closed + {previous.id};
        if previous.id in failing {
          return Failure(previous.id);
        }
      }
      if key in senders {
        return Success(senders[key]);
      }
      var c := Client(created, key, SenderParams(t, entity));
      CacheFresh(senders, created, closed, c);
      senders := senders[key := c];
      created := created + 1;
      r := Success(c);
    }

    /**
     * closeAll: close every cached sender in the map's (unspecified) order, catching and
     * reporting each failure, then clear the map. Returns the keys whose close failed.
     */
    method CloseAll(failing: set<nat>) returns (failed: set<string>)
      requires Valid()
      modifies this
      ensures Valid()
      ensures senders == map[] && created == old(created)
      ensures closed == old(closed) + IdsOf(old(senders), old(senders).Keys)
      ensures failed == FailedKeys(old(senders), old(senders).Keys, failing)
    {
      var ids;
      ids, failed := CloseEachCatching(senders, failing);
      IdsBelow(senders, created, closed);
      closed := closed + ids;
      senders := map[];
    }
  }

  /** ServiceBusManager.ReceiverClient: one cached receiver per receiver key. */
  class ReceiverClient {
    const connectionString: string
    var receivers: map<string, Client>
    /** The dead-letter receiver map; no operation of the program ever adds to it. */
    var dlqReceivers: map<string, Client>
    var created: nat
    var closed: set<nat>

    ghost predicate Valid()
      reads this
    {
      WellFormedPool(receivers, created, closed)
      && WellFormedPool(dlqReceivers, created, closed)
      && (forall k1, k2 :: k1 in receivers && k2 in dlqReceivers ==> receivers[k1].id != dlqReceivers[k2].id)
    }

    constructor (connectionString: string)
      ensures this.connectionString == connectionString
      ensures receivers == map[] && dlqReceivers == map[] && created == 0 && closed == {}
      ensures Valid()
    {
      this.connectionString := connectionString;
      receivers := map[];
      dlqReceivers := map[];
      created := 0;
      closed := {};
    }

    /** `receiverMap.remove(key)` followed by closing the removed receiver, if there was one;
      * a close that throws ends the call with that receiver's number. */
    method Evict(key: string, failing: set<nat>) returns (r: Result<(), nat>)
      requires Valid()
      modifies this
      ensures Valid()
      ensures receivers == old(receivers) - {key}
      ensures dlqReceivers == old(dlqReceivers) && created == old(created)
      ensures key !in old(receivers) ==> closed == old(closed) && r.Success?
      ensures key in old(receivers) ==>
                closed == old(closed) + {old(receivers)[key].id}
                && (r.Failure? <==> old(receivers)[key].id in failing)
      ensures r.Failure? ==> key in old(receivers) && r.error == old(receivers)[key].id
    {
      if key in receivers {
        var client := receivers[key];
        RemoveClosed(receivers, created, closed, key);
        CloseOther(dlqReceivers, created, closed, client.id);
        receivers := receivers - {key};
        closed := closed + {client.id};
        if client.id in failing {
          return Failure(client.id);
        }
      }
      r := Success(());
    }

    /** `receiverMap.computeIfAbsent(key, ...)`: the cached receiver, or a new one built with
      * `p` and cached under the key. */
    method ComputeIfAbsent(key: string, p: Params) returns (c: Client)
      requires Valid()
      modifies this
      ensures Valid()
      ensures dlqReceivers == old(dlqReceivers) && closed == old(closed)
      ensures key in receivers && receivers[key] == c && c.id !in closed
      ensures key in old(receivers) ==>
                c == old(receivers)[key] && receivers == old(receivers) && created == old(created)
      ensures key !in old(receivers) ==>
                c == Client(old(created), key, p) && receivers == old(receivers)[key := c]
                && created == old(created) + 1
    {
      if key in receivers {
        return receivers[key];
      }
      c := Client(created, key, p);
      CacheFresh(receivers, created, closed, c);
      Grow(dlqReceivers, created, closed);
      receivers := receivers[key := c];
      created := created + 1;
    }

    /**
     * getReceiver: with isNew, first remove and close the cached receiver for the key (a close
     * that throws ends the call); then return the cached receiver, building one with prefetch 20
     * only when the key has none.
     */
    method GetReceiver(t: NodeType, entity: Option<string>, sub: Option<string>,
                       mode: Option<ReceiveMode>, subQ: Option<SubQueue>, isNew: bool, failing: set<nat>)
      returns (r: Result<Client, nat>)
      requires Valid()
      modifies this
      ensures Valid()
      ensures dlqReceivers == old(dlqReceivers)
      ensures var key := ReceiverKey(t, entity, sub, mode, subQ);
        var replaced := isNew && key in old(receivers);
        && (r.Failure? <==> replaced && old(receivers)[key].id in failing)
        && (replaced ==> closed == old(closed) + {old(receivers)[key].id})
        && (!replaced ==> closed == old(closed))
        && (r.Failure? ==> r.error == old(receivers)[key].id
                           && receivers == old(receivers) - {key} && created == old(created))
        && (r.Success? ==> key in receivers && receivers[key] == r.value && r.value.id !in closed)
        && (r.Success? && !replaced && key in old(receivers) ==>
              r.value == old(receivers)[key] && receivers == old(receivers) && created == old(created))
        && (r.Success? && (replaced || key !in old(receivers)) ==>
              r.value == Client(old(created), key, SyncReceiverParams(t, entity, sub, mode, subQ))
              && receivers == old(receivers)[key := r.value] && created == old(created) + 1)
    {
      var key := ReceiverKey(t, entity, sub, mode, subQ);
      if isNew {
        var evicted := Evict(key, failing);
        if evicted.Failure? {
          return Failure(evicted.error);
        }
      }
      var c := ComputeIfAbsent(key, SyncReceiverParams(t, entity, sub, mode, subQ));
      r := Success(c);
    }

    /** newReceiver / newAsyncReceiver: a fresh client that no map caches. */
    method NewReceiver(t: NodeType, entity: Option<string>, sub: Option<string>,
                       mode: Option<ReceiveMode>, subQ: Option<SubQueue>, async: bool)
      returns (c: Client)
      requires Valid()
      modifies this
      ensures Valid()
      ensures receivers == old(receivers) && dlqReceivers == old(dlqReceivers) && closed == old(closed)
      ensures created == old(created) + 1 && c.id == old(created)
      ensures c.params == if async then AsyncReceiverParams(t, entity, sub, mode, subQ)
                         else SyncReceiverParams(t, entity, sub, mode, subQ)
    {
      var p := if async then AsyncReceiverParams(t, entity, sub, mode, subQ)
               else SyncReceiverParams(t, entity, sub, mode, subQ);
      c := Client(created, ReceiverKey(t, entity, sub, mode, subQ), p);
      Grow(receivers, created, closed);
      Grow(dlqReceivers, created, closed);
      created := created + 1;
    }

    /** closeDlq: remove and close the dead-letter receiver under the key, if any. */
    method CloseDlq(key: string, failing: set<nat>) returns (r: Result<(), nat>)
      requires Valid()
      modifies this
      ensures Valid()
      ensures receivers == old(receivers) && created == old(created)
      ensures dlqReceivers == old(dlqReceivers) - {key}
      ensures key !in old(dlqReceivers) ==> closed == old(closed) && r.Success?
      ensures key in old(dlqReceivers) ==>
                closed == old(closed) + {old(dlqReceivers)[key].id}
                && (r.Failure? <==> old(dlqReceivers)[key].id in failing)
      ensures r.Failure? ==> key in old(dlqReceivers) && r.error == old(dlqReceivers)[key].id
    {
      if key in dlqReceivers {
        var client := dlqReceivers[key];
        RemoveClosed(dlqReceivers, created, closed, key);
        CloseOther(receivers, created, closed, client.id);
        dlqReceivers := dlqReceivers - {key};
        closed := closed + {client.id};
        if client.id in failing {
          return Failure(client.id);
        }
      }
      r := Success(());
    }

    /** close: remove and close the receiver under the key, then do the same in the dead-letter
      * map; absent keys are skipped, and a close that throws ends the call. */
    method Close(key: string, failing: set<nat>) returns (r: Result<(), nat>)
      requires Valid()
      modifies this
      ensures Valid()
      ensures created == old(created)
      ensures receivers == old(receivers) - {key}
      ensures key !in old(receivers) && key !in old(dlqReceivers) ==> closed == old(closed) && r.Success?
      ensures r.Success? ==> dlqReceivers == old(dlqReceivers) - {key}
                             && closed == old(closed) + IdAt(old(receivers), key) + IdAt(old(dlqReceivers), key)
      ensures var mainFails := key in old(receivers) && old(receivers)[key].id in failing;
        var dlqFails := key in old(dlqReceivers) && old(dlqReceivers)[key].id in failing;
        && (r.Failure? <==> mainFails || dlqFails)
        && (mainFails ==> r.error == old(receivers)[key].id && dlqReceivers == old(dlqReceivers)
                          && closed == old(closed) + {old(receivers)[key].id})
        && (!mainFails ==> dlqReceivers == old(dlqReceivers) - {key}
                           && closed == old(closed) + IdAt(old(receivers), key) + IdAt(old(dlqReceivers), key))
        && (!mainFails && dlqFails ==> r.error == old(dlqReceivers)[key].id)
    {
      r := Evict(key, failing);
      if r.Failure? {
        return;
      }
      r := CloseDlq(key, failing);
    }

    /** closeAll: close every receiver, then every dead-letter receiver, then clear both maps;
      * a close that throws ends the call before the maps are cleared. */
    method CloseAll(failing: set<nat>) returns (r: Result<(), nat>)
      requires Valid()
      modifies this
      ensures created == old(created)
      ensures r.Success? <==> (forall k :: k in old(receivers) ==> old(receivers)[k].id !in failing)
                              && (forall k :: k in old(dlqReceivers) ==> old(dlqReceivers)[k].id !in failing)
      ensures r.Success? ==> receivers == map[] && dlqReceivers == map[] && Valid()
                             && closed == old(closed) + IdsOf(old(receivers), old(receivers).Keys)
                                          + IdsOf(old(dlqReceivers), old(dlqReceivers).Keys)
      ensures r.Failure? ==> receivers == old(receivers) && dlqReceivers == old(dlqReceivers) && r.error in failing
    {
      var ids, first := CloseEach(receivers, failing);
      if first.Failure? {
        closed := closed + ids;
        return first;
      }
      var dlqIds, second := CloseEach(dlqReceivers, failing);
      closed := closed + ids + dlqIds;
      if second.Failure? {
        return second;
      }
      IdsBelow(old(receivers), created, old(closed));
      IdsBelow(old(dlqReceivers), created, old(closed));
      receivers := map[];
      dlqReceivers := map[];
      r := Success(());
    }
  }

  /** ServiceBusManager: the namespace it was opened on and its two pools. */
  class ServiceBusManager {
    const connectionString: string
    /** The namespace name the administration client reports. */
    const namespace: string
    const receiverClient: ReceiverClient
    const senderClient: SenderClient

    ghost predicate Valid()
      reads this, receiverClient, senderClient
    {
      receiverClient.Valid() && senderClient.Valid()
    }

    constructor (connectionString: string, namespace: string)
      ensures this.connectionString == connectionString && this.namespace == namespace
      ensures fresh(receiverClient) && fresh(senderClient)
      ensures receiverClient.receivers == map[] && senderClient.senders == map[]
      ensures Valid()
    {
      this.connectionString := connectionString;
      this.namespace := namespace;
      receiverClient := new ReceiverClient(connectionString);
      senderClient := new SenderClient(connectionString);
    }

    /** getReceiver(type, entity, sub, mode, isDlq, isNew): isDlq selects the dead-letter sub-queue. */
    method GetReceiver(t: NodeType, entity: Option<string>, sub: Option<string>,
                       mode: Option<ReceiveMode>, isDlq: bool, isNew: bool, failing: set<nat>)
      returns (r: Result<Client, nat>)
      requires Valid()
      modifies receiverClient
      ensures Valid()
      ensures receiverClient.dlqReceivers == old(receiverClient.dlqReceivers)
      ensures var pool := receiverClient;
        var key := ReceiverKey(t, entity, sub, mode, SubQueueFor(isDlq));
        var replaced := isNew && key in old(pool.receivers);
        && (r.Failure? <==> replaced && old(pool.receivers)[key].id in failing)
        && (replaced ==> pool.closed == old(pool.closed) + {old(pool.receivers)[key].id})
        && (!replaced ==> pool.closed == old(pool.closed))
        && (r.Failure? ==> r.error == old(pool.receivers)[key].id
                           && pool.receivers == old(pool.receivers) - {key} && pool.created == old(pool.created))
        && (r.Success? ==> key in pool.receivers && pool.receivers[key] == r.value && r.value.id !in pool.closed)
        && (r.Success? && !replaced && key in old(pool.receivers) ==>
              r.value == old(pool.receivers)[key] && pool.receivers == old(pool.receivers)
              && pool.created == old(pool.created))
        && (r.Success? && (replaced || key !in old(pool.receivers)) ==>
              r.value == Client(old(pool.created), key, SyncReceiverParams(t, entity, sub, mode, SubQueueFor(isDlq)))
              && pool.receivers == old(pool.receivers)[key := r.value] && pool.created == old(pool.created) + 1)
    {
      r := receiverClient.GetReceiver(t, entity, sub, mode, SubQueueFor(isDlq), isNew, failing);
    }

    /** getSenderClient / getNewSenderClient: the cached sender for the entity, or a fresh one. */
    method GetSenderClient(t: NodeType, entity: Option<string>, isNew: bool, failing: set<nat>)
      returns (r: Result<Client, nat>)
      requires Valid()
      modifies senderClient
      ensures Valid()
      ensures var pool := senderClient;
        var key := SenderKey(t, entity);
        var replaced := isNew && key in old(pool.senders);
        && (r.Failure? <==> replaced && old(pool.senders)[key].id in failing)
        && (replaced ==> pool.closed == old(pool.closed) + {old(pool.senders)[key].id})
        && (!replaced ==> pool.closed == old(pool.closed))
        && (r.Failure? ==> r.error == old(pool.senders)[key].id
                           && pool.senders == old(pool.senders) - {key} && pool.created == old(pool.created))
        && (r.Success? ==> key in pool.senders && pool.senders[key] == r.value && r.value.id !in pool.closed)
        && (r.Success? && !replaced && key in old(pool.senders) ==>
              r.value == old(pool.senders)[key] && pool.senders == old(pool.senders)
              && pool.created == old(pool.created))
        && (r.Success? && (replaced || key !in old(pool.senders)) ==>
              r.value == Client(old(pool.created), key, SenderParams(t, entity))
              && pool.senders == old(pool.senders)[key := r.value] && pool.created == old(pool.created) + 1)
    {
      r := senderClient.GetSender(t, entity, isNew, failing);
    }

    /** newReceiver / newAsyncReceiver: an uncached receiver; isDlq selects the dead-letter sub-queue. */
    method NewReceiver(t: NodeType, entity: Option<string>, sub: Option<string>,
                       mode: Option<ReceiveMode>, isDlq: bool, async: bool)
      returns (c: Client)
      requires Valid()
      modifies receiverClient
      ensures Valid()
      ensures receiverClient.receivers == old(receiverClient.receivers)
      ensures c.params.subQueue == SubQueueFor(isDlq)
      ensures c.params.autoComplete == !async
    {
      c := receiverClient.NewReceiver(t, entity, sub, mode, SubQueueFor(isDlq), async);
    }

    /** closeReceiver: close the receiver cached under the key, in both maps. */
    method CloseReceiver(key: string, failing: set<nat>) returns (r: Result<(), nat>)
      requires Valid()
      modifies receiverClient
      ensures Valid()
      ensures var pool := receiverClient;
        && pool.created == old(pool.created)
        && pool.receivers == old(pool.receivers) - {key}
        && (key !in old(pool.receivers) && key !in old(pool.dlqReceivers) ==> pool.closed == old(pool.closed) && r.Success?)
        && (r.Success? ==> pool.dlqReceivers == old(pool.dlqReceivers) - {key}
                           && pool.closed == old(pool.closed) + IdAt(old(pool.receivers), key)
                                             + IdAt(old(pool.dlqReceivers), key))
      ensures var pool := receiverClient;
        var mainFails := key in old(pool.receivers) && old(pool.receivers)[key].id in failing;
        var dlqFails := key in old(pool.dlqReceivers) && old(pool.dlqReceivers)[key].id in failing;
        && (r.Failure? <==> mainFails || dlqFails)
        && (mainFails ==> r.error == old(pool.receivers)[key].id && pool.dlqReceivers == old(pool.dlqReceivers)
                          && pool.closed == old(pool.closed) + {old(pool.receivers)[key].id})
        && (!mainFails ==> pool.dlqReceivers == old(pool.dlqReceivers) - {key}
                           && pool.closed == old(pool.closed) + IdAt(old(pool.receivers), key)
                                             + IdAt(old(pool.dlqReceivers), key))
        && (!mainFails && dlqFails ==> r.error == old(pool.dlqReceivers)[key].id)
    {
      r := receiverClient.Close(key, failing);
    }

    /** closeAllReceivers: close and forget every receiver. */
    method CloseAllReceivers(failing: set<nat>) returns (r: Result<(), nat>)
      requires Valid()
      modifies receiverClient
      ensures var pool := receiverClient;
        && pool.created == old(pool.created)
        && (r.Success? <==> (forall k :: k in old(pool.receivers) ==> old(pool.receivers)[k].id !in failing)
                            && (forall k :: k in old(pool.dlqReceivers) ==> old(pool.dlqReceivers)[k].id !in failing))
        && (r.Success? ==> pool.receivers == map[] && pool.dlqReceivers == map[] && Valid()
                           && pool.closed == old(pool.closed) + IdsOf(old(pool.receivers), old(pool.receivers).Keys)
                                             + IdsOf(old(pool.dlqReceivers), old(pool.dlqReceivers).Keys))
        && (r.Failure? ==> pool.receivers == old(pool.receivers) && pool.dlqReceivers == old(pool.dlqReceivers)
                           && r.error in failing)
    {
      r := receiverClient.CloseAll(failing);
    }
  }

  /** Asking twice for the same sender without isNew hands out one client, built at most once. */
  method SenderCachedOnce(pool: SenderClient, t: NodeType, entity: Option<string>, failing: set<nat>)
    returns (first: Result<Client, nat>, second: Result<Client, nat>)
    requires pool.Valid()
    modifies pool
    ensures first.Success? && second.Success? && first == second
    ensures pool.created <= old(pool.created) + 1
  {
    first := pool.GetSender(t, entity, false, failing);
    second := pool.GetSender(t, entity, false, failing);
  }

  /** When closes succeed, forcing a new receiver for a cached key closes the old one and hands
    * out a different, open client. */
  method ReceiverReplaced(pool: ReceiverClient, t: NodeType, entity: Option<string>, sub: Option<string>,
                          mode: Option<ReceiveMode>, subQ: Option<SubQueue>)
    returns (before: Result<Client, nat>, after: Result<Client, nat>)
    requires pool.Valid()
    modifies pool
    ensures before.Success? && after.Success?
    ensures before.value.id in pool.closed && after.value.id !in pool.closed
    ensures before.value != after.value
  {
    before := pool.GetReceiver(t, entity, sub, mode, subQ, false, {});
    after := pool.GetReceiver(t, entity, sub, mode, subQ, true, {});
  }

  /** Equal keys of the form `x + ":" + a` whose last fields have no ':' agree field by field. */
  lemma LastFieldEqual(x: string, a: string, y: string, b: string)
    requires ':' !in a && ':' !in b
    requires x + ":" + a == y + ":" + b
    ensures a == b && x == y
  {
    var s := x + ":" + a;
    NoSeparatorAfter(x, a);
    NoSeparatorAfter(y, b);
    assert s[|x|] == ':' && s[|y|] == ':';
    assert |x| == |y|;
    assert x == s[..|x|] && y == s[..|y|];
    assert a == s[|x| + 1..] && b == s[|y| + 1..];
  }

  /** In `x + ":" + a` with no ':' in `a`, the separator before `a` is the last ':'. */
  lemma NoSeparatorAfter(x: string, a: string)
    requires ':' !in a
    ensures forall i :: |x| < i < |x + ":" + a| ==> (x + ":" + a)[i] != ':'
  {
    forall i | |x| < i < |x + ":" + a|
      ensures (x + ":" + a)[i] != ':'
    {
      assert (x + ":" + a)[i] == a[i - |x| - 1];
    }
  }

  /** Sender keys tell kinds and names apart, up to a null name and the name "null". */
  lemma SenderKeyDistinct(t1: NodeType, n1: Option<string>, t2: NodeType, n2: Option<string>)
    requires SenderKey(t1, n1) == SenderKey(t2, n2)
    ensures t1 == t2 && NameText(n1) == NameText(n2)
  {
    var k := SenderKey(t1, n1);
    KindPrefix(t1, t2, k);
    assert NameText(n1) == k[|KindText(t1)| + 1..];
  }

  lemma KindPrefix(t1: NodeType, t2: NodeType, k: string)
    requires |k| > |KindText(t1)| && k[..|KindText(t1)|] == KindText(t1) && k[|KindText(t1)|] == ':'
    requires |k| > |KindText(t2)| && k[..|KindText(t2)|] == KindText(t2) && k[|KindText(t2)|] == ':'
    ensures t1 == t2
  {
  }

  /** For one entity of one kind, a different sub-entity, mode or sub-queue gets a different receiver
    * key (a null sub-entity and the name "null" print alike). */
  lemma ReceiverKeyDistinct(t: NodeType, e: Option<string>,
                            s1: Option<string>, m1: Option<ReceiveMode>, q1: Option<SubQueue>,
                            s2: Option<string>, m2: Option<ReceiveMode>, q2: Option<SubQueue>)
    requires ReceiverKey(t, e, s1, m1, q1) == ReceiverKey(t, e, s2, m2, q2)
    ensures NameText(s1) == NameText(s2) && m1 == m2 && q1 == q2
  {
    var p := KindText(t) + ":" + NameText(e) + ":";
    var x1 := p + NameText(s1) + ":" + ModeText(m1);
    var x2 := p + NameText(s2) + ":" + ModeText(m2);
    assert ReceiverKey(t, e, s1, m1, q1) == x1 + ":" + SubQueueText(q1);
    assert ReceiverKey(t, e, s2, m2, q2) == x2 + ":" + SubQueueText(q2);
    LastFieldEqual(x1, SubQueueText(q1), x2, SubQueueText(q2));
    assert x1 == (p + NameText(s1)) + ":" + ModeText(m1);
    assert x2 == (p + NameText(s2)) + ":" + ModeText(m2);
    LastFieldEqual(p + NameText(s1), ModeText(m1), p + NameText(s2), ModeText(m2));
    TextsDetermine(m1, m2, q1, q2);
    var u1, u2 := p + NameText(s1), p + NameText(s2);
    assert u1 == u2;
    assert NameText(s1) == u1[|p|..];
    assert NameText(s2) == u2[|p|..];
  }

  lemma TextsDetermine(m1: Option<ReceiveMode>, m2: Option<ReceiveMode>, q1: Option<SubQueue>, q2: Option<SubQueue>)
    requires ModeText(m1) == ModeText(m2) && SubQueueText(q1) == SubQueueText(q2)
    ensures m1 == m2 && q1 == q2
  {
    assert "null" != "PEEK_LOCK" && "null" != "RECEIVE_AND_DELETE" && "PEEK_LOCK" != "RECEIVE_AND_DELETE";
    assert "null" != "DEAD_LETTER_QUEUE";
    assert q1.Some? <==> q2.Some?;
    assert q1.Some? ==> q1.value.DEAD_LETTER_QUEUE? && q2.value.DEAD_LETTER_QUEUE?;
  }

  /** The null sub-entity and the sub-entity named "null" share one cached receiver. */
  lemma NullSubSharesKey(t: NodeType, e: Option<string>, m: Option<ReceiveMode>, q: Option<SubQueue>)
    ensures ReceiverKey(t, e, None, m, q) == ReceiverKey(t, e, Some("null"), m, q)
    ensures ReceiverBuilder(t, e, None, m, q) != ReceiverBuilder(t, e, Some("null"), m, q)
  {
  }
}
