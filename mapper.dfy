/**
 * MapperUtils: conversions between a received message, the editable message record and an
 * outgoing message, and the ordered key/value listing of a message's fields.
 */
module Mapper {
  import opened Wrappers
  import opened Messages
  import opened MessageData
  import MessageUtils

  /** The BinaryData an outgoing message is built from: a string, or raw bytes. */
  datatype Payload = FromString(text: string) | FromBytes(bytes: seq<byte>)

  /** ServiceBusMessage: an outgoing message and the parts of it this program sets. */
  datatype OutgoingMessage = OutgoingMessage(
    body: Payload,
    header: Header,
    applicationProperties: map<string, Value>,
    messageAnnotations: map<string, Value>,
    deliveryAnnotations: map<string, Value>)

  /** `new ServiceBusMessage(body)`: every header field null, every map empty. */
  function NewMessage(body: Payload): (m: OutgoingMessage)
    ensures m.body == body && m.header == EMPTY_HEADER
    ensures m.applicationProperties == map[] && m.messageAnnotations == map[] && m.deliveryAnnotations == map[]
  {
    OutgoingMessage(body, EMPTY_HEADER, map[], map[], map[])
  }

  /** `if (x != null) msg.setX(x)`: the value is replaced only by a non-null one. */
  function SetIfPresent<T>(current: Option<T>, x: Option<T>): (r: Option<T>)
    ensures x.Some? ==> r == x
    ensures x.None? ==> r == current
  {
    if x.Some? then x else current
  }

  /**
   * toServiceBusMessageData: null for null; otherwise a record with the message's header,
   * its partition key also as the transaction partition key, its properties added to the
   * record's empty map when it has any, and its extracted body.
   */
  function ToServiceBusMessageData(original: Option<ReceivedMessage>): (r: Option<DataRecord>)
    ensures r.None? <==> original.None?
    ensures r.Some? ==> r.value.header == original.value.header
    ensures r.Some? ==> r.value.transactionPartitionKey == original.value.header.partitionKey
    ensures r.Some? ==> r.value.applicationProperties == Some(original.value.applicationProperties.GetOr(map[]))
    ensures r.Some? ==> r.value.body == MessageUtils.ExtractBody(original)
  {
    match original
    case None => None
    case Some(m) =>
      var props := if m.applicationProperties.Some? then map[] + m.applicationProperties.value else map[];
      assert m.applicationProperties.Some? ==> map[] + m.applicationProperties.value == m.applicationProperties.value;
      Some(DataRecord(m.header, m.header.partitionKey, Some(props), MessageUtils.ExtractBody(original)))
  }

  /** The same conversion filling a new ServiceBusMessageData through its setters. */
  method NewServiceBusMessageData(original: Option<ReceivedMessage>) returns (data: Option<ServiceBusMessageData>)
    ensures data.None? <==> original.None?
    ensures data.Some? ==> fresh(data.value) && Some(data.value.Snapshot()) == ToServiceBusMessageData(original)
  {
    if original.None? {
      return None;
    }
    var m := original.value;
    var d := new ServiceBusMessageData();
    d.SetMessageId(m.header.messageId);
    d.SetContentType(m.header.contentType);
    d.SetCorrelationId(m.header.correlationId);
    d.SetSubject(m.header.subject);
    d.SetTo(m.header.to);
    d.SetReplyTo(m.header.replyTo);
    d.SetReplyToSessionId(m.header.replyToSessionId);
    d.SetSessionId(m.header.sessionId);
    d.SetPartitionKey(m.header.partitionKey);
    d.SetTransactionPartitionKey(m.header.partitionKey);
    d.SetTimeToLive(m.header.timeToLive);
    d.SetScheduledEnqueueTime(m.header.scheduledEnqueueTime);
    assert d.Header() == m.header;
    if m.applicationProperties.Some? {
      var _ := d.PutAllProperties(m.applicationProperties.value);
    }
    d.SetBody(MessageUtils.ExtractBody(original));
    data := Some(d);
  }

  /**
   * toServiceBusMessage(data): null for null; the body text, or no bytes for a null body; each
   * header field set only when the record's is non-null; the properties cleared and replaced by
   * the record's map when it has one. The transaction partition key is not carried over.
   */
  function ToServiceBusMessage(data: Option<DataRecord>): (r: Option<OutgoingMessage>)
    ensures r.None? <==> data.None?
    ensures r.Some? ==> r.value.body == if data.value.body.Some? then FromString(data.value.body.value) else FromBytes([])
    ensures r.Some? ==> r.value.header == data.value.header
    ensures r.Some? ==> r.value.applicationProperties == data.value.applicationProperties.GetOr(map[])
    ensures r.Some? ==> r.value.messageAnnotations == map[] && r.value.deliveryAnnotations == map[]
  {
    match data
    case None => None
    case Some(d) =>
      var msg := NewMessage(if d.body.Some? then FromString(d.body.value) else FromBytes([]));
      var h := msg.header;
      var header := Header(
        SetIfPresent(h.messageId, d.header.messageId),
        SetIfPresent(h.contentType, d.header.contentType),
        SetIfPresent(h.correlationId, d.header.correlationId),
        SetIfPresent(h.subject, d.header.subject),
        SetIfPresent(h.to, d.header.to),
        SetIfPresent(h.replyTo, d.header.replyTo),
        SetIfPresent(h.replyToSessionId, d.header.replyToSessionId),
        SetIfPresent(h.sessionId, d.header.sessionId),
        SetIfPresent(h.partitionKey, d.header.partitionKey),
        SetIfPresent(h.timeToLive, d.header.timeToLive),
        SetIfPresent(h.scheduledEnqueueTime, d.header.scheduledEnqueueTime));
      var props := if d.applicationProperties.Some? then map[] + d.applicationProperties.value else msg.applicationProperties;
      Some(msg.(header := header, applicationProperties := props))
  }

  /** A received message taken through the record and back keeps its header and properties,
    * and carries its extracted body as text. */
  lemma RecordRoundTrip(m: ReceivedMessage)
    ensures var out := ToServiceBusMessage(ToServiceBusMessageData(Some(m)));
      && out.Some?
      && out.value.header == m.header
      && out.value.applicationProperties == m.applicationProperties.GetOr(map[])
      && (m.raw.Some? ==> out.value.body == FromString(MessageUtils.ExtractBody(Some(m)).value))
      && (m.raw.None? ==> out.value.body == FromBytes([]))
  {
  }

  /**
   * toServiceBusMessage(original, body): a copy of all eleven header fields, null or not, and of
   * the message and delivery annotations; the raw AMQP message must be there (otherwise the
   * call throws). Application properties are not copied.
   */
  function CloneMessage(original: ReceivedMessage, body: Payload): (r: Result<OutgoingMessage, string>)
    ensures r.Success? <==> original.raw.Some?
    ensures r.Success? ==> r.value.body == body && r.value.header == original.header
    ensures r.Success? ==> r.value.applicationProperties == map[]
    ensures r.Success? ==> r.value.messageAnnotations == original.raw.value.messageAnnotations.GetOr(map[])
    ensures r.Success? ==> r.value.deliveryAnnotations == original.raw.value.deliveryAnnotations.GetOr(map[])
  {
    if original.raw.None? then Failure("NullPointerException")
    else
      var raw := original.raw.value;
      var msg := NewMessage(body).(header := original.header);
      var withMessage := if raw.messageAnnotations.Some? then msg.messageAnnotations + raw.messageAnnotations.value else msg.messageAnnotations;
      var withDelivery := if raw.deliveryAnnotations.Some? then msg.deliveryAnnotations + raw.deliveryAnnotations.value else msg.deliveryAnnotations;
      Success(msg.(messageAnnotations := withMessage, deliveryAnnotations := withDelivery))
  }

  // ----- ordered field listings -----

  type Entry = (string, Value)

  function KeysOf(entries: seq<Entry>): (r: seq<string>)
    ensures |r| == |entries|
    ensures forall i :: 0 <= i < |r| ==> r[i] == entries[i].0
  {
    if entries == [] then [] else [entries[0].0] + KeysOf(entries[1..])
  }

  predicate DistinctKeys(entries: seq<Entry>) {
    forall i, j :: 0 <= i < j < |entries| ==> entries[i].0 != entries[j].0
  }

  /** LinkedHashMap.put: a new key goes last; an existing key keeps its place and takes the value. */
  function Put(entries: seq<Entry>, key: string, value: Value): (r: seq<Entry>)
    ensures key !in KeysOf(entries) ==> r == entries + [(key, value)]
  {
    if entries == [] then [(key, value)]
    else if entries[0].0 == key then [(key, value)] + entries[1..]
    else
      var rest := Put(entries[1..], key, value);
      assert KeysOf(entries) == [entries[0].0] + KeysOf(entries[1..]);
      assert entries + [(key, value)] == [entries[0]] + (entries[1..] + [(key, value)]);
      [entries[0]] + rest
  }

  /** Putting a key that is already there keeps the length and every key in place, and replaces
    * only that key's value. */
  lemma {:induction false} PutExisting(entries: seq<Entry>, key: string, value: Value)
    requires key in KeysOf(entries)
    ensures var r := Put(entries, key, value);
            && |r| == |entries| && (key, value) in r
            && (forall i :: 0 <= i < |r| ==> r[i].0 == entries[i].0)
            && (forall i :: 0 <= i < |r| && entries[i].0 != key ==> r[i] == entries[i])
  {
    if entries[0].0 != key {
      PutExisting(entries[1..], key, value);
      var rest := Put(entries[1..], key, value);
      assert Put(entries, key, value) == [entries[0]] + rest;
      assert (key, value) in rest;
    }
  }

  /** The entries whose value is not null, in their order. */
  function Present(entries: seq<Entry>): (r: seq<Entry>)
    ensures |r| <= |entries|
    ensures forall e :: e in r <==> e in entries && !e.1.Null?
  {
    if entries == [] then [] else (if entries[0].1.Null? then [] else [entries[0]]) + Present(entries[1..])
  }

  lemma {:induction false} PresentSnoc(entries: seq<Entry>, e: Entry)
    ensures Present(entries + [e]) == Present(entries) + (if e.1.Null? then [] else [e])
  {
    if entries != [] {
      assert (entries + [e])[1..] == entries[1..] + [e];
      PresentSnoc(entries[1..], e);
    }
  }

  /** MapperUtils.MapBuilder over a LinkedHashMap, kept as its entries in insertion order. */
  class MapBuilder {
    var entries: seq<Entry>

    constructor ()
      ensures entries == []
    {
      entries := [];
    }

    /** putIfNotNull: a null value is skipped; otherwise the entry is put. Returns the builder. */
    method PutIfNotNull(key: string, value: Value) returns (self: MapBuilder)
      modifies this
      ensures self == this
      ensures value.Null? ==> entries == old(entries)
      ensures !value.Null? ==> entries == Put(old(entries), key, value)
    {
      if !value.Null? {
        entries := Put(entries, key, value);
      }
      self := this;
    }

    method Build() returns (r: seq<Entry>)
      ensures r == entries
    {
      r := entries;
    }
  }

  /** One link of a putIfNotNull chain whose keys are all different: with the present entries
    * among the first `i` fields in the builder, it puts field `i`, and then holds the present
    * entries among the first `i + 1`. */
  method PutField(b: MapBuilder, fields: seq<Entry>, i: nat)
    requires DistinctKeys(fields) && i < |fields|
    requires b.entries == Present(fields[..i])
    modifies b
    ensures b.entries == Present(fields[..i + 1])
    ensures i + 1 == |fields| ==> b.entries == Present(fields)
  {
    KeyNotYetPut(fields, i);
    PresentPrefix(fields, i);
    var _ := b.PutIfNotNull(fields[i].0, fields[i].1);
  }

  /** The present entries of one more field. */
  lemma PresentPrefix(fields: seq<Entry>, i: nat)
    requires i < |fields|
    ensures Present(fields[..i + 1]) == Present(fields[..i]) + (if fields[i].1.Null? then [] else [fields[i]])
    ensures i + 1 == |fields| ==> fields[..i + 1] == fields
  {
    assert fields[..i + 1] == fields[..i] + [fields[i]];
    PresentSnoc(fields[..i], fields[i]);
  }

  /** With distinct keys, field i's key is not among the entries put from the fields before it. */
  lemma KeyNotYetPut(fields: seq<Entry>, i: nat)
    requires DistinctKeys(fields) && i < |fields|
    ensures fields[i].0 !in KeysOf(Present(fields[..i]))
  {
    var put := Present(fields[..i]);
    forall k | 0 <= k < |put|
      ensures put[k].0 != fields[i].0
    {
      assert put[k] in fields[..i];
    }
  }

  function StrValue(s: Option<string>): Value {
    if s.Some? then Str(s.value) else Null
  }

  function TimeValue(t: Option<Timestamp>): Value {
    if t.Some? then Time(t.value) else Null
  }

  function SpanValue(d: Option<Duration>): Value {
    if d.Some? then Span(d.value) else Null
  }

  /** The keys of toMap(data), in order. */
  const DATA_KEYS: seq<string> := ["messageId", "correlationId", "sessionId", "replyToSessionId",
    "partitionKey", "to", "replyTo", "subject", "contentType", "scheduledEnqueueTime", "timeToLive"]

  /** The keys of toMap(received message), in order. */
  const RECEIVED_KEYS: seq<string> := ["messageId", "correlationId", "sessionId", "replyToSessionId",
    "partitionKey", "deliveryCount", "sequenceNumber", "enqueuedSequenceNumber", "to", "replyTo",
    "subject", "contentType", "state", "scheduledEnqueueTime", "enqueuedTime", "lockedUntil",
    "expiresAt", "timeToLive", "deadLetterReason", "deadLetterErrorDescription", "deadLetterSource"]

  /** No key of toMap(data) repeats. */
  lemma DataKeysDistinct()
    ensures forall i, j :: 0 <= i < j < |DATA_KEYS| ==> DATA_KEYS[i] != DATA_KEYS[j]
  {
  }

  /** No key of toMap(received message) repeats. */
  lemma ReceivedKeysDistinct()
    ensures forall i, j :: 0 <= i < j < |RECEIVED_KEYS| ==> RECEIVED_KEYS[i] != RECEIVED_KEYS[j]
  {
  }

  /** The eleven candidate entries of toMap(data), in their fixed order. */
  function DataFields(d: DataRecord): (r: seq<Entry>)
    ensures |r| == 11
    ensures forall i :: 0 <= i < 11 ==> r[i].0 == DATA_KEYS[i]
  {
    var h := d.header;
    [("messageId", StrValue(h.messageId)), ("correlationId", StrValue(h.correlationId)),
     ("sessionId", StrValue(h.sessionId)), ("replyToSessionId", StrValue(h.replyToSessionId)),
     ("partitionKey", StrValue(h.partitionKey)), ("to", StrValue(h.to)),
     ("replyTo", StrValue(h.replyTo)), ("subject", StrValue(h.subject)),
     ("contentType", StrValue(h.contentType)),
     ("scheduledEnqueueTime", TimeValue(h.scheduledEnqueueTime)),
     ("timeToLive", SpanValue(h.timeToLive))]
  }

  /** toMap(data): exactly the non-null fields among its eleven keys, in the fixed order. */
  method ToMapData(d: DataRecord) returns (r: seq<Entry>)
    ensures r == Present(DataFields(d))
  {
    var fields := DataFields(d);
    DataFieldsDistinct(d);
    var b := new MapBuilder();
    PutFirstEleven(b, fields);
    assert fields[..11] == fields;
    r := b.Build();
  }

  /** The twenty-one candidate entries of toMap(received message), in their fixed order. */
  function ReceivedFields(m: ReceivedMessage): (r: seq<Entry>)
    ensures |r| == 21
    ensures forall i :: 0 <= i < 21 ==> r[i].0 == RECEIVED_KEYS[i]
  {
    var h := m.header;
    var dl := m.delivery;
    var dead := m.deadLetter;
    [("messageId", StrValue(h.messageId)), ("correlationId", StrValue(h.correlationId)),
     ("sessionId", StrValue(h.sessionId)), ("replyToSessionId", StrValue(h.replyToSessionId)),
     ("partitionKey", StrValue(h.partitionKey)), ("deliveryCount", Long(dl.deliveryCount)),
     ("sequenceNumber", Long(m.sequenceNumber)),
     ("enqueuedSequenceNumber", Long(dl.enqueuedSequenceNumber)),
     ("to", StrValue(h.to)), ("replyTo", StrValue(h.replyTo)), ("subject", StrValue(h.subject)),
     ("contentType", StrValue(h.contentType)), ("state", StrValue(dl.state)),
     ("scheduledEnqueueTime", TimeValue(h.scheduledEnqueueTime)),
     ("enqueuedTime", TimeValue(dl.enqueuedTime)), ("lockedUntil", TimeValue(dl.lockedUntil)),
     ("expiresAt", TimeValue(dl.expiresAt)), ("timeToLive", SpanValue(h.timeToLive)),
     ("deadLetterReason", StrValue(dead.reason)),
     ("deadLetterErrorDescription", StrValue(dead.errorDescription)),
     ("deadLetterSource", StrValue(dead.source))]
  }

  /** The twenty-one keys are distinct, so every put of toMap adds a new entry. */
  lemma ReceivedFieldsDistinct(m: ReceivedMessage)
    ensures DistinctKeys(ReceivedFields(m))
  {
    ReceivedKeysDistinct();
  }

  /** The eleven keys are distinct, so every put of toMap adds a new entry. */
  lemma DataFieldsDistinct(d: DataRecord)
    ensures DistinctKeys(DataFields(d))
  {
    DataKeysDistinct();
  }

  /** The first eleven links of a putIfNotNull chain: all of toMap(data), the head of
    * toMap(received message). */
  method PutFirstEleven(b: MapBuilder, fields: seq<Entry>)
    requires DistinctKeys(fields) && |fields| >= 11
    requires b.entries == []
    modifies b
    ensures b.entries == Present(fields[..11])
  {
    assert fields[..0] == [];
    PutField(b, fields, 0);
    PutField(b, fields, 1);
    PutField(b, fields, 2);
    PutField(b, fields, 3);
    PutField(b, fields, 4);
    PutField(b, fields, 5);
    PutField(b, fields, 6);
    PutField(b, fields, 7);
    PutField(b, fields, 8);
    PutField(b, fields, 9);
    PutField(b, fields, 10);
  }

  /** The last ten links of toMap(received message). */
  method PutReceivedTail(b: MapBuilder, fields: seq<Entry>)
    requires DistinctKeys(fields) && |fields| == 21
    requires b.entries == Present(fields[..11])
    modifies b
    ensures b.entries == Present(fields)
  {
    PutField(b, fields, 11);
    PutField(b, fields, 12);
    PutField(b, fields, 13);
    PutField(b, fields, 14);
    PutField(b, fields, 15);
    PutField(b, fields, 16);
    PutField(b, fields, 17);
    PutField(b, fields, 18);
    PutField(b, fields, 19);
    PutField(b, fields, 20);
  }

  /** toMap(received message): exactly the non-null fields among its twenty-one keys, in the
    * fixed order. */
  method ToMapReceived(m: ReceivedMessage) returns (r: seq<Entry>)
    ensures r == Present(ReceivedFields(m))
  {
    var fields := ReceivedFields(m);
    ReceivedFieldsDistinct(m);
    var b := new MapBuilder();
    PutFirstEleven(b, fields);
    PutReceivedTail(b, fields);
    r := b.Build();
  }

  /** A record with no header field set lists nothing. */
  lemma EmptyRecordMap()
    ensures Present(DataFields(EMPTY_RECORD)) == []
  {
    var fields := DataFields(EMPTY_RECORD);
    assert forall i :: 0 <= i < |fields| ==> fields[i].1.Null?;
    PresentOfNulls(fields);
  }

  lemma {:induction false} PresentOfNulls(entries: seq<Entry>)
    requires forall i :: 0 <= i < |entries| ==> entries[i].1.Null?
    ensures Present(entries) == []
  {
    if entries != [] {
      PresentOfNulls(entries[1..]);
    }
  }

  /** A record's message id, when it has one, is listed first. */
  lemma MessageIdListedFirst(d: DataRecord)
    requires d.header.messageId.Some?
    ensures |Present(DataFields(d))| >= 1
    ensures Present(DataFields(d))[0] == ("messageId", Str(d.header.messageId.value))
  {
  }

  /** The broker's counters are never null, so a received message always lists them. */
  lemma ReceivedListsCounters(m: ReceivedMessage)
    ensures ("deliveryCount", Long(m.delivery.deliveryCount)) in Present(ReceivedFields(m))
    ensures ("sequenceNumber", Long(m.sequenceNumber)) in Present(ReceivedFields(m))
    ensures ("enqueuedSequenceNumber", Long(m.delivery.enqueuedSequenceNumber)) in Present(ReceivedFields(m))
  {
    ReceivedCountersAt(m);
    CountersPresent(ReceivedFields(m), m);
  }

  /** Where the three counters sit among the received message's fields. */
  lemma ReceivedCountersAt(m: ReceivedMessage)
    ensures ReceivedFields(m)[5] == ("deliveryCount", Long(m.delivery.deliveryCount))
    ensures ReceivedFields(m)[6] == ("sequenceNumber", Long(m.sequenceNumber))
    ensures ReceivedFields(m)[7] == ("enqueuedSequenceNumber", Long(m.delivery.enqueuedSequenceNumber))
  {
  }

  lemma CountersPresent(f: seq<Entry>, m: ReceivedMessage)
    requires |f| == 21
    requires f[5] == ("deliveryCount", Long(m.delivery.deliveryCount))
    requires f[6] == ("sequenceNumber", Long(m.sequenceNumber))
    requires f[7] == ("enqueuedSequenceNumber", Long(m.delivery.enqueuedSequenceNumber))
    ensures ("deliveryCount", Long(m.delivery.deliveryCount)) in Present(f)
    ensures ("sequenceNumber", Long(m.sequenceNumber)) in Present(f)
    ensures ("enqueuedSequenceNumber", Long(m.delivery.enqueuedSequenceNumber)) in Present(f)
  {
    PresentListsAt(f, 5);
    PresentListsAt(f, 6);
    PresentListsAt(f, 7);
  }

  /** A non-null entry is kept by Present. */
  lemma PresentListsAt(entries: seq<Entry>, i: nat)
    requires i < |entries| && !entries[i].1.Null?
    ensures entries[i] in Present(entries)
  {
  }
}
