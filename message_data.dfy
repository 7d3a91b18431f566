/** ServiceBusMessageData: the editable record of a message that the dialogs show and resend. */
module MessageData {
  import opened Wrappers
  import opened Messages

  /** Everything a ServiceBusMessageData holds, as one value. */
  datatype DataRecord = DataRecord(
    header: Header,
    transactionPartitionKey: Option<string>,
    applicationProperties: Option<map<string, Value>>,
    body: Option<string>)

  /** The record of a default-constructed ServiceBusMessageData. */
  const EMPTY_RECORD: DataRecord := DataRecord(EMPTY_HEADER, None, Some(map[]), None)

  class ServiceBusMessageData {
    var messageId: Option<string>
    var contentType: Option<string>
    var correlationId: Option<string>
    var subject: Option<string>
    var to: Option<string>
    var replyTo: Option<string>
    var replyToSessionId: Option<string>
    var sessionId: Option<string>
    var partitionKey: Option<string>
    var transactionPartitionKey: Option<string>
    var timeToLive: Option<Duration>
    var scheduledEnqueueTime: Option<Timestamp>
    var applicationProperties: Option<map<string, Value>>
    var body: Option<string>

    /** The header fields of the record. */
    function Header(): Header
      reads this
    {
      Messages.Header(messageId, contentType, correlationId, subject, to, replyTo, replyToSessionId,
                      sessionId, partitionKey, timeToLive, scheduledEnqueueTime)
    }

    /** The whole state of the record. */
    function Snapshot(): DataRecord
      reads this
    {
      DataRecord(Header(), transactionPartitionKey, applicationProperties, body)
    }

    /** The default constructor: every field null, an empty property map. */
    constructor ()
      ensures Snapshot() == EMPTY_RECORD
    {
      messageId, contentType, correlationId, subject := None, None, None, None;
      to, replyTo, replyToSessionId, sessionId := None, None, None, None;
      partitionKey, transactionPartitionKey := None, None;
      timeToLive, scheduledEnqueueTime := None, None;
      applicationProperties := Some(map[]);
      body := None;
    }

    /** The body constructor: only the body is set. */
    constructor WithBody(body: Option<string>)
      ensures Snapshot() == EMPTY_RECORD.(body := body)
    {
      messageId, contentType, correlationId, subject := None, None, None, None;
      to, replyTo, replyToSessionId, sessionId := None, None, None, None;
      partitionKey, transactionPartitionKey := None, None;
      timeToLive, scheduledEnqueueTime := None, None;
      applicationProperties := Some(map[]);
      this.body := body;
    }

    method SetMessageId(v: Option<string>)
      modifies this
      ensures Snapshot() == old(Snapshot()).(header := old(Header()).(messageId := v))
    {
      messageId := v;
    }

    method SetContentType(v: Option<string>)
      modifies this
      ensures Snapshot() == old(Snapshot()).(header := old(Header()).(contentType := v))
    {
      contentType := v;
    }

    method SetCorrelationId(v: Option<string>)
      modifies this
      ensures Snapshot() == old(Snapshot()).(header := old(Header()).(correlationId := v))
    {
      correlationId := v;
    }

    method SetSubject(v: Option<string>)
      modifies this
      ensures Snapshot() == old(Snapshot()).(header := old(Header()).(subject := v))
    {
      subject := v;
    }

    method SetTo(v: Option<string>)
      modifies this
      ensures Snapshot() == old(Snapshot()).(header := old(Header()).(to := v))
    {
      to := v;
    }

    method SetReplyTo(v: Option<string>)
      modifies this
      ensures Snapshot() == old(Snapshot()).(header := old(Header()).(replyTo := v))
    {
      replyTo := v;
    }

    method SetReplyToSessionId(v: Option<string>)
      modifies this
      ensures Snapshot() == old(Snapshot()).(header := old(Header()).(replyToSessionId := v))
    {
      replyToSessionId := v;
    }

    method SetSessionId(v: Option<string>)
      modifies this
      ensures Snapshot() == old(Snapshot()).(header := old(Header()).(sessionId := v))
    {
      sessionId := v;
    }

    method SetPartitionKey(v: Option<string>)
      modifies this
      ensures Snapshot() == old(Snapshot()).(header := old(Header()).(partitionKey := v))
    {
      partitionKey := v;
    }

    method SetTimeToLive(v: Option<Duration>)
      modifies this
      ensures Snapshot() == old(Snapshot()).(header := old(Header()).(timeToLive := v))
    {
      timeToLive := v;
    }

    method SetScheduledEnqueueTime(v: Option<Timestamp>)
      modifies this
      ensures Snapshot() == old(Snapshot()).(header := old(Header()).(scheduledEnqueueTime := v))
    {
      scheduledEnqueueTime := v;
    }

    method SetTransactionPartitionKey(v: Option<string>)
      modifies this
      ensures Snapshot() == old(Snapshot()).(transactionPartitionKey := v)
    {
      transactionPartitionKey := v;
    }

    /** setApplicationProperties: replaces the map, which may be null. */
    method SetApplicationProperties(v: Option<map<string, Value>>)
      modifies this
      ensures Snapshot() == old(Snapshot()).(applicationProperties := v)
    {
      applicationProperties := v;
    }

    method SetBody(v: Option<string>)
      modifies this
      ensures Snapshot() == old(Snapshot()).(body := v)
    {
      body := v;
    }

    /** `getApplicationProperties().putAll(entries)`: later entries overwrite earlier ones; a null
      * map throws and nothing changes. */
    method PutAllProperties(entries: map<string, Value>) returns (ok: bool)
      modifies this
      ensures ok <==> old(applicationProperties).Some?
      ensures ok ==> Snapshot() == old(Snapshot()).(applicationProperties := Some(old(applicationProperties).value + entries))
      ensures !ok ==> Snapshot() == old(Snapshot())
    {
      if applicationProperties.None? {
        return false;
      }
      applicationProperties := Some(applicationProperties.value + entries);
      ok := true;
    }

    /** addProperty: insert or overwrite one property and return the same record; a null map
      * throws and nothing changes. */
    method AddProperty(key: string, value: Value) returns (r: Result<ServiceBusMessageData, string>)
      modifies this
      ensures r.Success? <==> old(applicationProperties).Some?
      ensures r.Success? ==> r.value == this
      ensures r.Success? ==> Snapshot() == old(Snapshot()).(applicationProperties := Some(old(applicationProperties).value[key := value]))
      ensures r.Failure? ==> Snapshot() == old(Snapshot())
    {
      if applicationProperties.None? {
        return Failure("NullPointerException");
      }
      applicationProperties := Some(applicationProperties.value[key := value]);
      r := Success(this);
    }
  }

  /** A set property reads back, and another property is untouched. */
  method AddPropertyReadsBack(data: ServiceBusMessageData, k1: string, v1: Value, k2: string, v2: Value)
    returns (r1: Result<ServiceBusMessageData, string>, r2: Result<ServiceBusMessageData, string>)
    requires data.applicationProperties.Some?
    requires k1 != k2
    modifies data
    ensures r1.Success? && r2.Success? && r2.value == data
    ensures data.applicationProperties.Some?
    ensures k1 in data.applicationProperties.value && data.applicationProperties.value[k1] == v1
    ensures k2 in data.applicationProperties.value && data.applicationProperties.value[k2] == v2
  {
    r1 := data.AddProperty(k1, v1);
    r2 := data.AddProperty(k2, v2);
  }
}
