/**
 * The Service Bus message as the application sees it: the received message with
 * its broker-assigned headers, its raw AMQP body, and the values that appear in
 * application properties and annotations.
 */
module Messages {
  import opened Wrappers
  import opened Text

  type byte = x: int | 0 <= x < 256

  /** A java.time.OffsetDateTime, carried as its ISO-8601 text. */
  datatype Timestamp = Timestamp(iso: string)

  /** A java.time.Duration, carried as its ISO-8601 text (for example "PT1H"). */
  datatype Duration = Duration(iso: string)

  /** The objects that appear as property, annotation and AMQP values; Null is Java's null. */
  datatype Value =
    | Str(s: string)
    | Long(n: int)
    | Bool(b: bool)
    | Time(t: Timestamp)
    | Span(d: Duration)
    | Null

  /** String.valueOf(Object): toString of the value, "null" for null. */
  function Show(v: Value): string {
    match v
    case Str(s) => s
    case Long(n) => ShowInt(n)
    case Bool(b) => if b then "true" else "false"
    case Time(t) => t.iso
    case Span(d) => d.iso
    case Null => "null"
  }

  /** List.toString: the elements' texts between brackets, separated by ", ". */
  function ShowList(items: seq<Value>): string {
    "[" + Join(", ", seq(|items|, i requires 0 <= i < |items| => Show(items[i]))) + "]"
  }

  /**
   * The body of a raw AMQP message. A DATA body carries its bytes in chunks
   * together with their UTF-8 decoding, which the JDK performs.
   */
  datatype Body =
    | Data(chunks: seq<seq<byte>>, decoded: string)
    | AmqpValue(value: Value)
    | AmqpSequence(items: Option<seq<Value>>)

  /** The raw AMQP message behind a received message. */
  datatype RawMessage = RawMessage(
    body: Body,
    messageAnnotations: Option<map<string, Value>>,
    deliveryAnnotations: Option<map<string, Value>>)

  /**
   * The eleven header fields a sender sets and the application copies between
   * received messages, message records and outgoing messages.
   */
  datatype Header = Header(
    messageId: Option<string>,
    contentType: Option<string>,
    correlationId: Option<string>,
    subject: Option<string>,
    to: Option<string>,
    replyTo: Option<string>,
    replyToSessionId: Option<string>,
    sessionId: Option<string>,
    partitionKey: Option<string>,
    timeToLive: Option<Duration>,
    scheduledEnqueueTime: Option<Timestamp>)

  /** A header with every field null, as a new outgoing message has it. */
  const EMPTY_HEADER: Header := Header(None, None, None, None, None, None, None, None, None, None, None)

  /** The dead-letter fields of a received message. */
  datatype DeadLetterInfo = DeadLetterInfo(
    reason: Option<string>,
    errorDescription: Option<string>,
    source: Option<string>)

  /** The fields the broker assigns when it delivers a message. */
  datatype Delivery = Delivery(
    deliveryCount: int,
    enqueuedSequenceNumber: int,
    state: Option<string>,
    enqueuedTime: Option<Timestamp>,
    lockedUntil: Option<Timestamp>,
    expiresAt: Option<Timestamp>)

  /** ServiceBusReceivedMessage: the sender's header, the broker's fields, properties and body. */
  datatype ReceivedMessage = ReceivedMessage(
    header: Header,
    sequenceNumber: int,
    delivery: Delivery,
    deadLetter: DeadLetterInfo,
    applicationProperties: Option<map<string, Value>>,
    raw: Option<RawMessage>)
  {
    function MessageId(): Option<string> { header.messageId }
  }

  /** The bytes of String.getBytes() in UTF-8: one to four per code point. */
  function Utf8Length(s: string): (n: nat)
    ensures |s| <= n <= 4 * |s|
  {
    if s == [] then 0
    else
      var c := s[0] as int;
      (if c < 0x80 then 1 else if c < 0x800 then 2 else if c < 0x10000 then 3 else 4)
      + Utf8Length(s[1..])
  }

  /** The bytes of a DATA body laid end to end. */
  function Concat(chunks: seq<seq<byte>>): seq<byte> {
    if chunks == [] then [] else Concat(chunks[..|chunks| - 1]) + chunks[|chunks| - 1]
  }

  /** The body size is the sum of the chunk lengths. */
  lemma {:induction false} ConcatLength(chunks: seq<seq<byte>>)
    ensures |Concat(chunks)| == TotalLength(chunks)
  {
    if chunks != [] {
      ConcatLength(chunks[..|chunks| - 1]);
      TotalLengthSnoc(chunks[..|chunks| - 1], chunks[|chunks| - 1]);
      assert chunks[..|chunks| - 1] + [chunks[|chunks| - 1]] == chunks;
    }
  }

  function TotalLength(chunks: seq<seq<byte>>): nat {
    if chunks == [] then 0 else |chunks[0]| + TotalLength(chunks[1..])
  }

  lemma {:induction false} TotalLengthSnoc(chunks: seq<seq<byte>>, last: seq<byte>)
    ensures TotalLength(chunks + [last]) == TotalLength(chunks) + |last|
  {
    if chunks != [] {
      assert (chunks + [last])[1..] == chunks[1..] + [last];
      TotalLengthSnoc(chunks[1..], last);
    }
  }
}
