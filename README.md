# Service Bus Viewer core, in Dafny

This project models the core of Service Bus Viewer, a JavaFX desktop client for Azure Service
Bus (package `com.dutils.servicebusviewer`), and proves properties of that model.

The heart of the model is the batched message-transfer logic of `MessageUtils`:
- purge, purge the dead-letter sub-queue, move all to the dead-letter sub-queue, restore all,
  and restore selected messages;
- each is a loop over batches of at most `BATCH_SIZE` = 2 received messages.

The broker is a value:
- an entity holds an active and a dead-letter sequence of messages;
- `receive(2)` returns a prefix of at most two messages;
- a peek-lock message leaves on complete or dead-letter, and abandon puts it back at the front;
- `send` appends to the destination's outbox;
- which sends, completes, dead-letters and abandons throw is a parameter (`Faults`).

Every settlement is recorded, so "each sent message is settled exactly once, unless both its
complete and its abandon threw" and "the result is a sub-multiset of the targets" can be stated
and proved.

Around that core the model covers:
- the sender and receiver client pools of `ServiceBusManager` and the namespace registry of
  `ApplicationContext`;
- message-record mapping (`MapperUtils`, `ServiceBusMessageData`, `PropsTreeTableItem`);
- the peek paging cursor and body size (`MainUIMessageTableViewManager`);
- the queue grouping and property tables of the entity tree (`MainUITreeAndTableViewManager`,
  `DataTreeItem`);
- the progress counters, menu visibility, sorts and row navigation of the two controllers;
- the connection list of the connection dialog, the generic table helper and the clipboard
  handler;
- namespace extraction, stylesheet toggling and body-type detection;
- the span builders of the three code-editor highlighters.

Java objects whose fields change become Dafny classes with `modifies` clauses. Pure
computations become functions with lemmas. Loops become methods proved against a specification
function. `null` is `Option.None`, and a Java exception is a `Result.Failure` or an explicit
outcome.

## Model

Source cells are paths from the repository root.

| member | source | states |
|---|---|---|
| NodeTypes.Name | src/main/java/com/dutils/servicebusviewer/model/NodeType.java:3-15 | each of the four kinds has its fixed display name: Queue, Topic, Subscription, None, and each name belongs to exactly one kind |
| NodeTypes.NamesDistinct | src/main/java/com/dutils/servicebusviewer/model/NodeType.java:4-7 | two kinds have the same display name exactly when they are the same kind |
| PropsItems.DisplayText | src/main/java/com/dutils/servicebusviewer/model/PropsTreeTableItem.java:18-19 | a null constructor value is stored as "", any other value as its `toString` |
| PropsItems.PropsTreeTableItem.constructor | src/main/java/com/dutils/servicebusviewer/model/PropsTreeTableItem.java:16-23 | key, flags and field name are the ones given; the value is stored as its text, "" for null |
| PropsItems.PropsTreeTableItem.SetKey | src/main/java/com/dutils/servicebusviewer/model/PropsTreeTableItem.java:29-31 | only the key changes (its frame is the key field), and it becomes the new key |
| PropsItems.PropsTreeTableItem.SetValue | src/main/java/com/dutils/servicebusviewer/model/PropsTreeTableItem.java:41-43 | only the value changes (its frame is the value field), and it becomes the new value |
| Messages.Utf8Length | src/main/java/com/dutils/servicebusviewer/mgr/MainUIMessageTableViewManager.java:81-88 | the UTF-8 byte count of a text lies between its length and four times its length |
| Messages.ConcatLength | src/main/java/com/dutils/servicebusviewer/mgr/MainUIMessageTableViewManager.java:73-80 | the bytes of a DATA body laid end to end number the sum of the chunk lengths |
| Text.OpensWithAt | src/main/java/com/dutils/servicebusviewer/codearea/JsonEditor.java:23-26 | a `^\s*c` pattern (c not a `\s` character) finds a match exactly when the first character after the leading `\s` run is c |
| Text.Trim | src/main/java/com/dutils/servicebusviewer/ConnectionDialogController.java:171 | `String.trim` keeps one slice of the text: everything cut from either end is at or below U+0020, the kept slice starts and ends above U+0020, and it is empty exactly when every character is at or below U+0020 |
| Text.ToUpperAsciiSpec | src/main/java/com/dutils/servicebusviewer/utils/Utils.java:111 | upper-casing leaves no lower-case ASCII letter and every other character as it was, is idempotent, and two texts upper-case alike exactly when they agree ignoring case |
| Text.ContainsUpper | src/main/java/com/dutils/servicebusviewer/utils/Utils.java:111 | an upper-case word occurs in the upper-cased text exactly when it occurs in the text ignoring case |
| Text.ParseShowInt | src/main/java/com/dutils/servicebusviewer/utils/Utils.java:102 | a long printed in decimal parses back (by `Long.parseLong`) to the same long |
| Text.JavaDiv | src/main/java/com/dutils/servicebusviewer/model/DataTreeItem.java:88 | Java's long division by a positive divisor truncates toward zero: the remainder is smaller than the divisor in size and has the sign of the dividend |
| Lists.IndexOf | src/main/java/com/dutils/servicebusviewer/ConnectionDialogController.java:72 | `List.indexOf` as the edit commits use it (also line 80): the index of the first occurrence, or -1 exactly when the element is absent |
| Lists.RemoveFirst | src/main/java/com/dutils/servicebusviewer/utils/Utils.java:112 | `List.remove(o)` removes the first occurrence when there is one, keeping the other elements in order, and changes nothing otherwise |
| Config.Lookup | src/main/java/com/dutils/servicebusviewer/config/ApplicationContext.java:52 | `managers.get(ns)`: the manager under the namespace, null exactly when none is registered |
| Config.ApplicationContext.constructor | src/main/java/com/dutils/servicebusviewer/config/ApplicationContext.java:14-37 | no manager is registered, there is no current manager or namespace, and the style is "none" |
| Config.ApplicationContext.RegisterManager | src/main/java/com/dutils/servicebusviewer/config/ApplicationContext.java:43-48 | the new manager is stored under its namespace (replacing any earlier one without closing it), becomes current, and its namespace becomes current; the current manager stays the one registered under the current namespace |
| Config.ApplicationContext.SelectNamespace | src/main/java/com/dutils/servicebusviewer/config/ApplicationContext.java:50-53 | the namespace always becomes current; the current manager becomes the one registered under it, null when it is unknown; the registry is unchanged |
| Config.ApplicationContext.Managers | src/main/java/com/dutils/servicebusviewer/config/ApplicationContext.java:63-65 | the registry as it is at the call |
| Config.ApplicationContext.SetStyle | src/main/java/com/dutils/servicebusviewer/config/ApplicationContext.java:75-77 | only the style changes |
| Config.SnapshotUnchangedByRegister | src/main/java/com/dutils/servicebusviewer/config/ApplicationContext.java:43-65 | a snapshot taken before a registration still shows the old registry, every other namespace keeps its manager, and the registered namespace now maps to the new manager |
| Config.SelectRoundTrip | src/main/java/com/dutils/servicebusviewer/config/ApplicationContext.java:50-53 | selecting another namespace and then the first again drops no manager and restores the same current manager |
| MessageData.ServiceBusMessageData.constructor | src/main/java/com/dutils/servicebusviewer/model/ServiceBusMessageData.java:11-30 | the default constructor leaves every field null with an empty property map; the body constructor sets only the body |
| MessageData.ServiceBusMessageData.SetMessageId | src/main/java/com/dutils/servicebusviewer/model/ServiceBusMessageData.java:37-39 | the record's state after the call is the old state with only the message id replaced |
| MessageData.ServiceBusMessageData.SetContentType | src/main/java/com/dutils/servicebusviewer/model/ServiceBusMessageData.java:45-47 | only the content type changes |
| MessageData.ServiceBusMessageData.SetCorrelationId | src/main/java/com/dutils/servicebusviewer/model/ServiceBusMessageData.java:53-55 | only the correlation id changes |
| MessageData.ServiceBusMessageData.SetSubject | src/main/java/com/dutils/servicebusviewer/model/ServiceBusMessageData.java:61-63 | only the subject changes |
| MessageData.ServiceBusMessageData.SetTo | src/main/java/com/dutils/servicebusviewer/model/ServiceBusMessageData.java:69-71 | only the "to" address changes |
| MessageData.ServiceBusMessageData.SetReplyTo | src/main/java/com/dutils/servicebusviewer/model/ServiceBusMessageData.java:77-79 | only the reply-to address changes |
| MessageData.ServiceBusMessageData.SetReplyToSessionId | src/main/java/com/dutils/servicebusviewer/model/ServiceBusMessageData.java:85-87 | only the reply-to session id changes |
| MessageData.ServiceBusMessageData.SetSessionId | src/main/java/com/dutils/servicebusviewer/model/ServiceBusMessageData.java:93-95 | only the session id changes |
| MessageData.ServiceBusMessageData.SetPartitionKey | src/main/java/com/dutils/servicebusviewer/model/ServiceBusMessageData.java:101-103 | only the partition key changes |
| MessageData.ServiceBusMessageData.SetTransactionPartitionKey | src/main/java/com/dutils/servicebusviewer/model/ServiceBusMessageData.java:109-111 | only the transaction partition key changes |
| MessageData.ServiceBusMessageData.SetTimeToLive | src/main/java/com/dutils/servicebusviewer/model/ServiceBusMessageData.java:117-119 | only the time-to-live changes |
| MessageData.ServiceBusMessageData.SetScheduledEnqueueTime | src/main/java/com/dutils/servicebusviewer/model/ServiceBusMessageData.java:125-127 | only the scheduled enqueue time changes |
| MessageData.ServiceBusMessageData.SetApplicationProperties | src/main/java/com/dutils/servicebusviewer/model/ServiceBusMessageData.java:133-135 | only the property map changes, and may become null |
| MessageData.ServiceBusMessageData.SetBody | src/main/java/com/dutils/servicebusviewer/model/ServiceBusMessageData.java:141-143 | only the body changes |
| MessageData.ServiceBusMessageData.PutAllProperties | src/main/java/com/dutils/servicebusviewer/utils/MapperUtils.java:29-31 | `getApplicationProperties().putAll(m)`: succeeds exactly when the map is non-null, the given entries overwrite, nothing else changes; on a null map nothing changes |
| MessageData.ServiceBusMessageData.AddProperty | src/main/java/com/dutils/servicebusviewer/model/ServiceBusMessageData.java:146-149 | inserts or overwrites the one property and returns the same record; on a null map it fails and nothing changes |
| MessageData.AddPropertyReadsBack | src/main/java/com/dutils/servicebusviewer/model/ServiceBusMessageData.java:146-149 | two properties added under different keys both read back with their values |
| Mapper.NewMessage | src/main/java/com/dutils/servicebusviewer/utils/MapperUtils.java:43 | a new outgoing message carries the body, every header field null and empty property and annotation maps |
| Mapper.SetIfPresent | src/main/java/com/dutils/servicebusviewer/utils/MapperUtils.java:45-56 | a header field is replaced by a non-null value and otherwise keeps the message default |
| Mapper.ToServiceBusMessageData | src/main/java/com/dutils/servicebusviewer/utils/MapperUtils.java:14-38 | null for null; otherwise the record has the message's header, the partition key again as transaction partition key, the message's properties (an empty map when it has none) and the extracted body |
| Mapper.NewServiceBusMessageData | src/main/java/com/dutils/servicebusviewer/utils/MapperUtils.java:14-38 | filling a new record through its setters in source order gives exactly the record the conversion function describes |
| Mapper.ToServiceBusMessage | src/main/java/com/dutils/servicebusviewer/utils/MapperUtils.java:40-63 | null for null; the body text, or an empty byte payload for a null body; each header field set only from a non-null field; the properties replaced wholesale by the record's map when it has one; no annotations |
| Mapper.RecordRoundTrip | src/main/java/com/dutils/servicebusviewer/utils/MapperUtils.java:14-63 | a received message taken to a record and back to an outgoing message keeps its header and properties and carries its extracted body as text |
| Mapper.CloneMessage | src/main/java/com/dutils/servicebusviewer/utils/MapperUtils.java:65-87 | all eleven header fields copied whether null or not, message and delivery annotations copied, no properties; a missing raw message throws |
| Mapper.KeysOf | src/main/java/com/dutils/servicebusviewer/utils/MapperUtils.java:130 | the keys of a linked map, in insertion order |
| Mapper.Put | src/main/java/com/dutils/servicebusviewer/utils/MapperUtils.java:133 | `LinkedHashMap.put` of a new key appends the entry at the end |
| Mapper.PutExisting | src/main/java/com/dutils/servicebusviewer/utils/MapperUtils.java:133 | `LinkedHashMap.put` of a present key keeps the length and every key in place and changes only that key's value |
| Mapper.Present | src/main/java/com/dutils/servicebusviewer/utils/MapperUtils.java:132-135 | the entries kept by a chain of putIfNotNull: exactly the non-null ones, in order |
| Mapper.MapBuilder.constructor | src/main/java/com/dutils/servicebusviewer/utils/MapperUtils.java:130 | a new builder holds no entry |
| Mapper.MapBuilder.PutIfNotNull | src/main/java/com/dutils/servicebusviewer/utils/MapperUtils.java:132-135 | a null value leaves the map as it is; any other value is put; the builder itself is returned |
| Mapper.MapBuilder.Build | src/main/java/com/dutils/servicebusviewer/utils/MapperUtils.java:137-139 | returns the builder's map |
| Mapper.PutField | src/main/java/com/dutils/servicebusviewer/utils/MapperUtils.java:88-127 | one link of a putIfNotNull chain with distinct keys extends the present entries by that field's entry when it is non-null |
| Mapper.DataFields | src/main/java/com/dutils/servicebusviewer/utils/MapperUtils.java:113-127 | the eleven candidate entries of `toMap(data)`, keyed in the fixed order |
| Mapper.ReceivedFields | src/main/java/com/dutils/servicebusviewer/utils/MapperUtils.java:88-112 | the twenty-one candidate entries of `toMap(received message)`, keyed in the fixed order |
| Mapper.DataFieldsDistinct | src/main/java/com/dutils/servicebusviewer/utils/MapperUtils.java:113-127 | no two candidate entries of `toMap(data)` share a key, so each put adds a new entry |
| Mapper.ReceivedFieldsDistinct | src/main/java/com/dutils/servicebusviewer/utils/MapperUtils.java:88-112 | no two candidate entries of `toMap(received message)` share a key |
| Mapper.ToMapData | src/main/java/com/dutils/servicebusviewer/utils/MapperUtils.java:113-127 | `toMap(data)` holds exactly the non-null fields among its eleven keys, in the fixed order |
| Mapper.PutFirstEleven | src/main/java/com/dutils/servicebusviewer/utils/MapperUtils.java:90-100 | the first eleven links of a chain hold the present entries among the first eleven fields |
| Mapper.PutReceivedTail | src/main/java/com/dutils/servicebusviewer/utils/MapperUtils.java:101-111 | the last ten links of `toMap(received message)` complete the present entries of all twenty-one fields |
| Mapper.ToMapReceived | src/main/java/com/dutils/servicebusviewer/utils/MapperUtils.java:88-112 | `toMap(received message)` holds exactly the non-null fields among its twenty-one keys, in the fixed order |
| Mapper.EmptyRecordMap | src/main/java/com/dutils/servicebusviewer/utils/MapperUtils.java:113-127 | a default-constructed record lists nothing |
| Mapper.MessageIdListedFirst | src/main/java/com/dutils/servicebusviewer/utils/MapperUtils.java:115 | a record with a message id lists it first |
| Mapper.ReceivedListsCounters | src/main/java/com/dutils/servicebusviewer/utils/MapperUtils.java:95-97 | the delivery count and both sequence numbers are never null, so a received message always lists them |
| Mapper.ReceivedCountersAt | src/main/java/com/dutils/servicebusviewer/utils/MapperUtils.java:95-97 | the three counters are the sixth to eighth candidate entries |
| ServiceBus.KindText | src/main/java/com/dutils/servicebusviewer/servicebus/ServiceBusManager.java:101 | the kind prints as its constant name, which holds no ':' |
| ServiceBus.ModeText | src/main/java/com/dutils/servicebusviewer/servicebus/ServiceBusManager.java:101 | the receive mode prints as its name or "null", with no ':' |
| ServiceBus.SubQueueText | src/main/java/com/dutils/servicebusviewer/servicebus/ServiceBusManager.java:101 | the sub-queue prints as its name or "null", with no ':' |
| ServiceBus.SenderKey | src/main/java/com/dutils/servicebusviewer/servicebus/ServiceBusManager.java:165 | the sender key is the kind's name, ':' and the entity name |
| ServiceBus.ReceiverKey | src/main/java/com/dutils/servicebusviewer/servicebus/ServiceBusManager.java:101 | the receiver key "type:entity:sub:mode:subQ" |
| ServiceBus.SubQueueFor | src/main/java/com/dutils/servicebusviewer/servicebus/ServiceBusManager.java:50-54 | isDlq selects the dead-letter sub-queue, otherwise none |
| ServiceBus.SenderParams | src/main/java/com/dutils/servicebusviewer/servicebus/ServiceBusManager.java:174-185 | a queue is addressed by queue name, any other kind by topic name; nothing else is set |
| ServiceBus.ReceiverBuilder | src/main/java/com/dutils/servicebusviewer/servicebus/ServiceBusManager.java:123-131 | queue name for a queue, topic name otherwise; subscription name, receive mode and sub-queue each set exactly when non-null |
| ServiceBus.SyncReceiverParams | src/main/java/com/dutils/servicebusviewer/servicebus/ServiceBusManager.java:109-114 | a synchronous receiver is the builder plus prefetch 20 |
| ServiceBus.AsyncReceiverParams | src/main/java/com/dutils/servicebusviewer/servicebus/ServiceBusManager.java:116-121 | an asynchronous receiver is the builder with auto-complete disabled and the default prefetch |
| ServiceBus.RemoveClosed | src/main/java/com/dutils/servicebusviewer/servicebus/ServiceBusManager.java:103-104 | removing a cached client and closing it keeps a pool well formed |
| ServiceBus.CacheFresh | src/main/java/com/dutils/servicebusviewer/servicebus/ServiceBusManager.java:106 | caching a newly built client under its key keeps a pool well formed |
| ServiceBus.CloseEach | src/main/java/com/dutils/servicebusviewer/servicebus/ServiceBusManager.java:149-150 | `values().forEach(close)` without a catch: completes exactly when no client's close throws, then every client was closed; otherwise it stops at a failing client |
| ServiceBus.CloseEachCatching | src/main/java/com/dutils/servicebusviewer/servicebus/ServiceBusManager.java:192-198 | `forEach` with a catch around each close: every client is closed, and the failures reported are exactly the keys whose close throws |
| ServiceBus.SenderClient.constructor | src/main/java/com/dutils/servicebusviewer/servicebus/ServiceBusManager.java:156-162 | a new sender pool is empty |
| ServiceBus.SenderClient.GetSender | src/main/java/com/dutils/servicebusviewer/servicebus/ServiceBusManager.java:164-172 | with isNew a cached sender is removed and closed first (a throwing close ends the call); then the cached sender is returned unchanged, or one is built with the kind's builder parameters and cached; the pool stays well formed |
| ServiceBus.SenderClient.CloseAll | src/main/java/com/dutils/servicebusviewer/servicebus/ServiceBusManager.java:191-200 | every sender is closed, the failures are the keys whose close throws, and the map ends empty whatever failed |
| ServiceBus.ReceiverClient.constructor | src/main/java/com/dutils/servicebusviewer/servicebus/ServiceBusManager.java:86-93 | a new receiver pool has both maps empty |
| ServiceBus.ReceiverClient.Evict | src/main/java/com/dutils/servicebusviewer/servicebus/ServiceBusManager.java:103-104 | `receiverMap.remove(key)` and closing the removed receiver, if any; a throwing close ends the call |
| ServiceBus.ReceiverClient.ComputeIfAbsent | src/main/java/com/dutils/servicebusviewer/servicebus/ServiceBusManager.java:106 | the cached receiver is returned as it is; without one, a receiver built with the given parameters is cached under the key |
| ServiceBus.ReceiverClient.GetReceiver | src/main/java/com/dutils/servicebusviewer/servicebus/ServiceBusManager.java:99-107 | with isNew the cached receiver is removed and closed first (a throwing close ends the call); then the cached receiver is returned, or a prefetch-20 receiver is built and cached under the key |
| ServiceBus.ReceiverClient.NewReceiver | src/main/java/com/dutils/servicebusviewer/servicebus/ServiceBusManager.java:109-121 | a newly built receiver that no map caches, synchronous with prefetch 20 or asynchronous without auto-complete |
| ServiceBus.ReceiverClient.CloseDlq | src/main/java/com/dutils/servicebusviewer/servicebus/ServiceBusManager.java:141-146 | removes and closes the dead-letter receiver under the key; an absent key changes nothing; it fails exactly when that close throws, with that receiver's id |
| ServiceBus.ReceiverClient.Close | src/main/java/com/dutils/servicebusviewer/servicebus/ServiceBusManager.java:133-139 | removes and closes the receiver under the key, then the dead-letter one; absent keys are skipped; it fails exactly when one of those closes throws; a throw from the first ends the call with that receiver closed and the dead-letter map untouched, and a throw from the second comes after both were removed and closed |
| ServiceBus.ReceiverClient.CloseAll | src/main/java/com/dutils/servicebusviewer/servicebus/ServiceBusManager.java:148-153 | succeeds exactly when no close throws; then both maps are empty and every client was closed; a failure leaves both maps as they were |
| ServiceBus.ServiceBusManager.constructor | src/main/java/com/dutils/servicebusviewer/servicebus/ServiceBusManager.java:36-40 | a manager opens with two empty pools on its connection string |
| ServiceBus.ServiceBusManager.GetReceiver | src/main/java/com/dutils/servicebusviewer/servicebus/ServiceBusManager.java:50-64 | isDlq selects the dead-letter sub-queue in the key; with isNew a cached receiver is removed and closed first, a throwing close ending the call; then the cached receiver is returned unchanged, or a fresh one with prefetch 20 is built and cached |
| ServiceBus.ServiceBusManager.GetSenderClient | src/main/java/com/dutils/servicebusviewer/servicebus/ServiceBusManager.java:21-26 | getSenderClient returns the cached sender unchanged, building and caching one only when the key has none; getNewSenderClient first removes and closes the cached sender, a throwing close ending the call |
| ServiceBus.ServiceBusManager.NewReceiver | src/main/java/com/dutils/servicebusviewer/servicebus/ServiceBusManager.java:66-76 | an uncached receiver on the sub-queue isDlq selects; only the asynchronous one has auto-complete disabled |
| ServiceBus.ServiceBusManager.CloseReceiver | src/main/java/com/dutils/servicebusviewer/servicebus/ServiceBusManager.java:78-80 | the pool's close with its whole contract: fails exactly when a close throws; a throw from the receiver's close leaves the dead-letter map untouched and only that receiver closed; otherwise both are removed and closed; the pool stays well formed |
| ServiceBus.ServiceBusManager.CloseAllReceivers | src/main/java/com/dutils/servicebusviewer/servicebus/ServiceBusManager.java:82-84 | succeeds exactly when no close throws, and then every receiver of both maps is closed and both maps are empty; a throwing close leaves both maps as they were |
| ServiceBus.SenderCachedOnce | src/main/java/com/dutils/servicebusviewer/servicebus/ServiceBusManager.java:164-172 | two calls without isNew return the same sender, built at most once |
| ServiceBus.ReceiverReplaced | src/main/java/com/dutils/servicebusviewer/servicebus/ServiceBusManager.java:99-107 | when closes succeed, a forced receiver for a cached key closes the old one and hands out a different, open one |
| ServiceBus.SenderKeyDistinct | src/main/java/com/dutils/servicebusviewer/servicebus/ServiceBusManager.java:165 | equal sender keys mean the same kind and the same printed name |
| ServiceBus.ReceiverKeyDistinct | src/main/java/com/dutils/servicebusviewer/servicebus/ServiceBusManager.java:101 | for one entity, a different sub-entity, receive mode or sub-queue gives a different receiver key |
| ServiceBus.NullSubSharesKey | src/main/java/com/dutils/servicebusviewer/servicebus/ServiceBusManager.java:101-127 | a null sub-entity and the sub-entity "null" share one key although their builders differ |
| Utils.JsonAndXmlExclusive | src/main/java/com/dutils/servicebusviewer/utils/Utils.java:91-95 | no text looks both like JSON and like XML |
| Utils.DetectType | src/main/java/com/dutils/servicebusviewer/utils/Utils.java:91-95 | "Raw" for null; "JSON" exactly for JSON-looking text; "XML" exactly for XML-looking text; "Raw" otherwise |
| Utils.DetectTypeXml | src/main/java/com/dutils/servicebusviewer/utils/Utils.java:91-95 | a body is detected as XML exactly when it opens with '<' after leading blanks |
| Utils.GetEntityProperty | src/main/java/com/dutils/servicebusviewer/utils/Utils.java:96-106 | a long in range; 0 without a selection, for a NONE node, without data or for a missing key; otherwise 0 for a null entry or a text `Long.parseLong` rejects, and the parsed value for a text it accepts |
| Utils.GetEntityPropertyOfLong | src/main/java/com/dutils/servicebusviewer/utils/Utils.java:96-106 | a long stored under the name reads back unchanged |
| Utils.IsDarkSpec | src/main/java/com/dutils/servicebusviewer/utils/Utils.java:111 | the dark theme is chosen exactly when "dark" occurs in the style in any mix of ASCII case |
| Utils.ToggleSheets | src/main/java/com/dutils/servicebusviewer/utils/Utils.java:110-118 | after a toggle the chosen sheet is present (once when it was at most once), the other lost one occurrence, and no other sheet changed |
| Utils.StyledSheets | src/main/java/com/dutils/servicebusviewer/utils/Utils.java:110-118 | the same, for the sheet the style chooses: dark when "DARK" occurs in the upper-cased style, light otherwise |
| Utils.StyledIdempotent | src/main/java/com/dutils/servicebusviewer/utils/Utils.java:110-118 | applying the same style twice is applying it once, when the other sheet was present at most once |
| Utils.StyledParent.constructor | src/main/java/com/dutils/servicebusviewer/utils/Utils.java:110 | a node with its stylesheet list |
| Utils.StyledParent.ApplyStyle | src/main/java/com/dutils/servicebusviewer/utils/Utils.java:110-118 | the in-place edits of the stylesheet list give the list the toggle function describes |
| Utils.ParseOffsetDateTime | src/main/java/com/dutils/servicebusviewer/utils/Utils.java:125-132 | null for null or blank text; otherwise exactly what the ISO offset date-time parser yields, null when it throws |
| StyleSpans.Append | src/main/java/com/dutils/servicebusviewer/codearea/JsonEditor.java:32-49 | an added span grows the covered length by exactly its length, and the list is never empty afterwards |
| StyleSpans.AppendNormal | src/main/java/com/dutils/servicebusviewer/codearea/JsonEditor.java:30-50 | adding a span keeps the builder's shape: no empty span after the first, no two neighbours with one style |
| StyleSpans.Build | src/main/java/com/dutils/servicebusviewer/codearea/JsonEditor.java:30-50 | spans built from at least one addition are not empty |
| StyleSpans.BuildTotal | src/main/java/com/dutils/servicebusviewer/codearea/JsonEditor.java:30-50 | however additions are merged, the built spans cover exactly the sum of the added lengths |
| StyleSpans.BuildNormal | src/main/java/com/dutils/servicebusviewer/codearea/JsonEditor.java:30-50 | whatever is added, the built spans have the builder's shape |
| StyleSpans.StyleSpansBuilder.constructor | src/main/java/com/dutils/servicebusviewer/codearea/JsonEditor.java:30 | a new builder holds no addition |
| StyleSpans.StyleSpansBuilder.Add | src/main/java/com/dutils/servicebusviewer/codearea/JsonEditor.java:32-49 | an addition with a non-negative length is recorded at the end |
| StyleSpans.StyleSpansBuilder.Create | src/main/java/com/dutils/servicebusviewer/codearea/JsonEditor.java:50 | the built spans when something was added, and a failure exactly when nothing was |
| JsonEditor.IsValidSpec | src/main/java/com/dutils/servicebusviewer/codearea/JsonEditor.java:23-26 | text is taken for JSON exactly when its first non-blank character is '{' or '[' |
| JsonEditor.IsFieldName | src/main/java/com/dutils/servicebusviewer/codearea/JsonEditor.java:62-72 | true exactly when the first non-whitespace character after the string token is ':'; false when only whitespace follows |
| JsonEditor.StyleClass | src/main/java/com/dutils/servicebusviewer/codearea/JsonEditor.java:33-42 | a string token is styled as a property exactly when a ':' follows it; a colon and a comma share the separator class |
| JsonEditor.TokenAddsTotal | src/main/java/com/dutils/servicebusviewer/codearea/JsonEditor.java:31-47 | the gaps and token spans of ordered tokens reach exactly to the end of the last token |
| JsonEditor.JsonSpansCover | src/main/java/com/dutils/servicebusviewer/codearea/JsonEditor.java:27-51 | the spans of highlight cover the text exactly |
| JsonEditor.AddTokenSpan | src/main/java/com/dutils/servicebusviewer/codearea/JsonEditor.java:32-46 | one loop step adds the gap before the token and the token's span |
| JsonEditor.AddTokenSpans | src/main/java/com/dutils/servicebusviewer/codearea/JsonEditor.java:29-47 | the loop adds each token's gap and span in order and leaves lastKwEnd at the end of the last token |
| JsonEditor.Highlight | src/main/java/com/dutils/servicebusviewer/codearea/JsonEditor.java:27-51 | highlight never fails and its spans cover the whole text |
| XmlEditor.IsValidSpec | src/main/java/com/dutils/servicebusviewer/codearea/XMLEditor.java:25-37 | text is taken for XML exactly when its first non-blank character is '<' |
| XmlEditor.AttributeAddsTotal | src/main/java/com/dutils/servicebusviewer/codearea/XMLEditor.java:61-67 | the attribute loop's spans reach exactly to the end of the last attribute, counted from the section's start |
| XmlEditor.SectionAddsTotal | src/main/java/com/dutils/servicebusviewer/codearea/XMLEditor.java:56-70 | an attribute section's spans cover it exactly |
| XmlEditor.MatchAddsTotal | src/main/java/com/dutils/servicebusviewer/codearea/XMLEditor.java:47-75 | the spans of a comment or an element cover the match exactly |
| XmlEditor.GapAndMatchAddsTotal | src/main/java/com/dutils/servicebusviewer/codearea/XMLEditor.java:46-77 | a match's gap and spans reach from the previous end to the end of the match |
| XmlEditor.MatchListAddsTotal | src/main/java/com/dutils/servicebusviewer/codearea/XMLEditor.java:44-78 | the match loop's spans reach exactly to the end of the last match |
| XmlEditor.XmlSpansCover | src/main/java/com/dutils/servicebusviewer/codearea/XMLEditor.java:39-81 | the spans of highlight cover the text exactly |
| XmlEditor.AddAttributeSpan | src/main/java/com/dutils/servicebusviewer/codearea/XMLEditor.java:62-66 | one attribute adds its gap, name, '=' and value spans |
| XmlEditor.AddAttributeSpans | src/main/java/com/dutils/servicebusviewer/codearea/XMLEditor.java:58-67 | the attribute loop adds each attribute's spans in order, with lastKwEnd counted from the section's start |
| XmlEditor.AddSectionSpans | src/main/java/com/dutils/servicebusviewer/codearea/XMLEditor.java:56-70 | an empty section adds nothing; otherwise the attributes and a plain span for what follows the last one |
| XmlEditor.AddElementSpans | src/main/java/com/dutils/servicebusviewer/codearea/XMLEditor.java:50-75 | an element adds its opening mark, name, attribute section and closing mark |
| XmlEditor.AddMatchSpans | src/main/java/com/dutils/servicebusviewer/codearea/XMLEditor.java:47-75 | a comment adds one comment span; an element as above |
| XmlEditor.AddGapAndMatchSpans | src/main/java/com/dutils/servicebusviewer/codearea/XMLEditor.java:46-77 | one step of the match loop adds the plain gap and the match's spans |
| XmlEditor.AddMatchListSpans | src/main/java/com/dutils/servicebusviewer/codearea/XMLEditor.java:42-78 | the match loop adds every match's gap and spans in order |
| XmlEditor.Highlight | src/main/java/com/dutils/servicebusviewer/codearea/XMLEditor.java:39-81 | highlight never fails and its spans cover the whole text |
| XmlEditor.Format | src/main/java/com/dutils/servicebusviewer/codearea/XMLEditor.java:83-116 | null or blank input and a failing transform give the input back; otherwise the trimmed transform output |
| JsonEditorJackson.StyleClassName | src/main/java/com/dutils/servicebusviewer/codearea/JsonEditorJackson.java:30-49 | the class is "" exactly for null and for tokens without a case |
| JsonEditorJackson.StyleClassNameInjective | src/main/java/com/dutils/servicebusviewer/codearea/JsonEditorJackson.java:34-48 | two tokens with the same non-empty class are the same token |
| JsonEditorJackson.CompareTo | src/main/java/com/dutils/servicebusviewer/codearea/JsonEditorJackson.java:20-22 | matches compare by start offset alone |
| JsonEditorJackson.CompareToOrder | src/main/java/com/dutils/servicebusviewer/codearea/JsonEditorJackson.java:20-22 | the comparison is antisymmetric and transitive |
| JsonEditorJackson.CompareToIgnoresKindAndEnd | src/main/java/com/dutils/servicebusviewer/codearea/JsonEditorJackson.java:20-22 | two different matches with one start compare equal, so the order is not consistent with equals |
| JsonEditorJackson.MatchOf | src/main/java/com/dutils/servicebusviewer/codearea/JsonEditorJackson.java:59-68 | a token with a style gives a match at its offset, its text length long, plus two for a string or a property name; tokens without one are skipped |
| JsonEditorJackson.MatchesOf | src/main/java/com/dutils/servicebusviewer/codearea/JsonEditorJackson.java:55-69 | the matches run forward and are no more than the tokens |
| JsonEditorJackson.MatchesOfSpec | src/main/java/com/dutils/servicebusviewer/codearea/JsonEditorJackson.java:55-69 | every match has a style, and there is one per styled token |
| JsonEditorJackson.CollectMatches | src/main/java/com/dutils/servicebusviewer/codearea/JsonEditorJackson.java:55-69 | the token loop collects exactly the matches of the styled tokens, in order |
| JsonEditorJackson.MatchSpansTotal | src/main/java/com/dutils/servicebusviewer/codearea/JsonEditorJackson.java:73-79 | one match's gap and span reach from the previous end to its end |
| JsonEditorJackson.MatchAddsTotal | src/main/java/com/dutils/servicebusviewer/codearea/JsonEditorJackson.java:71-80 | the match loop's spans reach exactly to the end of the last match |
| JsonEditorJackson.JacksonSpansCover | src/main/java/com/dutils/servicebusviewer/codearea/JsonEditorJackson.java:70-84 | the spans cover the text, or up to the last match when that lies beyond the text |
| JsonEditorJackson.JacksonAddsEmpty | src/main/java/com/dutils/servicebusviewer/codearea/JsonEditorJackson.java:70-84 | nothing is added exactly when there is no match and the text is empty |
| JsonEditorJackson.AddMatchSpan | src/main/java/com/dutils/servicebusviewer/codearea/JsonEditorJackson.java:73-79 | one match adds a plain gap when it starts after the previous end, then its span |
| JsonEditorJackson.AddMatchListSpans | src/main/java/com/dutils/servicebusviewer/codearea/JsonEditorJackson.java:71-80 | the match loop adds every match's spans in order and leaves `last` at the last end |
| JsonEditorJackson.Highlight | src/main/java/com/dutils/servicebusviewer/codearea/JsonEditorJackson.java:51-88 | a parse failure fails; otherwise create() fails exactly when there is no match and the text is empty, and else returns the built spans |
| JsonEditorJackson.IntendedMatchOf | src/main/java/com/dutils/servicebusviewer/codearea/JsonEditorJackson.java:62-67 | a styled token's match covers its whole source text |
| JsonEditorJackson.MatchOfWithinToken | src/main/java/com/dutils/servicebusviewer/codearea/JsonEditorJackson.java:62-67 | the match as written never passes the token's source text, and equals the intended match exactly when the token has no escape |
| JsonEditorJackson.EscapedStringFallsShort | src/main/java/com/dutils/servicebusviewer/codearea/JsonEditorJackson.java:62-67 | for the string "a\nb" with a backslash escape, the match as written stops before the closing quote |
| DataTreeItems.CountValue | src/main/java/com/dutils/servicebusviewer/model/DataTreeItem.java:56-58 | activeMessageCount, else subscriptionCount, else queueSize, else "0" |
| DataTreeItems.Count | src/main/java/com/dutils/servicebusviewer/model/DataTreeItem.java:54-64 | 0 without data; a null value throws; otherwise the chosen value (active count, else subscription count, else queue size, else "0") parsed as a long, and 0 when it is not a long |
| DataTreeItems.CountOfLong | src/main/java/com/dutils/servicebusviewer/model/DataTreeItem.java:54-64 | a long count is returned unchanged, whichever of the three keys getCount chose |
| DataTreeItems.NonBlank | src/main/java/com/dutils/servicebusviewer/model/DataTreeItem.java:77 | the kept texts are exactly the non-blank ones; a single text is kept exactly when it is not blank |
| DataTreeItems.NonBlankAppend | src/main/java/com/dutils/servicebusviewer/model/DataTreeItem.java:75-78 | the filter keeps the texts in order, element by element: it distributes over concatenation |
| DataTreeItems.MetricTexts | src/main/java/com/dutils/servicebusviewer/model/DataTreeItem.java:69-76 | the four metric values in fixed order, "" for a missing one |
| DataTreeItems.FormatSizeOfLong | src/main/java/com/dutils/servicebusviewer/model/DataTreeItem.java:84-93 | a long size prints as its quotient by 1024, truncated toward zero, followed by "Kb" |
| DataTreeItems.Label | src/main/java/com/dutils/servicebusviewer/model/DataTreeItem.java:66-82 | the name alone without data; otherwise the name followed by " (" |
| DataTreeItems.LabelSkipsBlank | src/main/java/com/dutils/servicebusviewer/model/DataTreeItem.java:66-82 | data with no metric and no size labels as "name () " |
| DataTreeItems.LabelOfCounts | src/main/java/com/dutils/servicebusviewer/model/DataTreeItem.java:66-82 | with the four counters and the size held as longs the label is `name (active,subscriptions,queue size,dead letters) <size / 1024>Kb`, counters in that order |
| DataTreeItems.LabelBlankMetric | src/main/java/com/dutils/servicebusviewer/model/DataTreeItem.java:69-78 | a counter holding a blank text shows exactly as an absent counter |
| DataTreeItems.NoMetricsJoinEmpty | src/main/java/com/dutils/servicebusviewer/model/DataTreeItem.java:69-78 | with no metric key the metrics join to "" |
| DataTreeItems.DataTreeItem.constructor | src/main/java/com/dutils/servicebusviewer/model/DataTreeItem.java:22-30 | the item keeps its name, data and type |
| DataTreeItems.DataTreeItem.SetData | src/main/java/com/dutils/servicebusviewer/model/DataTreeItem.java:45-48 | after clear and putAll the item's data equals the new entries |
| EntityTree.BeforeDot | src/main/java/com/dutils/servicebusviewer/mgr/MainUITreeAndTableViewManager.java:131 | the prefix of a name is the part before its first '.', which holds no '.' |
| EntityTree.SplitHead | src/main/java/com/dutils/servicebusviewer/mgr/MainUITreeAndTableViewManager.java:131 | `split("\\.")[0]` throws exactly for a non-empty name made only of dots, and otherwise is the part before the first '.' |
| EntityTree.Members | src/main/java/com/dutils/servicebusviewer/mgr/MainUITreeAndTableViewManager.java:131 | the queues listed under a prefix are exactly the listed queues with that prefix |
| EntityTree.MembersAppend | src/main/java/com/dutils/servicebusviewer/mgr/MainUITreeAndTableViewManager.java:131 | the queues of a prefix keep the listing's order: the selection distributes over concatenation |
| EntityTree.GroupedSpec | src/main/java/com/dutils/servicebusviewer/mgr/MainUITreeAndTableViewManager.java:131 | grouping succeeds exactly when every name has a prefix; then the keys are exactly the prefixes that occur and each key lists exactly its names, in listing order |
| EntityTree.MemberOfOwnPrefix | src/main/java/com/dutils/servicebusviewer/mgr/MainUITreeAndTableViewManager.java:131 | a queue is listed under its own prefix |
| EntityTree.MembersHavePrefix | src/main/java/com/dutils/servicebusviewer/mgr/MainUITreeAndTableViewManager.java:131 | every queue listed under a key has that key as its prefix |
| EntityTree.Placement | src/main/java/com/dutils/servicebusviewer/mgr/MainUITreeAndTableViewManager.java:136-141 | a group of one queue named like its key hangs directly under "Queues"; any other group gets a node of its own |
| EntityTree.PlaceGroups | src/main/java/com/dutils/servicebusviewer/mgr/MainUITreeAndTableViewManager.java:134-143 | one child per key of the grouping, each placed as above, and nothing else |
| EntityTree.LoadQueues | src/main/java/com/dutils/servicebusviewer/mgr/MainUITreeAndTableViewManager.java:125-148 | fails exactly when the grouping fails; the "Queues" node counts the listed queues as a long and has one child per prefix |
| EntityTree.EveryQueuePlacedOnce | src/main/java/com/dutils/servicebusviewer/mgr/MainUITreeAndTableViewManager.java:131-143 | every listed queue sits under the child of its own prefix, and under no other child |
| EntityTree.QueueSizeCount | src/main/java/com/dutils/servicebusviewer/mgr/MainUITreeAndTableViewManager.java:128-129 | the "Queues" node's count reads back as the number of listed queues |
| EntityTree.Rows | src/main/java/com/dutils/servicebusviewer/mgr/MainUITreeAndTableViewManager.java:110 | one row per property: the prefixed key and the value as text |
| EntityTree.RowsKeysRoundTrip | src/main/java/com/dutils/servicebusviewer/mgr/MainUITreeAndTableViewManager.java:110 | every row key starts with the prefix, and dropping it gives back the property names in order |
| EntityTree.MapOf | src/main/java/com/dutils/servicebusviewer/mgr/MainUITreeAndTableViewManager.java:108-111 | the returned map has a key for every property and no other key |
| EntityTree.MapOfLastWins | src/main/java/com/dutils/servicebusviewer/mgr/MainUITreeAndTableViewManager.java:108-111 | each key maps to the value of its last entry: a later put overwrites an earlier one |
| EntityTree.PropertyTable.constructor | src/main/java/com/dutils/servicebusviewer/mgr/MainUITreeAndTableViewManager.java:76 | the table starts empty |
| EntityTree.PropertyTable.ObjectToTableData | src/main/java/com/dutils/servicebusviewer/mgr/MainUITreeAndTableViewManager.java:107-112 | the table gains one row per property, in order, and the converted map is returned |
| EntityTree.LoadEntityProperties | src/main/java/com/dutils/servicebusviewer/mgr/MainUITreeAndTableViewManager.java:73-104 | a queue or topic lists its "Runtime."-prefixed runtime rows and then its static rows; a subscription only its runtime rows, and fails without a parent; other nodes list nothing; a replacement node with the runtime map is made exactly for entities |
| MessageTableView.AtOrAfter | src/main/java/com/dutils/servicebusviewer/utils/MessageUtils.java:266 | the messages a peek can start from are no more than those stored |
| MessageTableView.Peek | src/main/java/com/dutils/servicebusviewer/utils/MessageUtils.java:262-271 | a peek returns at most `count` messages, a prefix of those at or after the start, and all of them when fewer are there |
| MessageTableView.AtOrAfterMembers | src/main/java/com/dutils/servicebusviewer/utils/MessageUtils.java:266 | a message can be peeked from a start exactly when it is stored and its sequence number is at least the start |
| MessageTableView.SplitPoint | src/main/java/com/dutils/servicebusviewer/utils/MessageUtils.java:266 | in an entity ordered by sequence number, the messages below any bound come first |
| MessageTableView.AtOrAfterSuffix | src/main/java/com/dutils/servicebusviewer/utils/MessageUtils.java:266 | in such an entity, the messages from a bound on are a suffix |
| MessageTableView.RestAfterPrefix | src/main/java/com/dutils/servicebusviewer/mgr/MainUIMessageTableViewManager.java:134-137 | peeking from one past the n-th message's sequence number gives the messages after the first n |
| MessageTableView.PagesJoin | src/main/java/com/dutils/servicebusviewer/mgr/MainUIMessageTableViewManager.java:134-137 | a peek that starts one past the last message of the previous page continues it: two pages of n1 and n2 are one page of n1 + n2 |
| MessageTableView.SecondPage | src/main/java/com/dutils/servicebusviewer/mgr/MainUIMessageTableViewManager.java:134-137 | the page after a non-empty page starts right after it |
| MessageTableView.PeekTarget | src/main/java/com/dutils/servicebusviewer/mgr/MainUIMessageTableViewManager.java:122-125 | a subscription peeks its parent topic with its own name as sub-entity; any other node its own name with a null sub-entity; a subscription without a parent fails |
| MessageTableView.PeekTargetAgreesWithParseNode | src/main/java/com/dutils/servicebusviewer/mgr/MainUIMessageTableViewManager.java:122-125 | the peek names the same entity as parseNode, but a node that is not a subscription gets a null sub-entity where parseNode has "" |
| MessageTableView.MessageTableViewManager.constructor | src/main/java/com/dutils/servicebusviewer/mgr/MainUIMessageTableViewManager.java:32-35 | both tables empty, the cursor before the first message, peeking inactive |
| MessageTableView.MessageTableViewManager.Initialize | src/main/java/com/dutils/servicebusviewer/mgr/MainUIMessageTableViewManager.java:37-49 | the cursor back to -1, peeking stopped, both tables given new empty item lists |
| MessageTableView.MessageTableViewManager.RunActive | src/main/java/com/dutils/servicebusviewer/mgr/MainUIMessageTableViewManager.java:145-150 | a row is added to the chosen table only while peeking is active, and nothing else changes |
| MessageTableView.MessageTableViewManager.ShowPage | src/main/java/com/dutils/servicebusviewer/mgr/MainUIMessageTableViewManager.java:135-138 | each peeked message is added to the chosen table in order, and the cursor ends at the last one's sequence number |
| MessageTableView.MessageTableViewManager.PeekMessages | src/main/java/com/dutils/servicebusviewer/mgr/MainUIMessageTableViewManager.java:119-143 | peeking starts after the cursor, adds the page to the table isDlq chooses and moves the cursor past it; a subscription without a parent changes nothing |
| MessageTableView.TwoPeeksAfterInitialize | src/main/java/com/dutils/servicebusviewer/mgr/MainUIMessageTableViewManager.java:119-143 | after initialize, two peeks of n1 and n2 fill the table with the first n1 + n2 messages, without gap or repeat |
| MessageTableView.StaleRowDropped | src/main/java/com/dutils/servicebusviewer/mgr/MainUIMessageTableViewManager.java:145-150 | a row addition that runs after initialize is dropped |
| MessageTableView.BodySize | src/main/java/com/dutils/servicebusviewer/mgr/MainUIMessageTableViewManager.java:69-91 | a DATA body's size is the total length of its chunks; an AMQP value or sequence counts the UTF-8 bytes of its text, 0 when null, which is the text extractBody shows |
| MainUI.MenuVisibility | src/main/java/com/dutils/servicebusviewer/MainUIController.java:152-164 | message actions only for queues and subscriptions, status also for topics, the sorts only for group nodes and topics; a message action and a sort never show together |
| MainUI.Controller.constructor | src/main/java/com/dutils/servicebusviewer/MainUIController.java:323 | nothing running and every menu entry visible |
| MainUI.Controller.ShowProgress | src/main/java/com/dutils/servicebusviewer/MainUIController.java:325-331 | one more task: the pane is disabled and the box shown with the message; the busy invariant is kept |
| MainUI.Controller.HideProgress | src/main/java/com/dutils/servicebusviewer/MainUIController.java:333-341 | one task fewer; when none is left the counter is reset to 0, the pane enabled and the box hidden; the busy invariant is kept |
| MainUI.Controller.ResetTreeContextMenu | src/main/java/com/dutils/servicebusviewer/MainUIController.java:152-164 | every entry's visibility becomes whether its list holds the node's kind; the progress state is unchanged |
| MainUI.MenuIndex | src/main/java/com/dutils/servicebusviewer/MainUIController.java:153-161 | every entry has a place in the visibility table |
| MainUI.NameLeqTotal | src/main/java/com/dutils/servicebusviewer/MainUIController.java:224 | CASE_INSENSITIVE_ORDER is total |
| MainUI.NameLeqTrans | src/main/java/com/dutils/servicebusviewer/MainUIController.java:224 | CASE_INSENSITIVE_ORDER is transitive |
| MainUI.LeqTotal | src/main/java/com/dutils/servicebusviewer/MainUIController.java:223-233 | both sort orders are total |
| MainUI.LeqTrans | src/main/java/com/dutils/servicebusviewer/MainUIController.java:223-233 | both sort orders are transitive |
| MainUI.Insert | src/main/java/com/dutils/servicebusviewer/MainUIController.java:223-233 | inserting into a sorted list keeps it sorted and adds exactly that element |
| MainUI.TreeNode.constructor | src/main/java/com/dutils/servicebusviewer/MainUIController.java:221 | a node with its children |
| MainUI.TreeNode.SortChildren | src/main/java/com/dutils/servicebusviewer/MainUIController.java:223-234 | the children end sorted by the key and are a permutation of the old children |
| MainUI.HandleSort | src/main/java/com/dutils/servicebusviewer/MainUIController.java:220-236 | with a selected node, its children end sorted and permuted; without one nothing happens |
| MainUI.GetSelectedNode | src/main/java/com/dutils/servicebusviewer/MainUIController.java:255-259 | null exactly when nothing is selected or the selected item's value is null; otherwise that item |
| MainUI.GetEntityName | src/main/java/com/dutils/servicebusviewer/MainUIController.java:249-253 | null without a selected value or for a group node; otherwise the selected node's name |
| MainUI.EntityNameOfSelectedNode | src/main/java/com/dutils/servicebusviewer/MainUIController.java:249-259 | an entity name implies a selected node, and for a non-group node the name is that node's name |
| MessageDialog.ClampIndex | src/main/java/com/dutils/servicebusviewer/MessageDialogController.java:182-184 | the next index is current + step when that is a row, else clamped to the first or the last row |
| MessageDialog.TableSelect | src/main/java/com/dutils/servicebusviewer/MessageDialogController.java:156-204 | an empty table does nothing; stepping back from the first row stays there; stepping on from the last row with no new messages reports the end; otherwise the clamped next row, which may be a newly peeked one |
| MessageDialog.Controller.constructor | src/main/java/com/dutils/servicebusviewer/MessageDialogController.java:542 | no process running, the form enabled, nothing selected |
| MessageDialog.Controller.StartProcess | src/main/java/com/dutils/servicebusviewer/MessageDialogController.java:544-548 | one more process: the status shows the message and the form is disabled; the busy invariant is kept |
| MessageDialog.Controller.EndProcess | src/main/java/com/dutils/servicebusviewer/MessageDialogController.java:550-557 | one process fewer; when none is left the counter is reset to 0, the status shows the message and the form is enabled; the busy invariant is kept |
| MessageDialog.Controller.TableSelectRow | src/main/java/com/dutils/servicebusviewer/MessageDialogController.java:156-204 | the outcome is the selection function's; the selected row moves only on a selection, and the status names the row shown when no other process runs |
| MessageDialog.MergePropsFails | src/main/java/com/dutils/servicebusviewer/MessageDialogController.java:471-476 | the collector throws exactly when a row with a non-blank key has a null value |
| MessageDialog.MergePropsKeys | src/main/java/com/dutils/servicebusviewer/MessageDialogController.java:471-476 | the merged map's keys are exactly the trimmed non-blank keys of the rows |
| MessageDialog.MergePropsValues | src/main/java/com/dutils/servicebusviewer/MessageDialogController.java:471-476 | each key holds the value of the last row with that trimmed key |
| MessageDialog.IndexedAppend | src/main/java/com/dutils/servicebusviewer/MessageDialogController.java:537-539 | indexing two runs of items is indexing the first and then the second |
| MessageDialog.IndexedSpec | src/main/java/com/dutils/servicebusviewer/MessageDialogController.java:526-540 | the index holds exactly the non-blank field names, each mapped to the last item that carries it |
| MessageDialog.CollectItemsToMap | src/main/java/com/dutils/servicebusviewer/MessageDialogController.java:526-540 | the pre-order walk puts every item with a non-blank field name into the map, a later item replacing an earlier one |
| MessageDialog.FieldTextSpec | src/main/java/com/dutils/servicebusviewer/MessageDialogController.java:499-511 | a field no item names reads as ""; a named field reads as its last item's value |
| MessageDialog.ReadForm | src/main/java/com/dutils/servicebusviewer/MessageDialogController.java:498-511 | the header fields are read from the index of the whole tree |
| MessageDialog.SetHeader | src/main/java/com/dutils/servicebusviewer/MessageDialogController.java:500-512 | the setter calls replace the header and change nothing else |
| MessageDialog.CreateServiceBusMessageData | src/main/java/com/dutils/servicebusviewer/MessageDialogController.java:490-518 | a fresh record with the editor text as body; with a tree root, the nine header texts and the parsed scheduled time come from the tree; time-to-live stays null |
| MessageDialog.PrepareResend | src/main/java/com/dutils/servicebusviewer/MessageDialogController.java:470-478 | fails exactly when the merge throws; otherwise the form's record with exactly the merged properties |
| MessageUtils.Receive | src/main/java/com/dutils/servicebusviewer/utils/MessageUtils.java:43 | a receive takes the first messages of the sub-queue, at most BATCH_SIZE = 2, and all of them when fewer are left |
| MessageUtils.ReceiveAndDelete | src/main/java/com/dutils/servicebusviewer/utils/MessageUtils.java:192-212 | in receive-and-delete mode the received batch leaves the front of the sub-queue and nothing else changes |
| MessageUtils.Remove | src/main/java/com/dutils/servicebusviewer/utils/MessageUtils.java:123 | `List.remove` takes out exactly one copy of a present element and leaves the list alone otherwise |
| MessageUtils.RemoveIsRemoveFirst | src/main/java/com/dutils/servicebusviewer/utils/MessageUtils.java:123 | removing a moved target is `List.remove(Object)`: the first equal element goes and the others keep their order |
| MessageUtils.ReceiveMatchAndComplete | src/main/java/com/dutils/servicebusviewer/utils/MessageUtils.java:40-48 | one receive; the action's results for the batch are added up in order and the first exception escapes |
| MessageUtils.AddCountBatch | src/main/java/com/dutils/servicebusviewer/utils/MessageUtils.java:297-299 | with addCount a batch counts its own size |
| MessageUtils.PurgeAllMessages | src/main/java/com/dutils/servicebusviewer/utils/MessageUtils.java:187-204 | the entity ends empty, every message is counted, after n / 2 + 1 receives |
| MessageUtils.PurgeAllDlqMessages | src/main/java/com/dutils/servicebusviewer/utils/MessageUtils.java:206-222 | the dead-letter sub-queue ends empty, every message is counted, after n / 2 + 1 receives |
| MessageUtils.DeadLetterCopy | src/main/java/com/dutils/servicebusviewer/utils/MessageUtils.java:50-52 | a dead-lettered copy carries the reason "Manual move" and the set description, and keeps the message's header, sequence number and body |
| MessageUtils.DeadLetterBatch | src/main/java/com/dutils/servicebusviewer/utils/MessageUtils.java:174-177 | dead-lettering a batch takes it off the front of the entity and appends its copies and settlements in order |
| MessageUtils.DeadLetterRound | src/main/java/com/dutils/servicebusviewer/utils/MessageUtils.java:173-178 | each round of moveAllMessagesToDlq dead-letters the next batch and counts it; when a `deadLetter` call in the batch throws, the messages before it are moved and the round throws with the failing one and the rest still in the entity |
| MessageUtils.ReceiveDeadLetterRound | src/main/java/com/dutils/servicebusviewer/utils/MessageUtils.java:174-177 | one round dead-letters exactly the next received batch, up to the first message whose `deadLetter` throws, which escapes |
| MessageUtils.MoveAllMessagesToDlq | src/main/java/com/dutils/servicebusviewer/utils/MessageUtils.java:166-185 | it fails exactly when some message's `deadLetter` throws; the messages before the first such one are moved to the dead-letter sub-queue once each, in order, each settled as dead-lettered, and the entity keeps that one and the rest; the count covers the completed batches only; without a failure the entity ends empty and all are counted, after n / 2 + 1 receives |
| MessageUtils.DeadLetterSlice | src/main/java/com/dutils/servicebusviewer/utils/MessageUtils.java:174-177 | the next n messages are dead-lettered in order up to the first whose `deadLetter` throws, which ends the batch with the broker as it was before that message |
| MessageUtils.FirstFailNone | src/main/java/com/dutils/servicebusviewer/utils/MessageUtils.java:173-183 | the transfer reaches the end of the entity exactly when no message's `deadLetter` throws |
| MessageUtils.CompleteMessage | src/main/java/com/dutils/servicebusviewer/utils/MessageUtils.java:225-235 | 1 and the message leaves the sub-queue when complete succeeds; otherwise it is abandoned, stays and counts 0, settled exactly once; when the abandon throws as well the exception escapes, with the message still queued and not settled |
| MessageUtils.RestoreBatchCounts | src/main/java/com/dutils/servicebusviewer/utils/MessageUtils.java:40-48 | a restore batch shrinks the sub-queue by its count, which is at most its size, and counts its full size only when every complete succeeded |
| MessageUtils.RestoreBatchSettles | src/main/java/com/dutils/servicebusviewer/utils/MessageUtils.java:153-156 | in a restore batch each message whose clone was sent is settled exactly once, and no other; only a batch that throws can leave its last sent message unsettled, when that message's complete and abandon both threw |
| MessageUtils.RestoreBatchConserves | src/main/java/com/dutils/servicebusviewer/utils/MessageUtils.java:153-156 | a restore batch loses no message: what stays queued plus what was completed is unchanged |
| MessageUtils.RestoreRound | src/main/java/com/dutils/servicebusviewer/utils/MessageUtils.java:153-157 | one round shrinks the sub-queue by its count, which is at most BATCH_SIZE |
| MessageUtils.ReceiveRestoreRound | src/main/java/com/dutils/servicebusviewer/utils/MessageUtils.java:153-156 | one round of moveAllMessagesToQueue is exactly the round function |
| MessageUtils.RestoreRoundsSettle | src/main/java/com/dutils/servicebusviewer/utils/MessageUtils.java:152-159 | across all rounds every sent message is settled exactly once; a transfer that ends in the catch block may leave its last sent message unsettled, only when its complete and abandon both threw |
| MessageUtils.RestoreRoundsConserve | src/main/java/com/dutils/servicebusviewer/utils/MessageUtils.java:152-159 | across all rounds no message is lost |
| MessageUtils.MoveAllMessagesToQueueSafe | src/main/java/com/dutils/servicebusviewer/utils/MessageUtils.java:144-164 | whatever fails, every dead-lettered message is still queued or was completed; each sent message is settled exactly once when the transfer ends normally; one ended by an exception leaves at most its last sent message unsettled, and only when that message's complete and abandon both threw |
| MessageUtils.RestoreStopsOnCompleteFailure | src/main/java/com/dutils/servicebusviewer/utils/MessageUtils.java:152-159 | a message of the batch that cannot be completed ends the loop after that batch, without error |
| MessageUtils.MoveAllMessagesToQueueClean | src/main/java/com/dutils/servicebusviewer/utils/MessageUtils.java:144-164 | with nothing failing every dead-lettered message is sent back in order and completed, the sub-queue ends empty and all are counted, after n / 2 + 1 receives |
| MessageUtils.MoveAllMessagesToQueue | src/main/java/com/dutils/servicebusviewer/utils/MessageUtils.java:144-164 | the loop computes the transfer the round function describes, ending in the catch block on a failed send |
| MessageUtils.FindMatch | src/main/java/com/dutils/servicebusviewer/utils/MessageUtils.java:117-120 | the first target with a non-null id equal to the message's and the same sequence number, or null when none matches; a null target id reached first throws |
| MessageUtils.ReceiveSelectRound | src/main/java/com/dutils/servicebusviewer/utils/MessageUtils.java:115-131 | one round of moveMessagesToQueue is exactly the round function |
| MessageUtils.SelectRoundOrBreak | src/main/java/com/dutils/servicebusviewer/utils/MessageUtils.java:113-135 | one round, and then the loop either stops with the transfer's result or goes on from the new selection |
| MessageUtils.MoveMessagesToQueue | src/main/java/com/dutils/servicebusviewer/utils/MessageUtils.java:105-142 | the loop computes the selection the round function describes, where a failing lookup, send or abandon (of an unmatched message, or inside completeMessage) ends it in the catch block, and returns the moved targets |
| MessageUtils.SelectStepConserves | src/main/java/com/dutils/servicebusviewer/utils/MessageUtils.java:117-130 | a step only moves a target from the wanted list to the result |
| MessageUtils.MoveMessagesToQueueSubset | src/main/java/com/dutils/servicebusviewer/utils/MessageUtils.java:105-142 | the moved messages are some of the targets, each at most as often as selected |
| MessageUtils.SelectRoundAbandonsBoth | src/main/java/com/dutils/servicebusviewer/utils/MessageUtils.java:126-129 | two unwanted messages at the head of the sub-queue whose abandon succeeds are abandoned and counted, and the sub-queue stays as it was |
| MessageUtils.SelectNeverEnds | src/main/java/com/dutils/servicebusviewer/utils/MessageUtils.java:113-135 | once the first two messages match no target and abandoning them succeeds, the loop receives them again and again and never ends |
| MessageUtils.SelectStepMoves | src/main/java/com/dutils/servicebusviewer/utils/MessageUtils.java:121-125 | a matched message whose send and complete succeed has its target sent and moved, and leaves the sub-queue |
| MessageUtils.SelectAbandonFailureEnds | src/main/java/com/dutils/servicebusviewer/utils/MessageUtils.java:126-127 | an unwanted message at the head whose abandon throws ends the transfer in its catch block at once, with nothing moved or settled |
| MessageUtils.SelectCompleteAndAbandonFail | src/main/java/com/dutils/servicebusviewer/utils/MessageUtils.java:121-125 | a matched message whose complete and abandon both throw ends the round after its clone was sent and its target moved to the result, with the message still queued and not settled |
| MessageUtils.SelectStopsAfterOneBatch | src/main/java/com/dutils/servicebusviewer/utils/MessageUtils.java:129-134 | asked to move all three messages of a three-message sub-queue, the loop moves two and stops |
| MessageUtils.MoveMessagesToQueueFixed | src/main/java/com/dutils/servicebusviewer/utils/MessageUtils.java:105-142 | the loop of moveMessagesToQueue with its counter bumped for every received message computes the corrected round function |
| MessageUtils.FixedRoundsDrain | src/main/java/com/dutils/servicebusviewer/utils/MessageUtils.java:113-135 | with the counter corrected, asked to move every message of the sub-queue, the loop moves them all in order, empties the sub-queue and ends |
| MessageUtils.FixedMovesAllThree | src/main/java/com/dutils/servicebusviewer/utils/MessageUtils.java:113-135 | with the counter corrected, the three-message sub-queue is moved whole |
| MessageUtils.FixedStillLoops | src/main/java/com/dutils/servicebusviewer/utils/MessageUtils.java:113-135 | with the counter corrected, two unselected messages at the head whose abandon succeeds are still received again round after round, and the loop never ends |
| MessageUtils.MoveMessagesAsyncToQueue | src/main/java/com/dutils/servicebusviewer/utils/MessageUtils.java:55-103 | the handler is applied to the stream in order until the stream ends, no target is left, or an exception leaves the handler; the moved targets are returned |
| MessageUtils.StreamConserves | src/main/java/com/dutils/servicebusviewer/utils/MessageUtils.java:68-91 | the stream only moves targets from the wanted list to the result |
| MessageUtils.StreamPaired | src/main/java/com/dutils/servicebusviewer/utils/MessageUtils.java:78-80 | each moved target is paired, in order, with the message whose clone was sent |
| MessageUtils.StreamMovesAll | src/main/java/com/dutils/servicebusviewer/utils/MessageUtils.java:68-91 | with no failing send or abandon and every target present in the stream, every target is moved |
| MessageUtils.MoveMessagesAsyncMovesAll | src/main/java/com/dutils/servicebusviewer/utils/MessageUtils.java:55-103 | under those conditions the result is exactly the targets, once each |
| MessageUtils.ParseNode | src/main/java/com/dutils/servicebusviewer/utils/MessageUtils.java:253-259 | a subscription names its parent topic and itself as sub; any other node itself with sub ""; a subscription without a parent throws |
| MessageUtils.Sanitize | src/main/java/com/dutils/servicebusviewer/utils/MessageUtils.java:305 | the reserved file-name characters become '_' and every other character stays |
| MessageUtils.SafeId | src/main/java/com/dutils/servicebusviewer/utils/MessageUtils.java:305 | the id part of a file name holds no reserved character, and is as long as a present id |
| MessageUtils.SanitizeKeeps | src/main/java/com/dutils/servicebusviewer/utils/MessageUtils.java:305 | sanitising leaves a text unchanged exactly when it holds no reserved character |
| MessageUtils.SanitizeIdempotent | src/main/java/com/dutils/servicebusviewer/utils/MessageUtils.java:305 | sanitising twice is sanitising once |
| MessageUtils.FileNameSafe | src/main/java/com/dutils/servicebusviewer/utils/MessageUtils.java:305-306 | a file name holds no reserved character and ends in ".json", and holds no line break when the id has none |
| MessageUtils.ListingLines | src/main/java/com/dutils/servicebusviewer/utils/MessageUtils.java:303-312 | the listing has exactly one line per saved message |
| MessageUtils.SaveStep | src/main/java/com/dutils/servicebusviewer/utils/MessageUtils.java:310 | saving one more message appends its file name and a line break |
| MessageUtils.SaveMessages | src/main/java/com/dutils/servicebusviewer/utils/MessageUtils.java:301-313 | the listing of every message's file name, one per line, in order |
| MessageUtils.ExtractBody | src/main/java/com/dutils/servicebusviewer/utils/MessageUtils.java:315-332 | null exactly for a missing message or raw message; a DATA body gives its decoded text; an AMQP value prints as its text, "" when null; an AMQP sequence prints as its list text, "" when null |
| MessageUtils.RestoreStepConserves | src/main/java/com/dutils/servicebusviewer/utils/MessageUtils.java:225-235 | one send-and-complete step loses no message: what stays queued plus what was completed is unchanged |
| MessageUtils.RestoreBatchClean | src/main/java/com/dutils/servicebusviewer/utils/MessageUtils.java:153-156 | with nothing failing a restore batch sends every message in order, completes each and counts them all |
| MessageUtils.RestoreRoundClean | src/main/java/com/dutils/servicebusviewer/utils/MessageUtils.java:153-157 | with nothing failing a round restores the next batch of at most BATCH_SIZE messages, and a short batch is the last |
| MessageUtils.RestoreRoundsClean | src/main/java/com/dutils/servicebusviewer/utils/MessageUtils.java:152-159 | with nothing failing the remaining rounds restore the rest of the dead-letter sub-queue, counting all of it |
| MessageUtils.SelectBatchConserves | src/main/java/com/dutils/servicebusviewer/utils/MessageUtils.java:115-131 | a batch of moveMessagesToQueue only moves targets from the wanted list to the result |
| MessageUtils.SelectRoundsConserves | src/main/java/com/dutils/servicebusviewer/utils/MessageUtils.java:113-135 | the loop of moveMessagesToQueue only moves targets from the wanted list to the result |
| MessageUtils.FirstTwoMoved | src/main/java/com/dutils/servicebusviewer/utils/MessageUtils.java:115-131 | asked for all three of three distinct messages, the first round moves the first two and leaves the third wanted |
| MessageUtils.StreamStepConserves | src/main/java/com/dutils/servicebusviewer/utils/MessageUtils.java:68-91 | one handler call only moves a target from the wanted list to the result |
| MessageUtils.StreamStepPaired | src/main/java/com/dutils/servicebusviewer/utils/MessageUtils.java:78-80 | one handler call keeps each moved target paired with the message whose clone was sent |
| MessageUtils.StreamStepNarrows | src/main/java/com/dutils/servicebusviewer/utils/MessageUtils.java:72-80 | with no failing send, a handler call leaves wanted only targets that do not match the message it handled |
| MessageUtils.Caught | src/main/java/com/dutils/servicebusviewer/utils/MessageUtils.java:87-90 | the catch block of the stream handler abandons the message; an abandon that throws leaves the handler with no settlement, and ends the stream |
| ConnectionDialog.NonDotRun | src/main/java/com/dutils/servicebusviewer/ConnectionDialogController.java:29 | the run of `[^.]` from a position ends at the first '.' or at the end of the text |
| ConnectionDialog.MatchAt | src/main/java/com/dutils/servicebusviewer/ConnectionDialogController.java:29 | the pattern matches at a position with group x exactly when the result is x: "sb://", a non-empty run without '.', then ".servicebus.windows.net"; the greedy group admits at most one match there |
| ConnectionDialog.GroupEndsAtDot | src/main/java/com/dutils/servicebusviewer/ConnectionDialogController.java:29 | the group of a match runs from the end of "sb://" to the first '.' after it |
| ConnectionDialog.FindNamespace | src/main/java/com/dutils/servicebusviewer/ConnectionDialogController.java:99-100 | Matcher.find: null exactly when no match starts at or after the position; otherwise the group of the leftmost such match |
| ConnectionDialog.NamespaceSpec | src/main/java/com/dutils/servicebusviewer/ConnectionDialogController.java:99-100 | the namespace addRow takes is "" exactly when the pattern matches nowhere, and otherwise the group of the leftmost match |
| ConnectionDialog.Edited | src/main/java/com/dutils/servicebusviewer/ConnectionDialogController.java:73-81 | a commit in the namespace column replaces the namespace and keeps the connection string, and the other way round |
| ConnectionDialog.CommitIndex | src/main/java/com/dutils/servicebusviewer/ConnectionDialogController.java:72-80 | indexOf finds an entry equal to the edited row at or before it, and the row itself exactly when no equal entry precedes it |
| ConnectionDialog.EditCommitHitsFirstDuplicate | src/main/java/com/dutils/servicebusviewer/ConnectionDialogController.java:71-82 | with two equal entries, editing the second rewrites the first and leaves the edited row unchanged |
| ConnectionDialog.EditAtRowSpec | src/main/java/com/dutils/servicebusviewer/ConnectionDialogController.java:71-82 | the corrected commit sets the edited column of the edited row, and keeps the other column and every other row |
| ConnectionDialog.SavedKeys | src/main/java/com/dutils/servicebusviewer/ConnectionDialogController.java:170-174 | the saved keys are exactly the namespaces of entries whose namespace is non-null and not blank once trimmed |
| ConnectionDialog.SavedValues | src/main/java/com/dutils/servicebusviewer/ConnectionDialogController.java:170-174 | each key maps to the connection string of the last entry with that namespace, "" when that is null |
| ConnectionDialog.BlankNamespaceNotSaved | src/main/java/com/dutils/servicebusviewer/ConnectionDialogController.java:171 | a namespace that only blank entries carry is never a key |
| ConnectionDialog.ConnectionTable.constructor | src/main/java/com/dutils/servicebusviewer/ConnectionDialogController.java:64 | the table starts empty |
| ConnectionDialog.ConnectionTable.AddRow | src/main/java/com/dutils/servicebusviewer/ConnectionDialogController.java:97-103 | a non-blank text appends one entry with its namespace, "" without a match, and the text; a blank or null text changes nothing |
| ConnectionDialog.ConnectionTable.RemoveRow | src/main/java/com/dutils/servicebusviewer/ConnectionDialogController.java:105-110 | with a selection the first equal entry is removed, otherwise nothing changes |
| ConnectionDialog.ConnectionTable.CommitEdit | src/main/java/com/dutils/servicebusviewer/ConnectionDialogController.java:71-82 | the new entry is written at the index of the first entry equal to the edited row |
| ConnectionDialog.ConnectionTable.CommitEditAt | src/main/java/com/dutils/servicebusviewer/ConnectionDialogController.java:71-82 | the new entry is written at the edited row |
| ConnectionDialog.ConnectionTable.SaveToProperties | src/main/java/com/dutils/servicebusviewer/ConnectionDialogController.java:163-181 | the properties built are those of the saved entries, in table order |
| GenericTable.InsertionPoint | src/main/java/com/dutils/servicebusviewer/tableview/GenericTableHelper.java:43-77 | new rows go right after the selected row, or at the end without a selection |
| GenericTable.InsertAt | src/main/java/com/dutils/servicebusviewer/tableview/GenericTableHelper.java:45-78 | inserting puts the new rows, in order, between the rows before and after the position, keeping every old row |
| GenericTable.RemoveAllSpec | src/main/java/com/dutils/servicebusviewer/tableview/GenericTableHelper.java:59 | removeAll keeps a row exactly when it equals no selected row, with all its copies, and drops every copy of a selected row |
| GenericTable.RemoveAllIdempotent | src/main/java/com/dutils/servicebusviewer/tableview/GenericTableHelper.java:59 | removing nothing keeps the table, and removing the same selection twice is removing it once |
| GenericTable.CutUndoesPaste | src/main/java/com/dutils/servicebusviewer/tableview/GenericTableHelper.java:68-79 | pasting rows new to the table and then cutting them restores the table |
| GenericTable.TableHelper.constructor | src/main/java/com/dutils/servicebusviewer/tableview/GenericTableHelper.java:14-20 | the helper starts with the table's rows and an empty buffer |
| GenericTable.TableHelper.AddRowAfterSelection | src/main/java/com/dutils/servicebusviewer/tableview/GenericTableHelper.java:42-47 | a fresh row is inserted after the selection, or at the end, and becomes the selection; the buffer is unchanged |
| GenericTable.TableHelper.AddRowIfLastSelected | src/main/java/com/dutils/servicebusviewer/tableview/GenericTableHelper.java:49-54 | a row is appended and selected exactly when the last row is selected; otherwise nothing changes |
| GenericTable.TableHelper.DeleteSelection | src/main/java/com/dutils/servicebusviewer/tableview/GenericTableHelper.java:57-60 | the rows equal to a selected row are removed; the buffer is unchanged |
| GenericTable.TableHelper.CopySelection | src/main/java/com/dutils/servicebusviewer/tableview/GenericTableHelper.java:63-65 | the buffer becomes the selection; the table is unchanged |
| GenericTable.TableHelper.CutSelection | src/main/java/com/dutils/servicebusviewer/tableview/GenericTableHelper.java:68-71 | the buffer becomes the selection and those rows are removed from the table |
| GenericTable.TableHelper.PasteSelection | src/main/java/com/dutils/servicebusviewer/tableview/GenericTableHelper.java:74-79 | an empty buffer changes nothing; otherwise the buffer is inserted after the selection, or at the end, and is kept |
| Clipboard.CopySelectedCells | src/main/java/com/dutils/servicebusviewer/utils/FxClipboardCopyHandler.java:38-59 | null for an empty selection; otherwise the cells' text with a tab between cells of one row and a newline between rows |
| Clipboard.SeparatorCounts | src/main/java/com/dutils/servicebusviewer/utils/FxClipboardCopyHandler.java:44-56 | with no tab or newline inside cells, the text holds one separator fewer than cells, and one newline per row change |
| Clipboard.TsvTextStartsWithFirstCell | src/main/java/com/dutils/servicebusviewer/utils/FxClipboardCopyHandler.java:48-53 | the text opens with the first cell: no separator comes before it |
| Clipboard.NullCellsCopyBlank | src/main/java/com/dutils/servicebusviewer/utils/FxClipboardCopyHandler.java:27-54 | a selection of null cells copies blank text, which the key filter does not put on the clipboard |
| Clipboard.CopySelectedTreeItem | src/main/java/com/dutils/servicebusviewer/utils/FxClipboardCopyHandler.java:61-66 | the selected tree item's value, null without a selection or with a null value |
| Clipboard.CopiedText | src/main/java/com/dutils/servicebusviewer/utils/FxClipboardCopyHandler.java:20-26 | a table copies its selected cells, a tree its selected item, and any other control nothing |
| Clipboard.SystemClipboard.constructor | src/main/java/com/dutils/servicebusviewer/utils/FxClipboardCopyHandler.java:29 | the clipboard holds the given content |
| Clipboard.HandleKeyPressed | src/main/java/com/dutils/servicebusviewer/utils/FxClipboardCopyHandler.java:16-36 | Ctrl+C or Cmd+C is consumed and puts the copied text on the clipboard when it is not blank; otherwise the clipboard keeps its content |

## Left out

- Azure SDK clients, AMQP networking and the administration client (`buildClient`, `getNamespaceProperties`, the queue and topic listings that `loadTreeView`, `loadTopics`, `processQueue` and `processTopics` fetch) are foreign calls. The broker is a value, and what its calls return or which of them fail are parameters.
- The broker always delivers full batches when messages are waiting. A receive cut short by its wait timeout is not modelled.
- The reactive subscription, the 120-second `CountDownLatch` wait and `dispose` in `moveMessagesAsyncToQueue` are concurrency. Only the sequential handler applied to the stream of dead-lettered messages is modelled. An exception that leaves the handler (an abandon that throws in its catch block) is taken to end the subscription, as a Reactor subscriber does when its consumer throws.
- Virtual-thread executors, `CompletableFuture` chains and `Platform.runLater` are concurrency. Each operation is modelled as one sequential call.
- JavaFX rendering, dialogs, cell factories, `FileChooser`, `DialogUtils` and the application class are UI only.
- The key-handler wiring of `GenericTableHelper` (`installKeyHandlers`), `makeEditable` and `enableMultiSelect` are UI event wiring. The actions they invoke are modelled.
- The controllers' refresh, resend, restore and status handlers (`handleRestoreFromDlq`, `handleRestoreAll`, `handleStatus` and the like) only chain the modelled operations with UI updates, and are not modelled themselves.
- Loading and storing files (`JsonFileUtil`, `loadFromProperties`, `Properties.store`, the file writes of `saveMessages`) is I/O. Only the names and the listing `saveMessages` builds are modelled.
- `testConnection` and `connectAction` of the connection dialog only call the administration client and the application context. The registry operations they use are modelled in `Config`.
- `resubmitNewMessage`, `createMessage` and `cloneMessage` of `MessageUtils` are thin wrappers over SDK constructors. The transfers model a sent clone as the received message itself, and the field copying is modelled by `Mapper.CloneMessage`.
- The regex engines behind the JSON, XML-tag and attribute patterns and the Jackson tokenizer are libraries. Their match lists are inputs to the highlighters.
- The Jackson and XSLT pretty printers are libraries. Their output is an input, and only the guards around them are modelled.
- `OffsetDateTime.parse`, `Long.parseLong` error texts, `LogUtils`, `StopWatch` and the timing text of `Utils.fd` are library parsing, logging and wall-clock time.
- Java strings are modelled as sequences of Unicode scalar values. `getBytes()` is taken to use UTF-8 as the platform charset.
- Text.ParseLong: accepts only the ASCII digits '0' to '9'. `Long.parseLong` also accepts the other Unicode decimal digits (through `Character.digit`), and such texts are not modelled as numbers.
- `toUpperCase` and `String.CASE_INSENSITIVE_ORDER` fold only ASCII letters in this model. Locale- and Unicode-specific case mappings are left out.
- The two child sorts are proved to produce an ordered permutation. `List.sort` is also stable, and that stability is not stated.
- Selection models (selected index, selected items, selected cells, selected tree item) are parameters of the operations that read them.
- `deleteSelection` passes the live selection list to `removeAll`. The model reads the selection as a snapshot taken before the removal.
- JsonEditorJackson.Highlight: the `(int)` casts of the parser's `long` offsets are taken as exact. Texts of 2^31 characters or more are not modelled.
- `ReceiverClient.closeAll` has no per-client failure handling. A failing `close()` aborts it before the maps are cleared: the model returns the failure, keeps both maps as they were, and leaves the receivers not yet reached open.
- `dlqRecieverMap` is never written by the source, so it stays empty in every reachable state. `closeDlq` and the dead-letter half of `close` and `closeAll` are modelled on it all the same.
- The receiver key is built with `String.valueOf`, so a null subscription and the subscription named "null" share a key (`ServiceBus.NullSubSharesKey`). This is modelled as written.
- `moveMessagesToQueue` can loop forever (see Findings). The model runs its rounds under a round budget (`fuel`), and a run that exhausts the budget reports that instead of diverging.
- MessageUtils.FixedRoundsDrain: the corrected loop is proved to drain a sub-queue whose messages are all selected. With unselected messages present it can still loop (`MessageUtils.FixedStillLoops`), so no general statement is made for it.
- DataTreeItems.DataTreeItem.SetData: requires a non-null data map. On a node without one the source's `clear()` throws, and that path is not modelled.
- The sort-by-messages comparator calls `getCount`, which returns 0 for a count that is not a number and throws only for a null count value. The model takes each child's count as already computed.

## Findings

| source | as written | input that shows it | evidently intended | confidence | as-written member | corrected member |
|---|---|---|---|---|---|---|
| src/main/java/com/dutils/servicebusviewer/utils/MessageUtils.java:113-135 | the batch counter is bumped only for unmatched messages (line 129), and the loop goes on only while it reaches BATCH_SIZE (line 134) | three messages a, b, c all selected: the first batch moves a and b, counts 0, and the loop stops with c unmoved | a full batch leads to another round, so every selected message present is moved | not executed | MessageUtils.SelectStopsAfterOneBatch | MessageUtils.FixedRoundsDrain |
| src/main/java/com/dutils/servicebusviewer/utils/MessageUtils.java:113-135 | an unmatched message is abandoned (line 127), which puts it back at the head of the sub-queue, and the next round receives it again | two unselected messages at the head, whose abandon succeeds: both are abandoned and received again forever, with the counter corrected too (MessageUtils.FixedStillLoops) | every message is looked at once and the loop ends, as the stream variant at lines 55-103 does | not executed | MessageUtils.SelectNeverEnds | MessageUtils.MoveMessagesAsyncMovesAll |
| src/main/java/com/dutils/servicebusviewer/codearea/JsonEditorJackson.java:62-67 | a string or property-name match ends at its start plus the decoded text length plus 2 | the JSON text `["a\nb"]` with a backslash escape: the decoded string has 3 characters, the source text 4, so the match stops before the closing quote | the match covers the token's whole source text, closing quote included | not executed | JsonEditorJackson.EscapedStringFallsShort | JsonEditorJackson.MatchOfWithinToken |
| src/main/java/com/dutils/servicebusviewer/ConnectionDialogController.java:71-82 | an edit commit writes to `data.indexOf(rowValue)`, the first entry equal to the edited row | two identical entries, editing the second: the first is rewritten and the edited row keeps its old value | the edited row itself is rewritten | not executed | ConnectionDialog.EditCommitHitsFirstDuplicate | ConnectionDialog.EditAtRowSpec |
