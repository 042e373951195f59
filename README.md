# Keycloak-to-Kafka event bridge: a Dafny model

This project models the publishing pipeline of a Keycloak event listener.
The listener forwards user events (login, logout, registration, ...) and
administrative events (a resource created, updated or deleted) to Kafka.
For each event it:

- builds a normalised payload and its routing key, `realm:type:subject`;
- serialises the payload to JSON;
- hands both to one process-wide Kafka producer, as UTF-8 bytes, on the
  user topic or the admin topic;
- sends synchronously or asynchronously, as configured;
- catches every failure, so the host never sees an exception.

The model has one module per source file, plus three support modules:

- `Common`: Java's `null` as `Option`, exceptions as `Result` and
  `Outcome`, the realm lookup, and how `+` renders a null.
- `Utf8`: the octets `String.getBytes(UTF_8)` produces, following section 3
  of RFC 3629, and a decoder for the well-formed sequences of section 4.
- `JavaStrings`: `String.replace`, ASCII lower-casing, and a field splitter.
  The splitter is used to read a routing key back.

The other modules model the source files:

- `UserEvents`, `AdminEvents`: pure payload construction and routing keys.
- `ProducerHolder`: a class holding the once-only producer.
  - `sent` is a ghost log of every record handed to the producer.
  - The Kafka client is known only by the properties it was built from.
- `ProviderFactory`: the factory's `init`, an imperative method.
  - The settings it produces are specified by the function
    `ClientConfigOf`.
  - The extra-property collection is two loops, proved equal to folds over
    the environment and the system properties.
  - The environment-name rewrite, three `replace` passes, is proved equal
    to a one-pass unescaping, `Unescape`.
- `Instrumentation`: the Micrometer bookkeeping, as a class whose
  invariant relates `inFlight` to the timed samples still open.
  `Sample.stop` is not idempotent: calling `stopSuccess` or `stopFailure`
  again on a stopped sample decrements the in-flight gauge again. The
  invariant therefore counts repeated stops.
- `Listener`: the listener itself. Its constructor initialises the shared
  producer. Each `onEvent` issues exactly one record when it gets as far
  as sending, and swallows the outcome.

The listener shown here never calls the metrics class. The two are modelled
separately, as the code has them.

Inputs the code takes from its environment become parameters:

- the container lookup of a registry (`Lookup`);
- whether the Kafka client starts (`clientStarts`);
- whether the broker acknowledges a send (`delivered`);
- the JSON serialiser (a function that gives `None` where it would throw);
- the process environment and the system properties (sequences of pairs,
  in iteration order).

## Model

Source paths are relative to the repository root.

| member | source | states |
|---|---|---|
| UserEvents.From | src/main/java/com/cinezy/keycloak/providers/events/kafka/model/UserEventPayload.java:17-28 | realm name is the looked-up name, or null when the lookup fails; realm id, client id, user id, IP address, time and details are copied unchanged; the event type is the enum constant's name, or null when the type is null |
| UserEvents.KeyFields | src/main/java/com/cinezy/keycloak/providers/events/kafka/model/UserEventPayload.java:30-36 | when none of the three parts holds a ':', splitting the key at ':' gives back exactly (name-or-id, event type, user-or-"anon") |
| UserEvents.KeyOfResolvedRealm | src/main/java/com/cinezy/keycloak/providers/events/kafka/model/UserEventPayload.java:31 | when the realm resolves, the key starts with the realm's name and a ':' |
| UserEvents.KeyOfUnknownRealm | src/main/java/com/cinezy/keycloak/providers/events/kafka/model/UserEventPayload.java:31-32 | when the realm does not resolve, the key starts with the realm id, or "null" when the id is null too, and a ':' |
| UserEvents.LoginKeyExample | src/main/java/com/cinezy/keycloak/providers/events/kafka/model/UserEventPayload.java:30-36 | a LOGIN of user u42 in the realm named tenant-a has the key "tenant-a:LOGIN:u42" |
| UserEvents.AnonymousLogoutKeyExample | src/main/java/com/cinezy/keycloak/providers/events/kafka/model/UserEventPayload.java:30-36 | an anonymous LOGOUT in an unknown realm "ghost" has the key "ghost:LOGOUT:anon" |
| AdminEvents.From | src/main/java/com/cinezy/keycloak/providers/events/kafka/model/AdminEventPayload.java:19-34 | realm name resolved or null; realm id, resource path and time copied; resource and operation types are enum names or null; the four auth fields are null without auth details and copied from them otherwise; the representation is carried exactly when requested |
| AdminEvents.KeyFields | src/main/java/com/cinezy/keycloak/providers/events/kafka/model/AdminEventPayload.java:36-38 | when none of the three parts holds a ':', splitting the key at ':' gives back (name-or-id, operation type, resource type), nulls as "null" |
| AdminEvents.KeyOfUnknownRealm | src/main/java/com/cinezy/keycloak/providers/events/kafka/model/AdminEventPayload.java:37 | when the realm does not resolve, the key starts with the realm id (or "null") and a ':' |
| AdminEvents.RepresentationOnlyOnRequest | src/main/java/com/cinezy/keycloak/providers/events/kafka/model/AdminEventPayload.java:33 | without the flag, the payload is the same whatever representation the event carries; with it, the payload differs only by carrying the representation |
| AdminEvents.UserUpdateKeyExample | src/main/java/com/cinezy/keycloak/providers/events/kafka/model/AdminEventPayload.java:36-38 | an UPDATE of a USER in the realm named tenant-b has the key "tenant-b:UPDATE:USER" and, without the flag, no representation |
| Utf8.EncodeChar | src/main/java/com/cinezy/keycloak/providers/events/kafka/KafkaProducerHolder.java:66 | each character takes one to four octets, one exactly for ASCII (the octet is its code), and every octet after the first is a continuation octet |
| Utf8.DecodeEncode | src/main/java/com/cinezy/keycloak/providers/events/kafka/KafkaProducerHolder.java:66 | decoding the UTF-8 octets of any string gives the string back |
| Utf8.EncodeAscii | src/main/java/com/cinezy/keycloak/providers/events/kafka/KafkaProducerHolder.java:66 | an ASCII string is encoded one octet per character, each equal to its code |
| ProducerHolder.BuildProperties | src/main/java/com/cinezy/keycloak/providers/events/kafka/KafkaProducerHolder.java:28-44 | fails with a null-pointer error exactly when one of the five required settings is null; otherwise the table copies them, sets byte-array serialisers and one request in flight, and holds each security key exactly when its argument is non-null, with no other keys |
| ProducerHolder.Bytes | src/main/java/com/cinezy/keycloak/providers/events/kafka/KafkaProducerHolder.java:65-67 | null stays null, and the octets of a string decode back to the string |
| ProducerHolder.KafkaProducerHolder.constructor | src/main/java/com/cinezy/keycloak/providers/events/kafka/KafkaProducerHolder.java:13 | the holder starts with no producer and nothing sent |
| ProducerHolder.KafkaProducerHolder.InitIfNeeded | src/main/java/com/cinezy/keycloak/providers/events/kafka/KafkaProducerHolder.java:17-47 | an existing producer is kept and the call succeeds; otherwise a null required setting or a refusing client raises and leaves no producer, and success installs a producer built from exactly the described properties; nothing is sent |
| ProducerHolder.KafkaProducerHolder.SendAsync | src/main/java/com/cinezy/keycloak/providers/events/kafka/KafkaProducerHolder.java:49-58 | appends exactly the issued record to the log; a null topic raises an illegal-argument error, a missing producer raises a null-pointer error, and a delivery failure is never reported |
| ProducerHolder.KafkaProducerHolder.SendSync | src/main/java/com/cinezy/keycloak/providers/events/kafka/KafkaProducerHolder.java:60-63 | appends exactly the issued record to the log; raises as the async send does, and in addition when the broker does not acknowledge in time |
| ProducerHolder.InitIsOnceOnly | src/main/java/com/cinezy/keycloak/providers/events/kafka/KafkaProducerHolder.java:17-26 | after a successful first initialisation, a second one with any settings leaves the producer built from the first settings |
| ProviderFactory.ParseInt | src/main/java/com/cinezy/keycloak/providers/events/kafka/KafkaEventListenerProviderFactory.java:49-58 | a parsed value lies in the 32-bit range, the text is non-empty, and the value is negative only when the text starts with '-' |
| ProviderFactory.ParseIntDecimal | src/main/java/com/cinezy/keycloak/providers/events/kafka/KafkaEventListenerProviderFactory.java:49-58 | every 32-bit integer written in decimal, with a '-' when negative, is read back as itself |
| ProviderFactory.ParseIntSignExamples | src/main/java/com/cinezy/keycloak/providers/events/kafka/KafkaEventListenerProviderFactory.java:49 | "+42" and "42" read as 42, "-42" as -42, and "007" as 7 |
| ProviderFactory.ParseIntRejectExamples | src/main/java/com/cinezy/keycloak/providers/events/kafka/KafkaEventListenerProviderFactory.java:49 | "", "-", "+", "12a" and "--1" do not parse |
| ProviderFactory.ParseIntRangeExamples | src/main/java/com/cinezy/keycloak/providers/events/kafka/KafkaEventListenerProviderFactory.java:49 | "2147483648" does not parse, and "-2147483648" reads as -2^31 |
| ProviderFactory.GetIntReadsDecimal | src/main/java/com/cinezy/keycloak/providers/events/kafka/KafkaEventListenerProviderFactory.java:49-58 | an integer setting holding the decimal text of a 32-bit integer yields that integer, whatever the default |
| ProviderFactory.DefaultsWhenUnset | src/main/java/com/cinezy/keycloak/providers/events/kafka/KafkaEventListenerProviderFactory.java:46-67 | with nothing configured: localhost:9092, client id keycloak, acks all, 3 retries, linger 5, batch 16384, no compression, timeouts 120000 and 30000, idempotence on, 5 in flight, and every security and SSL field null |
| ProviderFactory.MaxInFlightDefault | src/main/java/com/cinezy/keycloak/providers/events/kafka/KafkaEventListenerProviderFactory.java:55-58 | when unset, the in-flight limit is 5 with idempotence and 1 without |
| ProviderFactory.ExplicitMaxInFlightWins | src/main/java/com/cinezy/keycloak/providers/events/kafka/KafkaEventListenerProviderFactory.java:56-58 | a configured in-flight limit is used as given, whatever the idempotence flag |
| ProviderFactory.ReplaceChainIsUnescape | src/main/java/com/cinezy/keycloak/providers/events/kafka/KafkaEventListenerProviderFactory.java:98-100 | on text without '@', the three replace passes equal a one-pass reading in which "__" is a literal '_' and a single '_' is a '.' |
| ProviderFactory.EnvTailIsUnescape | src/main/java/com/cinezy/keycloak/providers/events/kafka/KafkaEventListenerProviderFactory.java:95-100 | for every variable tail without '@', the rewrite is the one-pass unescaping of the lower-cased tail |
| ProviderFactory.EnvSingleSeparator | src/main/java/com/cinezy/keycloak/providers/events/kafka/KafkaEventListenerProviderFactory.java:90-99 | a tail A_B, with parts free of '_' and '@', names the property a.b |
| ProviderFactory.EnvDoubledSeparator | src/main/java/com/cinezy/keycloak/providers/events/kafka/KafkaEventListenerProviderFactory.java:98-100 | a tail A__B names the property a_b |
| ProviderFactory.EnvNameExamples | src/main/java/com/cinezy/keycloak/providers/events/kafka/KafkaEventListenerProviderFactory.java:90-101 | the variable ..._PROPS_FOO_BAR names foo.bar and ..._PROPS_SSL__ENGINE names ssl_engine |
| ProviderFactory.PlaceholderCollision | src/main/java/com/cinezy/keycloak/providers/events/kafka/KafkaEventListenerProviderFactory.java:95-100 | a tail "A@@B" names the same property "a_b" as "A__B": a literal "@@" is read as the placeholder |
| ProviderFactory.EnvExtrasKeys | src/main/java/com/cinezy/keycloak/providers/events/kafka/KafkaEventListenerProviderFactory.java:92-103 | the environment contributes exactly the rewritten names of its prefixed variables; a variable without the prefix contributes nothing |
| ProviderFactory.SysExtrasKeys | src/main/java/com/cinezy/keycloak/providers/events/kafka/KafkaEventListenerProviderFactory.java:106-112 | the system properties add exactly their names after the prefix, unchanged, and leave every other entry as it was |
| ProviderFactory.EnvExtrasLastWins | src/main/java/com/cinezy/keycloak/providers/events/kafka/KafkaEventListenerProviderFactory.java:92-103 | the last prefixed environment variable whose rewritten name is k gives the environment's value for k |
| ProviderFactory.EnvValueReachesExtras | src/main/java/com/cinezy/keycloak/providers/events/kafka/KafkaEventListenerProviderFactory.java:92-112 | that value is the extra property k whenever no system property names k |
| ProviderFactory.EnvValueExample | src/main/java/com/cinezy/keycloak/providers/events/kafka/KafkaEventListenerProviderFactory.java:90-103 | the variable KC_SPI_EVENTS_LISTENER_KAFKA_PROPS_FOO_BAR=123 yields the extra property foo.bar=123 |
| ProviderFactory.SysExtrasLastWins | src/main/java/com/cinezy/keycloak/providers/events/kafka/KafkaEventListenerProviderFactory.java:107-112 | the last system property naming a key decides that key's value |
| ProviderFactory.SystemPropertyWins | src/main/java/com/cinezy/keycloak/providers/events/kafka/KafkaEventListenerProviderFactory.java:92-112 | on a collision between an environment variable and a system property, the system property's value wins |
| ProviderFactory.KafkaEventListenerProviderFactory.constructor | src/main/java/com/cinezy/keycloak/providers/events/kafka/KafkaEventListenerProviderFactory.java:19-26 | a factory starts with Java's default field values: both topics null, the three flags false, and no configuration |
| ProviderFactory.KafkaEventListenerProviderFactory.Init | src/main/java/com/cinezy/keycloak/providers/events/kafka/KafkaEventListenerProviderFactory.java:35-74 | both topics become non-null: the configured names, or by default keycloak.user.events and keycloak.admin.events; sync defaults to false and both enable flags to true; succeeds exactly when every integer setting parses, and then the configuration is the one the settings and the collected extras determine; on failure it raises a number-format error and the configuration is not replaced |
| ProviderFactory.KafkaEventListenerProviderFactory.CollectExtraProps | src/main/java/com/cinezy/keycloak/providers/events/kafka/KafkaEventListenerProviderFactory.java:87-115 | the extras are the environment's, put in order, overwritten in order by the system properties' |
| Instrumentation.Sample.constructor | src/main/java/com/cinezy/keycloak/providers/events/kafka/Metrics.java:106-110 | a sample keeps whether it holds a timer and its topic |
| Instrumentation.Metrics.constructor | src/main/java/com/cinezy/keycloak/providers/events/kafka/Metrics.java:19-22 | no registry, nothing in flight, no timers, summaries or counters |
| Instrumentation.Metrics.InitIfPossible | src/main/java/com/cinezy/keycloak/providers/events/kafka/Metrics.java:26-41 | a registry is present afterwards exactly when it was before or the lookup yields one; a failing or empty lookup leaves metrics off; nothing else changes |
| Instrumentation.Metrics.SampleSend | src/main/java/com/cinezy/keycloak/providers/events/kafka/Metrics.java:43-60 | without a registry it returns NOOP and changes nothing; with one it returns a new timed sample for the topic, adds exactly 1 to inFlight, and creates the topic's timer only if it had none |
| Instrumentation.Metrics.TimerFor | src/main/java/com/cinezy/keycloak/providers/events/kafka/Metrics.java:47-56 | a topic's timer is created on first use and reused afterwards; the creation log records each topic once |
| Instrumentation.Metrics.RecordPayloadSize | src/main/java/com/cinezy/keycloak/providers/events/kafka/Metrics.java:62-77 | without a registry nothing changes; with one the size is appended to the topic's summary, created only on first use |
| Instrumentation.Metrics.Count | src/main/java/com/cinezy/keycloak/providers/events/kafka/Metrics.java:94-98 | with a registry the counter with those tags goes up by one, starting from zero; without one nothing changes |
| Instrumentation.Metrics.MarkSuccess | src/main/java/com/cinezy/keycloak/providers/events/kafka/Metrics.java:79-81 | with a registry the counter tagged outcome=success and the topic goes up by one; nothing else changes |
| Instrumentation.Metrics.MarkFailure | src/main/java/com/cinezy/keycloak/providers/events/kafka/Metrics.java:83-92 | with a registry the counter tagged outcome=failure, the reason and the topic goes up by one; nothing else changes |
| Instrumentation.Metrics.Stop | src/main/java/com/cinezy/keycloak/providers/events/kafka/Metrics.java:122-128 | every stop of a timed sample records one duration on its topic's timer and takes 1 from inFlight, so a sample stopped twice is counted out twice; stopping NOOP changes nothing; the invariant inFlight == open samples − repeated stops is kept |
| Instrumentation.Metrics.StopSuccess | src/main/java/com/cinezy/keycloak/providers/events/kafka/Metrics.java:112-115 | stops the sample, then counts a success on the sample's topic; the payload summaries, the creation logs and the other state are left as stopping leaves them |
| Instrumentation.Metrics.StopFailure | src/main/java/com/cinezy/keycloak/providers/events/kafka/Metrics.java:117-120 | stops the sample, then counts a failure with the given reason on the sample's topic; the payload summaries, the creation logs and the other state are left as stopping leaves them |
| Instrumentation.SampledSendIsBalanced | src/main/java/com/cinezy/keycloak/providers/events/kafka/Metrics.java:58-126 | sampling a send and stopping it, either way, leaves inFlight and the open samples as they were, and a timer exists for the topic exactly when there is a registry |
| Instrumentation.InFlightCountsOpen | src/main/java/com/cinezy/keycloak/providers/events/kafka/Metrics.java:43-128 | while no sample has been stopped twice, inFlight is exactly the number of timed samples started and not yet stopped |
| Instrumentation.StoppingTwiceCountsTwice | src/main/java/com/cinezy/keycloak/providers/events/kafka/Metrics.java:112-128 | stopping the same timed sample twice with stopSuccess leaves inFlight one below where it started, records two durations and counts two successes |
| Listener.KafkaEventListenerProvider.constructor | src/main/java/com/cinezy/keycloak/providers/events/kafka/KafkaEventListenerProvider.java:36-39 | the provider keeps the session, the topics and the sync flag |
| Listener.KafkaEventListenerProvider.Create | src/main/java/com/cinezy/keycloak/providers/events/kafka/KafkaEventListenerProvider.java:23-50 | construction initialises the shared producer; it yields a provider exactly when a producer already existed or the settings are complete and the client starts, and then a producer exists; otherwise it raises the initialisation's error |
| Listener.KafkaEventListenerProvider.PublishUser | src/main/java/com/cinezy/keycloak/providers/events/kafka/KafkaEventListenerProvider.java:55-62 | when the payload serialises, the record issued is on the user topic, keyed by the payload's key, with the JSON as value; the outcome is a pass exactly when serialisation, topic and producer succeed and, for a sync send, the broker acknowledges |
| Listener.KafkaEventListenerProvider.PublishAdmin | src/main/java/com/cinezy/keycloak/providers/events/kafka/KafkaEventListenerProvider.java:72-79 | as for user events, on the admin topic, with the payload built under the caller's representation flag |
| Listener.KafkaEventListenerProvider.OnEvent | src/main/java/com/cinezy/keycloak/providers/events/kafka/KafkaEventListenerProvider.java:53-67 | returns no error whatever happens, and sends exactly the record the publication issues |
| Listener.KafkaEventListenerProvider.OnAdminEvent | src/main/java/com/cinezy/keycloak/providers/events/kafka/KafkaEventListenerProvider.java:70-84 | returns no error whatever happens, and sends exactly the record the admin publication issues |
| Listener.SendOutcome | src/main/java/com/cinezy/keycloak/providers/events/kafka/KafkaEventListenerProvider.java:54-66 | a publication passes exactly when serialisation, topic and producer succeed and a sync send is acknowledged; a serialisation failure is reported as such; a delivery failure is reported only for sync sends |
| Listener.UserRecordKeyReadsBack | src/main/java/com/cinezy/keycloak/providers/events/kafka/KafkaEventListenerProvider.java:57-61 | the key bytes of a user record decode to the routing key, and split back into its three parts when none holds a ':' |
| Listener.AdminRecordKeyReadsBack | src/main/java/com/cinezy/keycloak/providers/events/kafka/KafkaEventListenerProvider.java:74-78 | the same for an admin record: realm label, operation type, resource type |
| Listener.ProviderPublishesEachEvent | src/main/java/com/cinezy/keycloak/providers/events/kafka/KafkaEventListenerProvider.java:41-62 | once a provider has been created with complete settings, each user event that serialises puts exactly one record on the user topic, keyed by its payload's key, sync or async, delivered or not |

## Left out

- `KafkaEventListenerProviderFactory.create` (lines 29-32) is not modelled. It calls a seven-argument provider constructor and reads `KafkaProducerHolder.Config`; neither exists in the provider and holder modelled here. The configuration `init` builds is modelled as the `ClientConfig` record, and nothing connects it to the holder.
- `postInit`, `close` and `getId` have no behaviour to state.
- Max-in-flight: the code does not force the limit to 1 when idempotence is off. It only uses 1 as the default, and an explicit value still wins. The model follows the code (`ProviderFactory.ExplicitMaxInFlightWins`). The holder's own property table always uses 1.
- `Config.Scope` is a string map. `getInt` is `Integer.parseInt` over ASCII digits with an optional sign, in the 32-bit range; Java also accepts non-ASCII decimal digits. `getBoolean` is `Boolean.parseBoolean`.
- `toLowerCase(Locale.ROOT)` is modelled for the ASCII letters only; other letters in an environment name are kept as they are.
- The general rewrite lemmas cover names without '@'. A name that already contains "@@" is rewritten as the code does; `ProviderFactory.PlaceholderCollision` shows one such name colliding with its doubled-underscore spelling.
- `collectExtraProps` ignores its `root` and `prefix` parameters, so the model takes only the two tables. `String.valueOf` on a system property's key and value is not modelled: entries are string pairs. The iteration order of the environment and the system properties is the order of the given sequences.
- The Kafka client is not modelled: connections, batching, retries, the completion callback's printing, and the 10-second wait. A producer is its property table. Whether the client starts, and whether a send is acknowledged in time, are parameters. The only `ProducerRecord` check modelled is the null-topic check; the partition and timestamp checks do not arise.
- Strings are sequences of Unicode scalar values. A Java string with an unpaired surrogate, which `getBytes` writes as '?', cannot be expressed.
- Jackson serialisation is a parameter function: the JSON text itself is not modelled, only whether serialisation succeeds.
- The Keycloak session is reduced to a realm-id-to-name map. `getRealm(null)` is taken to find no realm. Event times are unbounded integers; no arithmetic is done on them.
- Micrometer is reduced to what is recorded where:
  - a timer is its number of recorded durations;
  - a summary is the list of recorded sizes;
  - a counter is its count.
  - Durations, `System.nanoTime`, percentiles, histograms and the in-flight gauge are not modelled.
- Instrumentation.Metrics.SampleSend: a null topic, which makes `computeIfAbsent` throw, is not modelled; topics there are strings. The same holds for `RecordPayloadSize`.
- Counter tags with a null value, such as the topic of `NOOP`, are recorded as null tags. What Micrometer itself does with a null tag value is not modelled.
- `inFlight` is an unbounded integer; the `AtomicInteger`'s 32-bit wrap-around is not modelled.
- Instrumentation.Metrics.Stop requires the sample to be `NOOP` or one this `Metrics` handed out. The Java state is static, so there is only one.
- Logging, `System.err`, `synchronized`, `volatile`, `ConcurrentHashMap` and `AtomicInteger` are not modelled; everything is sequential.
