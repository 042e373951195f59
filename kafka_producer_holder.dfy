/**
  The process-wide Kafka producer: created once, from the first settings
  it is given, and then used by every send. The Kafka client itself is
  not modelled; a producer is known only by the properties it was built
  from, and what it is asked to send is kept in a ghost log.
 */
module ProducerHolder {

  import opened Common
  import opened Utf8

  /** A value in a `java.util.Properties` table: the code puts strings and boxed integers. */
  datatype PropertyValue = Text(text: string) | Number(number: int)

  type Properties = map<string, PropertyValue>

  // Kafka producer configuration names, as `ProducerConfig` defines them.
  const BOOTSTRAP_SERVERS := "bootstrap.servers"
  const ACKS := "acks"
  const LINGER_MS := "linger.ms"
  const BATCH_SIZE := "batch.size"
  const RETRIES := "retries"
  const KEY_SERIALIZER := "key.serializer"
  const VALUE_SERIALIZER := "value.serializer"
  const MAX_IN_FLIGHT := "max.in.flight.requests.per.connection"
  const SECURITY_PROTOCOL := "security.protocol"
  const SASL_MECHANISM := "sasl.mechanism"
  const SASL_JAAS_CONFIG := "sasl.jaas.config"

  const BYTE_ARRAY_SERIALIZER := "org.apache.kafka.common.serialization.ByteArraySerializer"

  /** The eight arguments of `initIfNeeded`; every one of them may be null. */
  datatype ProducerSettings = ProducerSettings(
    bootstrapServers: Option<string>,
    acks: Option<string>,
    lingerMs: Option<int>,
    batchSize: Option<int>,
    retries: Option<int>,
    securityProtocol: Option<string>,
    saslMechanism: Option<string>,
    saslJaasConfig: Option<string>)

  /** The five settings that are put unconditionally; a `Properties` table refuses a null value. */
  predicate RequiredPresent(s: ProducerSettings) {
    s.bootstrapServers.Some? && s.acks.Some? && s.lingerMs.Some? && s.batchSize.Some? && s.retries.Some?
  }

  /** The keys present in every property table the holder builds. */
  const FIXED_KEYS: set<string> :=
    {BOOTSTRAP_SERVERS, ACKS, LINGER_MS, BATCH_SIZE, RETRIES, KEY_SERIALIZER, VALUE_SERIALIZER, MAX_IN_FLIGHT}

  /** The security keys that a non-null argument adds. */
  function SecurityKeys(s: ProducerSettings): set<string> {
    (if s.securityProtocol.Some? then {SECURITY_PROTOCOL} else {})
    + (if s.saslMechanism.Some? then {SASL_MECHANISM} else {})
    + (if s.saslJaasConfig.Some? then {SASL_JAAS_CONFIG} else {})
  }

  /**
    `props` is the property table the producer is built from for settings
    `s`: the five connection settings copied, raw-byte serialisers for key
    and value, one request in flight, and each security setting exactly
    when it is non-null.
   */
  ghost predicate Describes(props: Properties, s: ProducerSettings)
    requires RequiredPresent(s)
  {
    && props.Keys == FIXED_KEYS + SecurityKeys(s)
    && props[BOOTSTRAP_SERVERS] == Text(s.bootstrapServers.value)
    && props[ACKS] == Text(s.acks.value)
    && props[LINGER_MS] == Number(s.lingerMs.value)
    && props[BATCH_SIZE] == Number(s.batchSize.value)
    && props[RETRIES] == Number(s.retries.value)
    && props[KEY_SERIALIZER] == Text(BYTE_ARRAY_SERIALIZER)
    && props[VALUE_SERIALIZER] == Text(BYTE_ARRAY_SERIALIZER)
    && props[MAX_IN_FLIGHT] == Number(1)
    && (s.securityProtocol.Some? ==> props[SECURITY_PROTOCOL] == Text(s.securityProtocol.value))
    && (s.saslMechanism.Some? ==> props[SASL_MECHANISM] == Text(s.saslMechanism.value))
    && (s.saslJaasConfig.Some? ==> props[SASL_JAAS_CONFIG] == Text(s.saslJaasConfig.value))
  }

  /**
    Fills the property table put by put. A null among the five required
    settings makes `Properties.put` throw before the producer is built.
   */
  method BuildProperties(s: ProducerSettings) returns (r: Result<Properties>)
    ensures r.Success? <==> RequiredPresent(s)
    ensures r.Failure? ==> r.error == NullPointerException
    ensures r.Success? ==> Describes(r.value, s)
  {
    var props: Properties := map[];
    if s.bootstrapServers.None? { return Failure(NullPointerException); }
    props := props[BOOTSTRAP_SERVERS := Text(s.bootstrapServers.value)];
    if s.acks.None? { return Failure(NullPointerException); }
    props := props[ACKS := Text(s.acks.value)];
    if s.lingerMs.None? { return Failure(NullPointerException); }
    props := props[LINGER_MS := Number(s.lingerMs.value)];
    if s.batchSize.None? { return Failure(NullPointerException); }
    props := props[BATCH_SIZE := Number(s.batchSize.value)];
    if s.retries.None? { return Failure(NullPointerException); }
    props := props[RETRIES := Number(s.retries.value)];
    props := props[KEY_SERIALIZER := Text(BYTE_ARRAY_SERIALIZER)];
    props := props[VALUE_SERIALIZER := Text(BYTE_ARRAY_SERIALIZER)];
    props := props[MAX_IN_FLIGHT := Number(1)];

    if s.securityProtocol.Some? { props := props[SECURITY_PROTOCOL := Text(s.securityProtocol.value)]; }
    if s.saslMechanism.Some? { props := props[SASL_MECHANISM := Text(s.saslMechanism.value)]; }
    if s.saslJaasConfig.Some? { props := props[SASL_JAAS_CONFIG := Text(s.saslJaasConfig.value)]; }
    return Success(props);
  }

  /** `bytes(s)`: null stays null, and a string becomes its UTF-8 octets, which decode back to it. */
  function Bytes(s: Option<string>): (b: Option<seq<byte>>)
    ensures b.None? <==> s.None?
    ensures b.Some? ==> Decode(b.value) == Some(s.value)
  {
    match s
    case None => None
    case Some(text) =>
      DecodeEncode(text);
      Some(Encode(text))
  }

  /** The Kafka client, known by the properties it was created from. */
  datatype Producer = Producer(properties: Properties)

  /** `new ProducerRecord<>(topic, key, value)` with raw-byte key and value. */
  datatype ProducerRecord = ProducerRecord(topic: string, key: Option<seq<byte>>, value: Option<seq<byte>>)

  class KafkaProducerHolder {
    var producer: Option<Producer>
    /** Every record handed to the producer's `send`, in order. */
    ghost var sent: seq<ProducerRecord>

    /** The holder as the JVM loads it: no producer yet. */
    constructor ()
      ensures producer.None? && sent == []
    {
      producer := None;
      sent := [];
    }

    /**
      Creates the producer unless one already exists. `clientStarts` is
      whether the Kafka client accepts the properties; when it refuses, the
      exception reaches the caller and no producer is installed.
     */
    method InitIfNeeded(s: ProducerSettings, clientStarts: bool) returns (o: Outcome)
      modifies this
      ensures sent == old(sent)
      ensures old(producer).Some? ==> producer == old(producer) && o == Pass
      ensures old(producer).None? && !RequiredPresent(s) ==>
                producer.None? && o == Fail(NullPointerException)
      ensures old(producer).None? && RequiredPresent(s) && !clientStarts ==>
                producer.None? && o == Fail(KafkaException)
      ensures old(producer).None? && RequiredPresent(s) && clientStarts ==>
                o == Pass && producer.Some? && Describes(producer.value.properties, s)
    {
      if producer.Some? { return Pass; }
      var props := BuildProperties(s);
      if props.Failure? { return Fail(props.error); }
      if !clientStarts { return Fail(KafkaException); }
      producer := Some(Producer(props.value));
      return Pass;
    }

    /**
      Fire-and-forget send. The record is built first, so a null topic is
      refused before the producer is touched. `delivered` is the broker's
      later verdict, which the completion callback only prints: it never
      reaches the caller. Without a producer the call throws before
      anything is sent.
     */
    method SendAsync(topic: Option<string>, key: Option<string>, json: Option<string>, delivered: bool) returns (o: Outcome)
      modifies this
      ensures producer == old(producer)
      ensures sent == old(sent) + Issued(topic, key, json, old(producer).Some?)
      ensures o == (if topic.None? then Fail(IllegalArgumentException)
                    else if old(producer).None? then Fail(NullPointerException)
                    else Pass)
    {
      if topic.None? { return Fail(IllegalArgumentException); }
      var rec := ProducerRecord(topic.value, Bytes(key), Bytes(json));
      if producer.None? { return Fail(NullPointerException); }
      sent := sent + [rec];
      return Pass;
    }

    /**
      Send and wait up to 10 seconds for the acknowledgement. `delivered`
      is whether it arrives in time; otherwise the failure is raised, after
      the record has been handed to the producer.
     */
    method SendSync(topic: Option<string>, key: Option<string>, json: Option<string>, delivered: bool) returns (o: Outcome)
      modifies this
      ensures producer == old(producer)
      ensures sent == old(sent) + Issued(topic, key, json, old(producer).Some?)
      ensures o == (if topic.None? then Fail(IllegalArgumentException)
                    else if old(producer).None? then Fail(NullPointerException)
                    else if !delivered then Fail(DeliveryException)
                    else Pass)
    {
      if topic.None? { return Fail(IllegalArgumentException); }
      var rec := ProducerRecord(topic.value, Bytes(key), Bytes(json));
      if producer.None? { return Fail(NullPointerException); }
      sent := sent + [rec];
      if !delivered { return Fail(DeliveryException); }
      return Pass;
    }
  }

  /**
    What one send hands to the producer: the record `(topic, bytes(key),
    bytes(json))` when the topic is non-null and a producer exists, and
    nothing otherwise.
   */
  function Issued(topic: Option<string>, key: Option<string>, json: Option<string>, ready: bool): (recs: seq<ProducerRecord>)
    ensures |recs| <= 1
    ensures |recs| == 1 <==> topic.Some? && ready
    ensures |recs| == 1 ==> recs[0].topic == topic.value && recs[0].key == Bytes(key) && recs[0].value == Bytes(json)
  {
    if topic.Some? && ready then [ProducerRecord(topic.value, Bytes(key), Bytes(json))] else []
  }

  /**
    First writer wins: after a successful initialisation, a second one with
    any other settings succeeds without replacing the producer, which still
    reflects the first settings.
   */
  method InitIsOnceOnly(holder: KafkaProducerHolder, first: ProducerSettings, second: ProducerSettings, starts: bool)
    requires holder.producer.None?
    requires RequiredPresent(first)
    modifies holder
    ensures holder.producer.Some? && Describes(holder.producer.value.properties, first)
    ensures holder.sent == old(holder.sent)
  {
    var o1 := holder.InitIfNeeded(first, true);
    var o2 := holder.InitIfNeeded(second, starts);
    assert o2 == Pass;
  }
}
