/**
  The event listener the host calls for every user and administrative
  event: it normalises the event, serialises the payload to JSON and hands
  it to the shared producer, keyed by the payload's routing key, on the
  user or the admin topic. Whatever fails along the way is caught and
  logged; the host never sees an exception.

  JSON serialisation is a parameter of the model: a function from payload
  to text that gives `None` where the serialiser would throw.
 */
module Listener {

  import opened Common
  import opened Utf8
  import opened JavaStrings
  import opened ProducerHolder
  import UserEvents
  import AdminEvents

  class KafkaEventListenerProvider {
    /** The session's realm lookup. */
    const realms: Realms
    const topicUser: Option<string>
    const topicAdmin: Option<string>
    const sync: bool
    /** The process-wide producer holder every provider shares. */
    const holder: KafkaProducerHolder
    const userJson: UserEvents.UserEventPayload -> Option<string>
    const adminJson: AdminEvents.AdminEventPayload -> Option<string>

    /** Stores the session and the settings; the holder is initialised by `Create`. */
    constructor (realms: Realms, topicUser: Option<string>, topicAdmin: Option<string>, sync: bool,
                 holder: KafkaProducerHolder,
                 userJson: UserEvents.UserEventPayload -> Option<string>,
                 adminJson: AdminEvents.AdminEventPayload -> Option<string>)
      ensures this.realms == realms && this.topicUser == topicUser && this.topicAdmin == topicAdmin
      ensures this.sync == sync && this.holder == holder
      ensures this.userJson == userJson && this.adminJson == adminJson
    {
      this.realms := realms;
      this.topicUser := topicUser;
      this.topicAdmin := topicAdmin;
      this.sync := sync;
      this.holder := holder;
      this.userJson := userJson;
      this.adminJson := adminJson;
    }

    /**
      `new KafkaEventListenerProvider(...)`: stores the settings, then
      initialises the shared producer with the connection settings. When
      that initialisation throws, so does the constructor, and no provider
      is returned; otherwise a producer exists afterwards.
     */
    static method Create(realms: Realms, holder: KafkaProducerHolder, settings: ProducerSettings,
                         topicUser: Option<string>, topicAdmin: Option<string>, sync: bool, clientStarts: bool,
                         userJson: UserEvents.UserEventPayload -> Option<string>,
                         adminJson: AdminEvents.AdminEventPayload -> Option<string>)
      returns (r: Result<KafkaEventListenerProvider>)
      modifies holder
      ensures holder.sent == old(holder.sent)
      ensures old(holder.producer).Some? ==> holder.producer == old(holder.producer)
      ensures r.Success? <==> old(holder.producer).Some? || (RequiredPresent(settings) && clientStarts)
      ensures r.Success? ==>
                && holder.producer.Some?
                && fresh(r.value) && r.value.holder == holder && r.value.realms == realms
                && r.value.topicUser == topicUser && r.value.topicAdmin == topicAdmin && r.value.sync == sync
                && r.value.userJson == userJson && r.value.adminJson == adminJson
      ensures old(holder.producer).None? && RequiredPresent(settings) && clientStarts ==>
                Describes(holder.producer.value.properties, settings)
      ensures r.Failure? ==>
                && holder.producer.None?
                && r.error == (if RequiredPresent(settings) then KafkaException else NullPointerException)
    {
      var p := new KafkaEventListenerProvider(realms, topicUser, topicAdmin, sync, holder, userJson, adminJson);
      var o := holder.InitIfNeeded(settings, clientStarts);
      if o.Fail? { return Failure(o.error); }
      return Success(p);
    }

    /**
      The body of `onEvent(Event)` inside its `try`: build the payload,
      serialise it, compute the key, and send on the user topic, waiting
      for the broker when `sync` is set. `delivered` is the broker's verdict.
     */
    method PublishUser(event: UserEvents.Event, delivered: bool) returns (o: Outcome)
      modifies holder
      ensures holder.producer == old(holder.producer)
      ensures var p := UserEvents.From(event, realms);
              var json := userJson(p);
              && holder.sent == old(holder.sent) + (if json.Some? then Issued(topicUser, Some(UserEvents.Key(p)), json, old(holder.producer).Some?) else [])
              && o == SendOutcome(json.Some?, topicUser.Some?, old(holder.producer).Some?, sync, delivered)
    {
      var p := UserEvents.From(event, realms);
      var json := userJson(p);
      if json.None? { return Fail(SerializationException); }
      var key := UserEvents.Key(p);
      if sync {
        o := holder.SendSync(topicUser, Some(key), json, delivered);
      } else {
        o := holder.SendAsync(topicUser, Some(key), json, delivered);
      }
    }

    /**
      The body of `onEvent(AdminEvent, includeRepresentation)` inside its
      `try`: as for a user event, on the admin topic, with the payload
      built under the caller's representation flag.
     */
    method PublishAdmin(event: AdminEvents.AdminEvent, includeRepresentation: bool, delivered: bool) returns (o: Outcome)
      modifies holder
      ensures holder.producer == old(holder.producer)
      ensures var p := AdminEvents.From(event, realms, includeRepresentation);
              var json := adminJson(p);
              && holder.sent == old(holder.sent) + (if json.Some? then Issued(topicAdmin, Some(AdminEvents.Key(p)), json, old(holder.producer).Some?) else [])
              && o == SendOutcome(json.Some?, topicAdmin.Some?, old(holder.producer).Some?, sync, delivered)
    {
      var p := AdminEvents.From(event, realms, includeRepresentation);
      var json := adminJson(p);
      if json.None? { return Fail(SerializationException); }
      var key := AdminEvents.Key(p);
      if sync {
        o := holder.SendSync(topicAdmin, Some(key), json, delivered);
      } else {
        o := holder.SendAsync(topicAdmin, Some(key), json, delivered);
      }
    }

    /** `onEvent(Event)`: publishes the event and swallows whatever the publication raised. */
    method OnEvent(event: UserEvents.Event, delivered: bool)
      modifies holder
      ensures holder.producer == old(holder.producer)
      ensures var p := UserEvents.From(event, realms);
              var json := userJson(p);
              holder.sent == old(holder.sent) + (if json.Some? then Issued(topicUser, Some(UserEvents.Key(p)), json, old(holder.producer).Some?) else [])
    {
      var _ := PublishUser(event, delivered);
    }

    /** `onEvent(AdminEvent, includeRepresentation)`: publishes the event and swallows whatever it raised. */
    method OnAdminEvent(event: AdminEvents.AdminEvent, includeRepresentation: bool, delivered: bool)
      modifies holder
      ensures holder.producer == old(holder.producer)
      ensures var p := AdminEvents.From(event, realms, includeRepresentation);
              var json := adminJson(p);
              holder.sent == old(holder.sent) + (if json.Some? then Issued(topicAdmin, Some(AdminEvents.Key(p)), json, old(holder.producer).Some?) else [])
    {
      var _ := PublishAdmin(event, includeRepresentation, delivered);
    }
  }

  /**
    How one publication ends, checked in the order the code runs into the
    failures: the serialiser, the record's topic, the producer, and, for a
    synchronous send, the broker's acknowledgement. An asynchronous send
    never reports a failed delivery.
   */
  function SendOutcome(serialised: bool, hasTopic: bool, ready: bool, sync: bool, delivered: bool): (o: Outcome)
    ensures o.Pass? <==> serialised && hasTopic && ready && (sync ==> delivered)
    ensures !serialised ==> o == Fail(SerializationException)
    ensures o == Fail(DeliveryException) <==> serialised && hasTopic && ready && sync && !delivered
  {
    if !serialised then Fail(SerializationException)
    else if !hasTopic then Fail(IllegalArgumentException)
    else if !ready then Fail(NullPointerException)
    else if sync && !delivered then Fail(DeliveryException)
    else Pass
  }

  /**
    The key bytes a user event is published under decode back to the
    payload's routing key, and, when no part of it holds a ':', split back
    into the realm label, the event type and the user label.
   */
  lemma UserRecordKeyReadsBack(p: UserEvents.UserEventPayload)
    requires ':' !in UserEvents.RealmLabel(p) && ':' !in Render(p.eventType) && ':' !in UserEvents.UserLabel(p)
    ensures var b := Bytes(Some(UserEvents.Key(p)));
            && b.Some? && Decode(b.value).Some?
            && Fields(Decode(b.value).value, ':') == [UserEvents.RealmLabel(p), Render(p.eventType), UserEvents.UserLabel(p)]
  {
    UserEvents.KeyFields(p);
  }

  /** The same for an administrative event: realm label, operation type, resource type. */
  lemma AdminRecordKeyReadsBack(p: AdminEvents.AdminEventPayload)
    requires ':' !in AdminEvents.RealmLabel(p) && ':' !in Render(p.operationType) && ':' !in Render(p.resourceType)
    ensures var b := Bytes(Some(AdminEvents.Key(p)));
            && b.Some? && Decode(b.value).Some?
            && Fields(Decode(b.value).value, ':') == [AdminEvents.RealmLabel(p), Render(p.operationType), Render(p.resourceType)]
  {
    AdminEvents.KeyFields(p);
  }

  /**
    Once a provider has been created, every user event whose payload
    serialises and whose topic is set puts exactly one record on the user
    topic, whether the send is synchronous or not and whether the broker
    delivers it or not.
   */
  method ProviderPublishesEachEvent(realms: Realms, holder: KafkaProducerHolder, settings: ProducerSettings,
                                    topicUser: string, topicAdmin: Option<string>, sync: bool,
                                    userJson: UserEvents.UserEventPayload -> Option<string>,
                                    adminJson: AdminEvents.AdminEventPayload -> Option<string>,
                                    event: UserEvents.Event, delivered: bool)
    requires RequiredPresent(settings)
    requires userJson(UserEvents.From(event, realms)).Some?
    modifies holder
    ensures |holder.sent| == |old(holder.sent)| + 1
    ensures holder.sent[|old(holder.sent)|].topic == topicUser
    ensures holder.sent[|old(holder.sent)|].key == Bytes(Some(UserEvents.Key(UserEvents.From(event, realms))))
  {
    var r := KafkaEventListenerProvider.Create(realms, holder, settings, Some(topicUser), topicAdmin, sync, true, userJson, adminJson);
    var provider := r.value;
    provider.OnEvent(event, delivered);
  }
}
