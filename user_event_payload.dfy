/**
  The normalised record published for a user event (login, logout,
  registration, ...) and its routing key `realm:eventType:user`.
 */
module UserEvents {

  import opened Common
  import opened JavaStrings

  /** The host's user event, reduced to the getters the payload reads. */
  datatype Event = Event(
    realmId: Option<string>,
    clientId: Option<string>,
    userId: Option<string>,
    ipAddress: Option<string>,
    eventType: Option<EnumConstant>,
    time: int,                           // epoch milliseconds, a primitive long
    details: Option<map<string, string>>)

  datatype UserEventPayload = UserEventPayload(
    realmId: Option<string>,
    realmName: Option<string>,
    clientId: Option<string>,
    userId: Option<string>,
    ipAddress: Option<string>,
    eventType: Option<string>,
    time: int,
    details: Option<map<string, string>>)

  /** Builds the payload of `e`; the realm's name comes from one lookup of its id. */
  function From(e: Event, realms: Realms): (p: UserEventPayload)
    ensures p.realmName.Some? <==> e.realmId.Some? && e.realmId.value in realms
    ensures p.realmName.Some? ==> p.realmName.value == realms[e.realmId.value]
    ensures p.realmId == e.realmId && p.clientId == e.clientId && p.userId == e.userId
    ensures p.ipAddress == e.ipAddress && p.time == e.time && p.details == e.details
    ensures p.eventType.Some? <==> e.eventType.Some?
    ensures p.eventType.Some? ==> p.eventType.value == e.eventType.value.name
  {
    UserEventPayload(
      e.realmId,
      RealmName(realms, e.realmId),
      e.clientId,
      e.userId,
      e.ipAddress,
      if e.eventType.Some? then Some(e.eventType.value.name) else None,
      e.time,
      e.details)
  }

  /** The first key field: the realm's name, or its id when the name is null. */
  function RealmLabel(p: UserEventPayload): string {
    Render(if p.realmName.Some? then p.realmName else p.realmId)
  }

  /** The third key field: the user id, or "anon" for an anonymous event. */
  function UserLabel(p: UserEventPayload): string {
    p.userId.GetOr("anon")
  }

  /**
    The routing key. Nulls never make it fail: a null realm id (without a
    name) or a null event type is written as the text "null".
   */
  function Key(p: UserEventPayload): string {
    (if p.realmName.Some? then p.realmName.value else Render(p.realmId))
      + ":" + Render(p.eventType) + ":" + (if p.userId.Some? then p.userId.value else "anon")
  }

  /** Read back at its separators, a key gives its three parts when none of them holds a ':'. */
  lemma KeyFields(p: UserEventPayload)
    requires ':' !in RealmLabel(p) && ':' !in Render(p.eventType) && ':' !in UserLabel(p)
    ensures Fields(Key(p), ':') == [RealmLabel(p), Render(p.eventType), UserLabel(p)]
  {
    var parts := [RealmLabel(p), Render(p.eventType), UserLabel(p)];
    assert Join(parts[1..][1..], ':') == parts[2];
    assert Join(parts[1..], ':') == parts[1] + ":" + parts[2];
    assert Key(p) == parts[0] + ":" + (parts[1] + ":" + parts[2]);
    FieldsOfJoin(parts, ':');
  }

  /** The key of an event's payload starts with the realm's name when the realm resolves. */
  lemma KeyOfResolvedRealm(e: Event, realms: Realms)
    requires e.realmId.Some? && e.realmId.value in realms
    ensures realms[e.realmId.value] + ":" <= Key(From(e, realms))
  {
    var p := From(e, realms);
    var head := realms[e.realmId.value] + ":";
    assert Key(p) == head + (Render(p.eventType) + ":" + UserLabel(p));
  }

  /** An unresolvable realm falls back to the realm id ("null" when that is null too). */
  lemma KeyOfUnknownRealm(e: Event, realms: Realms)
    requires e.realmId.None? || e.realmId.value !in realms
    ensures Render(e.realmId) + ":" <= Key(From(e, realms))
  {
    var p := From(e, realms);
    var head := Render(e.realmId) + ":";
    assert Key(p) == head + (Render(p.eventType) + ":" + UserLabel(p));
  }

  /** A LOGIN of user "u42" in realm "r1", named "tenant-a". */
  lemma LoginKeyExample()
    ensures Key(From(Event(Some("r1"), None, Some("u42"), None, Some(EnumConstant("LOGIN")), 0, None),
                     map["r1" := "tenant-a"])) == "tenant-a:LOGIN:u42"
  {
  }

  /** An anonymous LOGOUT in the unknown realm "ghost". */
  lemma AnonymousLogoutKeyExample()
    ensures Key(From(Event(Some("ghost"), None, None, None, Some(EnumConstant("LOGOUT")), 0, None),
                     map[])) == "ghost:LOGOUT:anon"
  {
  }
}
