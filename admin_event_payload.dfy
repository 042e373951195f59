/**
  The normalised record published for an administrative event (a resource
  created, updated or deleted by an operator) and its routing key
  `realm:operationType:resourceType`.
 */
module AdminEvents {

  import opened Common
  import opened JavaStrings

  /** Who performed the administrative action. */
  datatype AuthDetails = AuthDetails(
    realmId: Option<string>,
    clientId: Option<string>,
    userId: Option<string>,
    ipAddress: Option<string>)

  /** The host's administrative event, reduced to the getters the payload reads. */
  datatype AdminEvent = AdminEvent(
    realmId: Option<string>,
    resourceType: Option<EnumConstant>,
    operationType: Option<EnumConstant>,
    resourcePath: Option<string>,
    time: int,                           // epoch milliseconds, a primitive long
    authDetails: Option<AuthDetails>,
    representation: Option<string>)      // JSON snapshot of the affected resource

  datatype AdminEventPayload = AdminEventPayload(
    realmId: Option<string>,
    realmName: Option<string>,
    resourceType: Option<string>,
    operationType: Option<string>,
    resourcePath: Option<string>,
    time: int,
    authRealmId: Option<string>,
    authClientId: Option<string>,
    authUserId: Option<string>,
    authIpAddress: Option<string>,
    representation: Option<string>)

  function NameOf(c: Option<EnumConstant>): (n: Option<string>)
    ensures n.Some? <==> c.Some?
    ensures n.Some? ==> n.value == c.value.name
  {
    if c.Some? then Some(c.value.name) else None
  }

  /**
    Builds the payload of `e`. The representation is carried only when the
    caller asks for it; the four auth fields are null when the event has no
    auth details.
   */
  function From(e: AdminEvent, realms: Realms, includeRepresentation: bool): (p: AdminEventPayload)
    ensures p.realmName.Some? <==> e.realmId.Some? && e.realmId.value in realms
    ensures p.realmName.Some? ==> p.realmName.value == realms[e.realmId.value]
    ensures p.realmId == e.realmId && p.resourcePath == e.resourcePath && p.time == e.time
    ensures p.resourceType.Some? <==> e.resourceType.Some?
    ensures p.resourceType.Some? ==> p.resourceType.value == e.resourceType.value.name
    ensures p.operationType.Some? <==> e.operationType.Some?
    ensures p.operationType.Some? ==> p.operationType.value == e.operationType.value.name
    ensures e.authDetails.None? ==>
              p.authRealmId.None? && p.authClientId.None? && p.authUserId.None? && p.authIpAddress.None?
    ensures e.authDetails.Some? ==>
              && p.authRealmId == e.authDetails.value.realmId
              && p.authClientId == e.authDetails.value.clientId
              && p.authUserId == e.authDetails.value.userId
              && p.authIpAddress == e.authDetails.value.ipAddress
    ensures !includeRepresentation ==> p.representation.None?
    ensures includeRepresentation ==> p.representation == e.representation
  {
    AdminEventPayload(
      e.realmId,
      RealmName(realms, e.realmId),
      NameOf(e.resourceType),
      NameOf(e.operationType),
      e.resourcePath,
      e.time,
      if e.authDetails.Some? then e.authDetails.value.realmId else None,
      if e.authDetails.Some? then e.authDetails.value.clientId else None,
      if e.authDetails.Some? then e.authDetails.value.userId else None,
      if e.authDetails.Some? then e.authDetails.value.ipAddress else None,
      if includeRepresentation then e.representation else None)
  }

  /** The first key field: the realm's name, or its id when the name is null. */
  function RealmLabel(p: AdminEventPayload): string {
    Render(if p.realmName.Some? then p.realmName else p.realmId)
  }

  /** The routing key; null parts are written as the text "null". */
  function Key(p: AdminEventPayload): string {
    (if p.realmName.Some? then p.realmName.value else Render(p.realmId))
      + ":" + Render(p.operationType) + ":" + Render(p.resourceType)
  }

  /** Read back at its separators, a key gives its three parts when none of them holds a ':'. */
  lemma KeyFields(p: AdminEventPayload)
    requires ':' !in RealmLabel(p) && ':' !in Render(p.operationType) && ':' !in Render(p.resourceType)
    ensures Fields(Key(p), ':') == [RealmLabel(p), Render(p.operationType), Render(p.resourceType)]
  {
    var parts := [RealmLabel(p), Render(p.operationType), Render(p.resourceType)];
    assert Join(parts[1..][1..], ':') == parts[2];
    assert Join(parts[1..], ':') == parts[1] + ":" + parts[2];
    assert Key(p) == parts[0] + ":" + (parts[1] + ":" + parts[2]);
    FieldsOfJoin(parts, ':');
  }

  /** An unresolvable realm falls back to the realm id ("null" when that is null too). */
  lemma KeyOfUnknownRealm(e: AdminEvent, realms: Realms, includeRepresentation: bool)
    requires e.realmId.None? || e.realmId.value !in realms
    ensures Render(e.realmId) + ":" <= Key(From(e, realms, includeRepresentation))
  {
    var p := From(e, realms, includeRepresentation);
    assert Key(p) == Render(e.realmId) + ":" + (Render(p.operationType) + ":" + Render(p.resourceType));
  }

  /**
    Whatever representation the event carries, leaving it out keeps it out
    of the payload, and nothing else in the payload depends on the flag.
   */
  lemma RepresentationOnlyOnRequest(e: AdminEvent, e': AdminEvent, realms: Realms)
    requires e' == e.(representation := e'.representation)
    ensures From(e, realms, false) == From(e', realms, false)
    ensures From(e, realms, true).(representation := None) == From(e, realms, false)
  {
  }

  /** An UPDATE of a USER in the realm named "tenant-b", without the representation. */
  lemma UserUpdateKeyExample(rep: Option<string>)
    ensures
      var e := AdminEvent(Some("r2"), Some(EnumConstant("USER")),
                          Some(EnumConstant("UPDATE")), Some("users/u1"), 0, None, rep);
      var p := From(e, map["r2" := "tenant-b"], false);
      Key(p) == "tenant-b:UPDATE:USER" && p.representation.None?
  {
  }
}
