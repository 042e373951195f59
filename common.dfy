/**
  Vocabulary shared by the whole model: Java's nullable references as
  `Option`, exceptions as `Result`/`Outcome`, and the two host lookups the
  bridge performs (realm id to realm name).
 */
module Common {

  /** A nullable Java reference: `None` stands for `null`. */
  datatype Option<+T> = None | Some(value: T) {
    function GetOr(default: T): T {
      match this
      case Some(v) => v
      case None => default
    }
  }

  /** The Java exceptions that the modelled code raises or lets through. */
  datatype Exception =
    | NullPointerException       // dereferencing a null producer, or putting null into a Properties table
    | NumberFormatException      // an integer setting that does not parse
    | KafkaException             // the Kafka client refused to start
    | SerializationException     // Jackson could not write the payload
    | DeliveryException          // the broker reported a failed delivery, or the 10-second wait ran out
    | IllegalArgumentException   // a producer record was given a null topic

  /** A call that returns a value or raises. */
  datatype Result<+T> = Success(value: T) | Failure(error: Exception)

  /** A call that returns nothing or raises. */
  datatype Outcome = Pass | Fail(error: Exception)

  /** A constant of a host enum type; `name` is what Java's `name()` returns. */
  datatype EnumConstant = EnumConstant(name: string)

  /** The host's realm provider, reduced to the realm-id to realm-name table it consults. */
  type Realms = map<string, string>

  /**
    `session.realms().getRealm(id)` followed by `getName()`: the realm's name
    when the id names a known realm, and null otherwise.
   */
  function RealmName(realms: Realms, realmId: Option<string>): (name: Option<string>)
    ensures name.Some? <==> realmId.Some? && realmId.value in realms
    ensures name.Some? ==> name.value == realms[realmId.value]
  {
    if realmId.Some? && realmId.value in realms then Some(realms[realmId.value]) else None
  }

  /** A nullable string as Java's `+` renders it inside a concatenation. */
  function Render(s: Option<string>): (r: string)
    ensures s.Some? ==> r == s.value
    ensures s.None? ==> r == "null"
  {
    s.GetOr("null")
  }
}
