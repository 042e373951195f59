/**
  The listener factory: reads the listener's settings once at start-up,
  applies their defaults, and gathers extra Kafka properties from the
  process environment and the JVM system properties.
 */
module ProviderFactory {

  import opened Common
  import opened JavaStrings

  /** The host's configuration scope for this listener: setting name to raw text. */
  type Scope = map<string, string>

  /** An environment or a system-property table, in the order the JVM iterates it. */
  type Pairs = seq<(string, string)>

  /** "KC_SPI_EVENTS_LISTENER_" + the upper-cased listener id "kafka" + "_PROPS_". */
  const ENV_PREFIX := "KC_SPI_EVENTS_LISTENER_KAFKA_PROPS_"
  /** "spi-events-listener-" + the listener id + "-props.". */
  const SYS_PREFIX := "spi-events-listener-kafka-props."

  // ---------------------------------------------------------------------------
  // Reading the scope

  /** `root.get(key, default)`. */
  function Get(root: Scope, key: string, default: string): string {
    if key in root then root[key] else default
  }

  /** `root.get(key, null)`. */
  function GetOptional(root: Scope, key: string): Option<string> {
    if key in root then Some(root[key]) else None
  }

  /** `Boolean.parseBoolean`: true exactly for "true" in any letter case. */
  predicate ParseBoolean(s: string) {
    AsciiLower(s) == "true"
  }

  /** `root.getBoolean(key, default)`. */
  function GetBoolean(root: Scope, key: string, default: bool): bool {
    if key in root then ParseBoolean(root[key]) else default
  }

  predicate IsDigit(c: char) {
    '0' <= c <= '9'
  }

  predicate AllDigits(s: string) {
    forall i :: 0 <= i < |s| ==> IsDigit(s[i])
  }

  /** The value of a string of decimal digits. */
  function DigitsValue(s: string): (n: nat)
    requires AllDigits(s)
  {
    if s == [] then 0
    else
      var d := s[|s| - 1] as int - '0' as int;
      assert IsDigit(s[|s| - 1]);
      DigitsValue(s[..|s| - 1]) * 10 + d
  }

  /**
    `Integer.parseInt` over ASCII digits: an optional sign and at least one
    digit, with a value that fits in 32 bits.
   */
  function ParseInt(s: string): (r: Option<int>)
    ensures r.Some? ==> -0x8000_0000 <= r.value < 0x8000_0000
    ensures r.Some? ==> |s| > 0 && (r.value < 0 ==> s[0] == '-')
    ensures r.Some? && |s| > 0 && s[0] == '-' ==> r.value <= 0
  {
    var negative := |s| > 0 && s[0] == '-';
    var digits := if |s| > 0 && (s[0] == '-' || s[0] == '+') then s[1..] else s;
    if |digits| == 0 || !AllDigits(digits) then None
    else
      var v: int := DigitsValue(digits);
      var n := if negative then -v else v;
      if -0x8000_0000 <= n < 0x8000_0000 then Some(n) else None
  }

  /** The decimal digits of `n`, most significant first, without leading zeros. */
  function NatText(n: nat): (s: string)
    ensures |s| > 0 && AllDigits(s)
    decreases n
  {
    var c := ('0' as int + n % 10) as char;
    if n < 10 then [c] else NatText(n / 10) + [c]
  }

  /** `Integer.toString(n)`: a '-' before the digits of a negative value, no sign otherwise. */
  function DecimalText(n: int): (s: string)
    ensures |s| > 0 && (s[0] == '-' <==> n < 0)
    ensures n < 0 ==> s[1..] == NatText(-n)
  {
    if n < 0 then "-" + NatText(-n) else NatText(n)
  }

  /** The digits of `n` read back as `n`. */
  lemma {:induction false} NatTextValue(n: nat)
    ensures DigitsValue(NatText(n)) == n
    decreases n
  {
    var s := NatText(n);
    if n < 10 {
      assert s[..|s| - 1] == [];
    } else {
      assert s[..|s| - 1] == NatText(n / 10);
      NatTextValue(n / 10);
    }
  }

  /** Every 32-bit integer written in decimal parses back to itself. */
  lemma ParseIntDecimal(n: int)
    requires -0x8000_0000 <= n < 0x8000_0000
    ensures ParseInt(DecimalText(n)) == Some(n)
  {
    if n < 0 {
      NatTextValue(-n);
    } else {
      NatTextValue(n);
    }
  }

  /** An optional sign before the digits; leading zeros are allowed. */
  lemma ParseIntSignExamples()
    ensures ParseInt("+42") == Some(42) && ParseInt("-42") == Some(-42) && ParseInt("42") == Some(42)
    ensures ParseInt("007") == Some(7)
  {
    var d := "42";
    assert d[..1] == "4" && "4"[..0] == [];
    assert DigitsValue(d) == 42;
    assert "+42"[1..] == d && "-42"[1..] == d;
    var z := "007";
    assert DigitsValue(z[..1]) == 0 by { assert z[..1][..0] == []; }
    assert DigitsValue(z[..2]) == 0 by { assert z[..2][..1] == z[..1]; }
    assert DigitsValue(z) == 7 by { assert z[..2] == z[..|z| - 1]; }
  }

  /** No digits, a stray character, or a doubled sign raise. */
  lemma ParseIntRejectExamples()
    ensures ParseInt("") == None && ParseInt("-") == None && ParseInt("+") == None
    ensures ParseInt("12a") == None && ParseInt("--1") == None
  {
    assert "-"[1..] == [] && "+"[1..] == [];
    var x := "12a";
    assert !IsDigit(x[2]);
    var y := "--1";
    assert y[1..] == "-1" && !IsDigit(y[1..][0]);
  }

  /** 2^31 does not fit; its negation does. */
  lemma ParseIntRangeExamples()
    ensures ParseInt("2147483648") == None
    ensures ParseInt("-2147483648") == Some(-0x8000_0000)
  {
    var t := "2147483648";
    assert DigitsValue(t[..1]) == 2 by { assert t[..1][..0] == []; }
    assert DigitsValue(t[..2]) == 21 by { assert t[..2][..1] == t[..1]; }
    assert DigitsValue(t[..3]) == 214 by { assert t[..3][..2] == t[..2]; }
    assert DigitsValue(t[..4]) == 2147 by { assert t[..4][..3] == t[..3]; }
    assert DigitsValue(t[..5]) == 21474 by { assert t[..5][..4] == t[..4]; }
    assert DigitsValue(t[..6]) == 214748 by { assert t[..6][..5] == t[..5]; }
    assert DigitsValue(t[..7]) == 2147483 by { assert t[..7][..6] == t[..6]; }
    assert DigitsValue(t[..8]) == 21474836 by { assert t[..8][..7] == t[..7]; }
    assert DigitsValue(t[..9]) == 214748364 by { assert t[..9][..8] == t[..8]; }
    assert DigitsValue(t) == 2147483648 by { assert t[..9] == t[..|t| - 1]; }
    assert "-2147483648"[1..] == t;
  }

  /** `root.getInt(key, default)`: an unparsable value raises. */
  function GetInt(root: Scope, key: string, default: int): (r: Result<int>)
    ensures key !in root ==> r == Success(default)
    ensures key in root && ParseInt(root[key]).Some? ==> r == Success(ParseInt(root[key]).value)
    ensures key in root && ParseInt(root[key]).None? ==> r == Failure(NumberFormatException)
  {
    if key !in root then Success(default)
    else match ParseInt(root[key])
      case Some(n) => Success(n)
      case None => Failure(NumberFormatException)
  }

  /** A setting holding the decimal text of a 32-bit integer is read as that integer. */
  lemma GetIntReadsDecimal(root: Scope, key: string, default: int, n: int)
    requires -0x8000_0000 <= n < 0x8000_0000
    ensures GetInt(root[key := DecimalText(n)], key, default) == Success(n)
  {
    ParseIntDecimal(n);
  }

  // ---------------------------------------------------------------------------
  // The producer configuration

  const DEFAULT_TOPIC_USER := "keycloak.user.events"
  const DEFAULT_TOPIC_ADMIN := "keycloak.admin.events"

  const RETRIES_KEY := "producer.retries"
  const LINGER_KEY := "producer.linger-ms"
  const BATCH_KEY := "producer.batch-size"
  const DELIVERY_TIMEOUT_KEY := "producer.delivery-timeout-ms"
  const REQUEST_TIMEOUT_KEY := "producer.request-timeout-ms"
  const IDEMPOTENCE_KEY := "producer.enable-idempotence"
  const MAX_IN_FLIGHT_KEY := "producer.max-in-flight-requests-per-connection"

  /** The full Kafka configuration the factory assembles; null fields are `None`. */
  datatype ClientConfig = ClientConfig(
    bootstrapServers: string,
    clientId: string,
    acks: string,
    retries: int,
    lingerMs: int,
    batchSize: int,
    compressionType: Option<string>,
    deliveryTimeoutMs: int,
    requestTimeoutMs: int,
    enableIdempotence: bool,
    maxInFlightRequestsPerConnection: int,
    securityProtocol: Option<string>,
    saslMechanism: Option<string>,
    saslJaasConfig: Option<string>,
    sslTruststoreLocation: Option<string>,
    sslTruststorePassword: Option<string>,
    sslKeystoreLocation: Option<string>,
    sslKeystorePassword: Option<string>,
    sslKeyPassword: Option<string>,
    extraProps: map<string, string>)

  /** The in-flight default that the idempotence flag selects. */
  function DefaultMaxInFlight(enableIdempotence: bool): int {
    if enableIdempotence then 5 else 1
  }

  /** Every integer setting of the scope is either unset or parsable, so building cannot fail. */
  predicate IntSettingsParse(root: Scope) {
    && GetInt(root, RETRIES_KEY, 3).Success?
    && GetInt(root, LINGER_KEY, 5).Success?
    && GetInt(root, BATCH_KEY, 16384).Success?
    && GetInt(root, DELIVERY_TIMEOUT_KEY, 120_000).Success?
    && GetInt(root, REQUEST_TIMEOUT_KEY, 30_000).Success?
    && GetInt(root, MAX_IN_FLIGHT_KEY, DefaultMaxInFlight(GetBoolean(root, IDEMPOTENCE_KEY, true))).Success?
  }

  /** The configuration the factory assembles from `root` and the gathered extras. */
  function ClientConfigOf(root: Scope, extra: map<string, string>): ClientConfig
    requires IntSettingsParse(root)
  {
    var idempotence := GetBoolean(root, IDEMPOTENCE_KEY, true);
    ClientConfig(
      Get(root, "bootstrap-servers", "localhost:9092"),
      Get(root, "client-id", "keycloak"),
      Get(root, "producer.acks", "all"),
      GetInt(root, RETRIES_KEY, 3).value,
      GetInt(root, LINGER_KEY, 5).value,
      GetInt(root, BATCH_KEY, 16384).value,
      GetOptional(root, "producer.compression-type"),
      GetInt(root, DELIVERY_TIMEOUT_KEY, 120_000).value,
      GetInt(root, REQUEST_TIMEOUT_KEY, 30_000).value,
      idempotence,
      GetInt(root, MAX_IN_FLIGHT_KEY, DefaultMaxInFlight(idempotence)).value,
      GetOptional(root, "security.protocol"),
      GetOptional(root, "sasl.mechanism"),
      GetOptional(root, "sasl.jaas-config"),
      GetOptional(root, "ssl.truststore.location"),
      GetOptional(root, "ssl.truststore.password"),
      GetOptional(root, "ssl.keystore.location"),
      GetOptional(root, "ssl.keystore.password"),
      GetOptional(root, "ssl.key.password"),
      extra)
  }

  /** With nothing configured, every setting takes its documented default. */
  lemma DefaultsWhenUnset(extra: map<string, string>)
    ensures IntSettingsParse(map[])
    ensures ClientConfigOf(map[], extra) ==
      ClientConfig("localhost:9092", "keycloak", "all", 3, 5, 16384, None, 120_000, 30_000, true, 5,
                   None, None, None, None, None, None, None, None, extra)
  {
  }

  /** Unset, the in-flight limit is 5 with idempotence and 1 without it. */
  lemma MaxInFlightDefault(root: Scope, extra: map<string, string>)
    requires IntSettingsParse(root) && MAX_IN_FLIGHT_KEY !in root
    ensures var c := ClientConfigOf(root, extra);
      c.maxInFlightRequestsPerConnection == if c.enableIdempotence then 5 else 1
  {
  }

  /** A configured in-flight limit is taken as it is, whether idempotence is on or off. */
  lemma ExplicitMaxInFlightWins(root: Scope, extra: map<string, string>)
    requires IntSettingsParse(root) && MAX_IN_FLIGHT_KEY in root
    ensures ClientConfigOf(root, extra).maxInFlightRequestsPerConnection == ParseInt(root[MAX_IN_FLIGHT_KEY]).value
  {
  }

  // ---------------------------------------------------------------------------
  // Extra properties from the environment and the system properties

  /**
    The environment-name rewrite of a variable's tail: lower-case it, then
    turn "__" into a placeholder "@@", every remaining "_" into ".", and the
    placeholder into "_".
   */
  function EnvTailToProperty(tail: string): string {
    ReplaceAll(ReplaceAll(ReplaceAll(AsciiLower(tail), "__", "@@"), "_", "."), "@@", "_")
  }

  /** The property an environment variable carrying `ENV_PREFIX` names. */
  function EnvPropertyName(name: string): string
    requires ENV_PREFIX <= name
  {
    EnvTailToProperty(name[|ENV_PREFIX|..])
  }

  /**
    The intended unescaping, read left to right in one pass: a doubled
    underscore is a literal underscore, a single one separates name parts.
   */
  function Unescape(s: string): string
    decreases |s|
  {
    if s == [] then []
    else if |s| >= 2 && s[0] == '_' && s[1] == '_' then "_" + Unescape(s[2..])
    else if s[0] == '_' then "." + Unescape(s[1..])
    else [s[0]] + Unescape(s[1..])
  }

  /** The three-pass replace chain agrees with the one-pass reading on every name without '@'. */
  lemma {:induction false} ReplaceChainIsUnescape(s: string)
    requires '@' !in s
    ensures ReplaceAll(ReplaceAll(ReplaceAll(s, "__", "@@"), "_", "."), "@@", "_") == Unescape(s)
    decreases |s|
  {
    if s == [] {
    } else if |s| >= 2 && s[0] == '_' && s[1] == '_' {
      var t := s[2..];
      assert s == "__" + t;
      ReplaceAtFront(t, "__", "@@");
      var x := ReplaceAll(t, "__", "@@");
      ReplaceSkips("@@" + x, "_", ".");
      assert ("@@" + x)[1..] == "@" + x;
      ReplaceSkips("@" + x, "_", ".");
      assert ("@" + x)[1..] == x;
      var y := ReplaceAll(x, "_", ".");
      assert ReplaceAll("@@" + x, "_", ".") == "@@" + y;
      ReplaceAtFront(y, "@@", "_");
      ReplaceChainIsUnescape(t);
    } else if s[0] == '_' {
      var t := s[1..];
      ReplaceSkips(s, "__", "@@");
      var x := ReplaceAll(t, "__", "@@");
      assert ReplaceAll(s, "__", "@@") == "_" + x;
      ReplaceAtFront(x, "_", ".");
      var y := ReplaceAll(x, "_", ".");
      ReplaceSkips("." + y, "@@", "_");
      assert ("." + y)[1..] == y;
      ReplaceChainIsUnescape(t);
    } else {
      var t := s[1..];
      ReplaceSkips(s, "__", "@@");
      var x := ReplaceAll(t, "__", "@@");
      ReplaceSkips([s[0]] + x, "_", ".");
      assert ([s[0]] + x)[1..] == x;
      var y := ReplaceAll(x, "_", ".");
      ReplaceSkips([s[0]] + y, "@@", "_");
      assert ([s[0]] + y)[1..] == y;
      ReplaceChainIsUnescape(t);
    }
  }

  /** For every tail without '@', the environment rewrite is the one-pass unescaping of the lower-cased tail. */
  lemma EnvTailIsUnescape(tail: string)
    requires '@' !in tail
    ensures EnvTailToProperty(tail) == Unescape(AsciiLower(tail))
  {
    LowerKeepsOut(tail, '@');
    ReplaceChainIsUnescape(AsciiLower(tail));
  }

  /** A name part without underscores is copied by the unescaping. */
  lemma {:induction false} UnescapePlain(a: string, rest: string)
    requires '_' !in a
    ensures Unescape(a + rest) == a + Unescape(rest)
  {
    if a != [] {
      var s := a + rest;
      assert s[0] == a[0] && a[0] != '_';
      assert s[1..] == a[1..] + rest;
      assert Unescape(s) == [a[0]] + Unescape(s[1..]);
      UnescapePlain(a[1..], rest);
      assert Unescape(s) == [a[0]] + (a[1..] + Unescape(rest));
      assert [a[0]] + a[1..] == a;
    } else {
      assert a + rest == rest;
    }
  }

  /** "A_B" names the property "a.b". */
  lemma EnvSingleSeparator(a: string, b: string)
    requires '_' !in a && '@' !in a && '_' !in b && '@' !in b
    ensures EnvTailToProperty(a + "_" + b) == AsciiLower(a) + "." + AsciiLower(b)
  {
    var t := a + "_" + b;
    assert '@' !in t;
    EnvTailIsUnescape(t);
    LowerAround(a, "_", b);
    LowerKeepsOut(a, '_');
    LowerKeepsOut(b, '_');
    UnescapeJoined(AsciiLower(a), "_", AsciiLower(b));
  }

  /** "A__B" names the property "a_b": the doubled underscore is a literal one, not a separator. */
  lemma EnvDoubledSeparator(a: string, b: string)
    requires '_' !in a && '@' !in a && '_' !in b && '@' !in b
    ensures EnvTailToProperty(a + "__" + b) == AsciiLower(a) + "_" + AsciiLower(b)
  {
    var t := a + "__" + b;
    assert '@' !in t;
    EnvTailIsUnescape(t);
    LowerAround(a, "__", b);
    LowerKeepsOut(a, '_');
    LowerKeepsOut(b, '_');
    UnescapeJoined(AsciiLower(a), "__", AsciiLower(b));
  }

  /** The variables `..._PROPS_FOO_BAR` and `..._PROPS_SSL__ENGINE` name the properties "foo.bar" and "ssl_engine". */
  lemma EnvNameExamples()
    ensures EnvPropertyName(ENV_PREFIX + "FOO_BAR") == "foo.bar"
    ensures EnvPropertyName(ENV_PREFIX + "SSL__ENGINE") == "ssl_engine"
  {
    assert (ENV_PREFIX + "FOO_BAR")[|ENV_PREFIX|..] == "FOO" + "_" + "BAR";
    EnvSingleSeparator("FOO", "BAR");
    assert (ENV_PREFIX + "SSL__ENGINE")[|ENV_PREFIX|..] == "SSL" + "__" + "ENGINE";
    EnvDoubledSeparator("SSL", "ENGINE");
  }

  /**
    A tail that already holds "@@" collides with the placeholder: "A@@B"
    names the same property "a_b" as "A__B".
   */
  lemma PlaceholderCollision()
    ensures EnvTailToProperty("A@@B") == "a_b"
    ensures EnvTailToProperty("A__B") == "a_b"
  {
    var s := "a@@b";
    CollisionLowered();
    ReplaceAbsent(s, "__", "@@");
    ReplaceAbsent(s, "_", ".");
    CollisionPlaceholderReplaced();
    EnvDoubledSeparator("A", "B");
  }

  /** Lower-casing keeps the '@' characters of "A@@B". */
  lemma CollisionLowered()
    ensures AsciiLower("A@@B") == "a@@b"
  {
    var t := "A@@B";
    assert t == "A" + "@@B";
    LowerConcat("A", "@@B");
    assert AsciiLower("A") == "a";
    assert AsciiLower("@@B") == "@@b";
  }

  /** The last pass turns the kept "@@" into '_'. */
  lemma CollisionPlaceholderReplaced()
    ensures ReplaceAll("a@@b", "@@", "_") == "a_b"
  {
    var s := "a@@b";
    ReplaceSkips(s, "@@", "_");
    assert s[1..] == "@@" + "b";
    ReplaceAtFront("b", "@@", "_");
  }

  /** Lower-casing leaves a separator of underscores between two parts in place. */
  lemma LowerAround(a: string, sep: string, b: string)
    requires sep == "_" || sep == "__"
    ensures AsciiLower(a + sep + b) == AsciiLower(a) + sep + AsciiLower(b)
  {
    LowerConcat(a + sep, b);
    LowerConcat(a, sep);
    assert AsciiLower(sep) == sep;
  }

  /** Between two plain parts, a single underscore becomes '.' and a doubled one '_'. */
  lemma UnescapeJoined(a: string, sep: string, b: string)
    requires sep == "_" || sep == "__"
    requires '_' !in a && '_' !in b
    ensures Unescape(a + sep + b) == a + (if sep == "_" then "." else "_") + b
  {
    UnescapePlain(a, sep + b);
    assert a + sep + b == a + (sep + b);
    UnescapeSeparator(sep, b);
  }

  /** A single underscore before a plain part becomes '.', a doubled one becomes '_'. */
  lemma UnescapeSeparator(sep: string, b: string)
    requires sep == "_" || sep == "__"
    requires '_' !in b
    ensures Unescape(sep + b) == (if sep == "_" then "." else "_") + b
  {
    var s := sep + b;
    assert s[|sep|..] == b;
    if sep == "_" && |b| > 0 {
      assert s[1] == b[0];
    }
    UnescapePlain(b, []);
    assert b + [] == b;
  }

  /** The extras the environment loop has put after reading `env`. */
  function EnvExtras(env: Pairs): map<string, string>
    decreases |env|
  {
    if env == [] then map[]
    else
      var m := EnvExtras(env[..|env| - 1]);
      var (name, value) := env[|env| - 1];
      if ENV_PREFIX <= name then m[EnvPropertyName(name) := value] else m
  }

  /** The extras after the system-property loop, starting from what the environment put. */
  function SysExtras(m: map<string, string>, sys: Pairs): map<string, string>
    decreases |sys|
  {
    if sys == [] then m
    else
      var m' := SysExtras(m, sys[..|sys| - 1]);
      var (name, value) := sys[|sys| - 1];
      if SYS_PREFIX <= name then m'[name[|SYS_PREFIX|..] := value] else m'
  }

  /** The property names the environment contributes: only prefixed variables count. */
  function EnvKeys(env: Pairs): set<string> {
    set i | 0 <= i < |env| && ENV_PREFIX <= env[i].0 :: EnvPropertyName(env[i].0)
  }

  /** The property names the system properties contribute, taken verbatim after the prefix. */
  function SysKeys(sys: Pairs): set<string> {
    set i | 0 <= i < |sys| && SYS_PREFIX <= sys[i].0 :: sys[i].0[|SYS_PREFIX|..]
  }

  /** The environment yields exactly the names of its prefixed variables; the rest contribute nothing. */
  lemma {:induction false} EnvExtrasKeys(env: Pairs)
    ensures EnvExtras(env).Keys == EnvKeys(env)
    decreases |env|
  {
    if env != [] {
      var init := env[..|env| - 1];
      EnvExtrasKeys(init);
      assert forall i :: 0 <= i < |init| ==> init[i] == env[i];
      var name := env[|env| - 1].0;
      if ENV_PREFIX <= name {
        assert EnvKeys(env) == EnvKeys(init) + {EnvPropertyName(name)};
      } else {
        assert EnvKeys(env) == EnvKeys(init);
      }
    }
  }

  /**
    The system properties add their own names and leave every other entry
    of the map they start from as it was.
   */
  lemma {:induction false} SysExtrasKeys(m: map<string, string>, sys: Pairs)
    ensures SysExtras(m, sys).Keys == m.Keys + SysKeys(sys)
    ensures forall k :: k in m && k !in SysKeys(sys) ==> SysExtras(m, sys)[k] == m[k]
    decreases |sys|
  {
    if sys != [] {
      var init := sys[..|sys| - 1];
      SysExtrasKeys(m, init);
      assert forall i :: 0 <= i < |init| ==> init[i] == sys[i];
      var name := sys[|sys| - 1].0;
      if SYS_PREFIX <= name {
        assert SysKeys(sys) == SysKeys(init) + {name[|SYS_PREFIX|..]};
      } else {
        assert SysKeys(sys) == SysKeys(init);
      }
    }
  }

  /**
    The last system property that names `k` decides its value, whatever the
    map held before: on a collision with the environment, the system
    property wins.
   */
  lemma {:induction false} SysExtrasLastWins(m: map<string, string>, sys: Pairs, i: nat, k: string, v: string)
    requires i < |sys| && sys[i] == (SYS_PREFIX + k, v)
    requires forall j :: i < j < |sys| ==> sys[j].0 != SYS_PREFIX + k
    ensures k in SysExtras(m, sys) && SysExtras(m, sys)[k] == v
    decreases |sys|
  {
    var init := sys[..|sys| - 1];
    var name := sys[|sys| - 1].0;
    assert (SYS_PREFIX + k)[|SYS_PREFIX|..] == k;
    if i < |sys| - 1 {
      SysExtrasLastWins(m, init, i, k, v);
      if SYS_PREFIX <= name {
        assert name != SYS_PREFIX + k;
        assert name == SYS_PREFIX + name[|SYS_PREFIX|..];
      }
    }
  }

  /**
    The last prefixed variable whose rewritten name is `k` decides the value
    the environment loop leaves under `k`.
   */
  lemma {:induction false} EnvExtrasLastWins(env: Pairs, i: nat, k: string)
    requires i < |env| && ENV_PREFIX <= env[i].0 && EnvPropertyName(env[i].0) == k
    requires forall j :: i < j < |env| && ENV_PREFIX <= env[j].0 ==> EnvPropertyName(env[j].0) != k
    ensures k in EnvExtras(env) && EnvExtras(env)[k] == env[i].1
    decreases |env|
  {
    if i < |env| - 1 {
      var init := env[..|env| - 1];
      assert forall j :: 0 <= j < |init| ==> init[j] == env[j];
      EnvExtrasLastWins(init, i, k);
    }
  }

  /** The extras `collectExtraProps` returns: the environment's, overwritten by the system properties'. */
  function ExtraProps(env: Pairs, sys: Pairs): map<string, string> {
    SysExtras(EnvExtras(env), sys)
  }

  /** A system property overrides an environment variable that names the same property. */
  lemma SystemPropertyWins(env: Pairs, sys: Pairs, i: nat, k: string, v: string)
    requires i < |sys| && sys[i] == (SYS_PREFIX + k, v)
    requires forall j :: i < j < |sys| ==> sys[j].0 != SYS_PREFIX + k
    ensures k in ExtraProps(env, sys) && ExtraProps(env, sys)[k] == v
  {
    SysExtrasLastWins(EnvExtras(env), sys, i, k, v);
  }

  /**
    An environment variable's value reaches the extras under its rewritten
    name when no later variable and no system property names the same key.
   */
  lemma EnvValueReachesExtras(env: Pairs, sys: Pairs, i: nat, k: string)
    requires i < |env| && ENV_PREFIX <= env[i].0 && EnvPropertyName(env[i].0) == k
    requires forall j :: i < j < |env| && ENV_PREFIX <= env[j].0 ==> EnvPropertyName(env[j].0) != k
    requires forall j :: 0 <= j < |sys| ==> sys[j].0 != SYS_PREFIX + k
    ensures k in ExtraProps(env, sys) && ExtraProps(env, sys)[k] == env[i].1
  {
    EnvExtrasLastWins(env, i, k);
    SysExtrasKeys(EnvExtras(env), sys);
    forall j | 0 <= j < |sys| && SYS_PREFIX <= sys[j].0
      ensures sys[j].0[|SYS_PREFIX|..] != k
    {
      assert sys[j].0 == SYS_PREFIX + sys[j].0[|SYS_PREFIX|..];
    }
  }

  /** `KC_SPI_EVENTS_LISTENER_KAFKA_PROPS_FOO_BAR=123` becomes the extra property foo.bar=123. */
  lemma EnvValueExample()
    ensures "foo.bar" in ExtraProps([(ENV_PREFIX + "FOO_BAR", "123")], [])
    ensures ExtraProps([(ENV_PREFIX + "FOO_BAR", "123")], [])["foo.bar"] == "123"
  {
    EnvNameExamples();
    EnvValueReachesExtras([(ENV_PREFIX + "FOO_BAR", "123")], [], 0, "foo.bar");
  }

  class KafkaEventListenerProviderFactory {
    /** `None` stands for Java's null, the value the topics hold before `init`. */
    var topicUser: Option<string>
    var topicAdmin: Option<string>
    var sync: bool
    var enableUserEvents: bool
    var enableAdminEvents: bool
    var cfg: Option<ClientConfig>

    /** A factory before `init`: Java's default field values. */
    constructor ()
      ensures topicUser.None? && topicAdmin.None?
      ensures cfg.None? && !sync && !enableUserEvents && !enableAdminEvents
    {
      topicUser, topicAdmin := None, None;
      sync, enableUserEvents, enableAdminEvents := false, false, false;
      cfg := None;
    }

    /**
      Reads the scope setting by setting. An integer setting that does not
      parse raises; the fields assigned before it keep their new values and
      the configuration is not replaced.
     */
    method Init(root: Scope, env: Pairs, sys: Pairs) returns (o: Outcome)
      modifies this
      ensures topicUser == Some(Get(root, "topic-user", DEFAULT_TOPIC_USER))
      ensures topicAdmin == Some(Get(root, "topic-admin", DEFAULT_TOPIC_ADMIN))
      ensures sync == GetBoolean(root, "sync", false)
      ensures enableUserEvents == GetBoolean(root, "enable-user-events", true)
      ensures enableAdminEvents == GetBoolean(root, "enable-admin-events", true)
      ensures o.Pass? <==> IntSettingsParse(root)
      ensures o.Fail? ==> o.error == NumberFormatException && cfg == old(cfg)
      ensures o.Pass? ==> cfg == Some(ClientConfigOf(root, ExtraProps(env, sys)))
    {
      topicUser := Some(Get(root, "topic-user", DEFAULT_TOPIC_USER));
      topicAdmin := Some(Get(root, "topic-admin", DEFAULT_TOPIC_ADMIN));
      sync := GetBoolean(root, "sync", false);
      enableUserEvents := GetBoolean(root, "enable-user-events", true);
      enableAdminEvents := GetBoolean(root, "enable-admin-events", true);

      var bootstrapServers := Get(root, "bootstrap-servers", "localhost:9092");
      var clientId := Get(root, "client-id", "keycloak");
      var acks := Get(root, "producer.acks", "all");
      var retries := GetInt(root, RETRIES_KEY, 3);
      if retries.Failure? { return Fail(retries.error); }
      var lingerMs := GetInt(root, LINGER_KEY, 5);
      if lingerMs.Failure? { return Fail(lingerMs.error); }
      var batchSize := GetInt(root, BATCH_KEY, 16384);
      if batchSize.Failure? { return Fail(batchSize.error); }
      var compressionType := GetOptional(root, "producer.compression-type");
      var deliveryTimeoutMs := GetInt(root, DELIVERY_TIMEOUT_KEY, 120_000);
      if deliveryTimeoutMs.Failure? { return Fail(deliveryTimeoutMs.error); }
      var requestTimeoutMs := GetInt(root, REQUEST_TIMEOUT_KEY, 30_000);
      if requestTimeoutMs.Failure? { return Fail(requestTimeoutMs.error); }
      var enableIdempotence := GetBoolean(root, IDEMPOTENCE_KEY, true);
      var defaultMif := DefaultMaxInFlight(enableIdempotence);
      var maxInFlight := GetInt(root, MAX_IN_FLIGHT_KEY, defaultMif);
      if maxInFlight.Failure? { return Fail(maxInFlight.error); }

      var extra := CollectExtraProps(env, sys);
      cfg := Some(ClientConfig(
        bootstrapServers, clientId, acks, retries.value, lingerMs.value, batchSize.value,
        compressionType, deliveryTimeoutMs.value, requestTimeoutMs.value,
        enableIdempotence, maxInFlight.value,
        GetOptional(root, "security.protocol"),
        GetOptional(root, "sasl.mechanism"),
        GetOptional(root, "sasl.jaas-config"),
        GetOptional(root, "ssl.truststore.location"),
        GetOptional(root, "ssl.truststore.password"),
        GetOptional(root, "ssl.keystore.location"),
        GetOptional(root, "ssl.keystore.password"),
        GetOptional(root, "ssl.key.password"),
        extra));
      return Pass;
    }

    /**
      Gathers extra Kafka properties: first every prefixed environment
      variable, renamed by the environment rewrite, then every prefixed
      system property, with its name taken verbatim; a later put replaces
      an earlier one.
     */
    static method CollectExtraProps(env: Pairs, sys: Pairs) returns (extra: map<string, string>)
      ensures extra == ExtraProps(env, sys)
    {
      extra := map[];
      var i := 0;
      while i < |env|
        invariant 0 <= i <= |env|
        invariant extra == EnvExtras(env[..i])
      {
        var (name, value) := env[i];
        if ENV_PREFIX <= name {
          extra := extra[EnvPropertyName(name) := value];
        }
        assert env[..i + 1][..i] == env[..i];
        i := i + 1;
      }
      assert env[..|env|] == env;
      ghost var fromEnv := extra;
      var j := 0;
      while j < |sys|
        invariant 0 <= j <= |sys|
        invariant extra == SysExtras(fromEnv, sys[..j])
      {
        var (name, value) := sys[j];
        if SYS_PREFIX <= name {
          extra := extra[name[|SYS_PREFIX|..] := value];
        }
        assert sys[..j + 1][..j] == sys[..j];
        j := j + 1;
      }
      assert sys[..|sys|] == sys;
    }
  }
}
