/** config/config.go: reading settings from the environment with
    fallbacks. The environment is a map; an unset variable reads as "", as
    os.Getenv returns it. */
module Config {
  import opened Common
  import opened Strings

  type Env = map<string, string>

  /** os.Getenv. */
  function Getenv(env: Env, key: string): string
  {
    if key in env then env[key] else ""
  }

  /** getEnv: the variable when it is non-empty, the default otherwise. */
  function GetEnv(env: Env, key: string, defaultValue: string): (r: string)
    ensures Getenv(env, key) != "" ==> r == Getenv(env, key)
    ensures Getenv(env, key) == "" ==> r == defaultValue
  {
    var value := Getenv(env, key);
    if value != "" then value else defaultValue
  }

  const ErrSyntax := "invalid syntax"
  const ErrRange := "value out of range"

  /** The syntax strconv.Atoi accepts: one or more decimal digits,
      optionally after a single '+' or '-'. */
  predicate IntSyntax(s: string)
  {
    (s != [] && AllDigits(s)) || (|s| >= 2 && (s[0] == '+' || s[0] == '-') && AllDigits(s[1..]))
  }

  /** The integer a string of that syntax spells. */
  function IntValue(s: string): int
    requires IntSyntax(s)
  {
    if s[0] == '-' then -(DigitsValue(s[1..]) as int)
    else if s[0] == '+' then DigitsValue(s[1..])
    else DigitsValue(s)
  }

  const MaxUint64: nat := 0xFFFF_FFFF_FFFF_FFFF

  /** The text after an optional leading '+' or '-'. */
  function Unsigned(s: string): (u: string)
    ensures |u| <= |s|
  {
    if s != [] && (s[0] == '+' || s[0] == '-') then s[1..] else s
  }

  /** Whether the digits after the sign pass 2^64 - 1 before anything
      else goes wrong: strconv.ParseUint stops with a range error at the
      first digit that overflows, before it looks at any later character. */
  predicate OverflowsFirst(s: string)
  {
    var u := Unsigned(s);
    exists j :: 0 < j <= |u| && AllDigits(u[..j]) && DigitsValue(u[..j]) > MaxUint64
  }

  /** strconv.Atoi on a 64-bit platform: an optional sign, then one or more
      decimal digits, with the value inside int64. The digits are read left
      to right, so an overflowing digit run is a range error even when a
      non-digit follows it. */
  function Atoi(s: string): (r: Result<int>)
    ensures r.Ok? <==> IntSyntax(s) && MinInt64 <= IntValue(s) <= MaxInt64
    ensures r.Ok? ==> r.value == IntValue(s)
    ensures r.Err? ==> r.error == ErrSyntax || r.error == ErrRange
    ensures IntSyntax(s) && !(MinInt64 <= IntValue(s) <= MaxInt64) ==> r == Err(ErrRange)
  {
    var digits := Unsigned(s);
    if digits == [] then Err(ErrSyntax)
    else
      var run := DigitRun(digits);
      if DigitsValue(digits[..run]) > MaxUint64 then
        assert run == |digits| ==> digits[..run] == digits;
        Err(ErrRange)
      else if run < |digits| then Err(ErrSyntax)
      else
        assert digits[..run] == digits;
        var magnitude := DigitsValue(digits);
        var v: int := if s[0] == '-' then -(magnitude as int) else magnitude;
        if v < MinInt64 || v > MaxInt64 then Err(ErrRange) else Ok(v)
  }

  /** A digit string is worth at least as much as any of its prefixes. */
  lemma {:induction false} DigitsValuePrefix(t: string, j: nat)
    requires AllDigits(t) && j <= |t|
    ensures AllDigits(t[..j]) && DigitsValue(t[..j]) <= DigitsValue(t)
    decreases |t| - j
  {
    if j < |t| {
      var shorter := t[..|t| - 1];
      assert AllDigits(shorter);
      DigitsValuePrefix(shorter, j);
      assert shorter[..j] == t[..j];
    } else {
      assert t[..j] == t;
    }
  }

  /** Which error Atoi reports: a range error when the digit run
      overflows first, and otherwise a syntax error for anything that is
      not a sign followed by digits. */
  lemma AtoiErrors(s: string)
    ensures OverflowsFirst(s) ==> Atoi(s) == Err(ErrRange)
    ensures !OverflowsFirst(s) && !IntSyntax(s) ==> Atoi(s) == Err(ErrSyntax)
  {
    var u := Unsigned(s);
    if u != [] {
      var run := DigitRun(u);
      if OverflowsFirst(s) {
        var j :| 0 < j <= |u| && AllDigits(u[..j]) && DigitsValue(u[..j]) > MaxUint64;
        DigitsValuePrefix(u[..run], j);
        assert u[..run][..j] == u[..j];
      } else {
        if run == |u| {
          assert u[..run] == u;
        }
      }
    }
  }

  /** A number past 2^64 - 1 followed by a letter, such as
      "99999999999999999999x", is a range error, not a syntax error. */
  lemma OverflowBeforeNonDigit(n: nat, c: char)
    requires n > MaxUint64 && !IsDigit(c)
    ensures Atoi(Decimal(n) + [c]) == Err(ErrRange)
  {
    var s := Decimal(n) + [c];
    assert s[0] == Decimal(n)[0];
    assert Unsigned(s) == s;
    assert s[..|Decimal(n)|] == Decimal(n);
    AtoiErrors(s);
  }

  /** strconv.Itoa. */
  function Itoa(n: int): string
  {
    if n < 0 then "-" + Decimal(-n) else Decimal(n)
  }

  /** Atoi reads back every int64 that Itoa writes. */
  lemma AtoiItoa(n: int)
    requires MinInt64 <= n <= MaxInt64
    ensures Atoi(Itoa(n)) == Ok(n)
  {
    if n < 0 {
      assert Itoa(n)[1..] == Decimal(-n);
    }
  }

  /** getEnvAsInt: the parsed variable when it is non-empty and parses, the
      default otherwise. */
  function GetEnvAsInt(env: Env, key: string, defaultValue: int): (r: int)
    ensures Getenv(env, key) != "" && Atoi(Getenv(env, key)).Ok? ==> r == Atoi(Getenv(env, key)).value
    ensures Getenv(env, key) == "" || Atoi(Getenv(env, key)).Err? ==> r == defaultValue
  {
    var value := Getenv(env, key);
    if value != "" then
      match Atoi(value)
      case Ok(v) => v
      case Err(_) => defaultValue
    else defaultValue
  }

  const Two63: nat := 0x8000_0000_0000_0000

  const ErrInvalidDuration := "time: invalid duration"
  const ErrMissingUnit := "time: missing unit in duration"
  const ErrUnknownUnit := "time: unknown unit in duration"

  /** The unit table of time.ParseDuration, including both micro signs,
      looked up by length and then character by character. */
  function UnitValue(u: string): (r: Option<nat>)
    ensures r.Some? ==> r.value == Nanosecond || r.value == Microsecond || r.value == Millisecond
                        || r.value == Second || r.value == Minute || r.value == Hour
  {
    if |u| == 1 then
      if u[0] == 's' then Some(Second)
      else if u[0] == 'm' then Some(Minute)
      else if u[0] == 'h' then Some(Hour)
      else None
    else if |u| == 2 && u[1] == 's' then
      if u[0] == 'n' then Some(Nanosecond)
      else if u[0] == 'u' || u[0] == '\U{00B5}' || u[0] == '\U{03BC}' then Some(Microsecond)
      else if u[0] == 'm' then Some(Millisecond)
      else None
    else None
  }

  /** The table has exactly the eight names of time.ParseDuration. */
  lemma UnitTable(u: string)
    ensures UnitValue(u).Some? <==> u in {"ns", "us", "\U{00B5}s", "\U{03BC}s", "ms", "s", "m", "h"}
    ensures UnitValue("ns") == Some(Nanosecond) && UnitValue("ms") == Some(Millisecond)
    ensures UnitValue("us") == UnitValue("\U{00B5}s") == UnitValue("\U{03BC}s") == Some(Microsecond)
    ensures UnitValue("s") == Some(Second) && UnitValue("m") == Some(Minute) && UnitValue("h") == Some(Hour)
  {
    if |u| == 1 {
      assert u == [u[0]];
    } else if |u| == 2 {
      assert u == [u[0], u[1]];
    }
  }

  predicate IsUnitChar(c: char) { c != '.' && !IsDigit(c) }

  /** Length of the longest prefix of `s` satisfying IsDigit. */
  function DigitRun(s: string): (n: nat)
    ensures n <= |s| && AllDigits(s[..n]) && (n < |s| ==> !IsDigit(s[n]))
  {
    if s == [] || !IsDigit(s[0]) then 0
    else
      var n := 1 + DigitRun(s[1..]);
      assert s[..n] == [s[0]] + s[1..][..n - 1];
      n
  }

  /** Length of the unit after a number: the longest prefix holding no digit
      and no '.'. */
  function UnitRun(s: string): (n: nat)
    ensures n <= |s| && (forall k :: 0 <= k < n ==> IsUnitChar(s[k])) && (n < |s| ==> !IsUnitChar(s[n]))
  {
    if s == [] || !IsUnitChar(s[0]) then 0 else 1 + UnitRun(s[1..])
  }

  /** leadingFraction: the fraction digits accumulate into `x` and `scale`
      until one more digit would pass 2^63; later digits are consumed but
      ignored. */
  function Fraction(digits: string, x: nat, scale: nat, overflow: bool): (r: (nat, nat))
    requires AllDigits(digits)
  {
    if digits == [] then (x, scale)
    else if overflow || x > (Two63 - 1) / 10 then Fraction(digits[1..], x, scale, true)
    else
      var y := x * 10 + DigitValue(digits[0]);
      if y > Two63 then Fraction(digits[1..], x, scale, true)
      else Fraction(digits[1..], y, scale * 10, false)
  }

  /** The number at the head of a duration component: its whole part, the
      fraction kept by leadingFraction with its scale, where the number
      ends, and how many digits it has on either side of the '.'. */
  datatype Number = Number(whole: nat, frac: nat, scale: nat, end: nat, digits: nat)

  function ScanNumber(s: string): (num: Number)
    ensures num.end <= |s|
    ensures num.digits == 0 ==> num.end <= 1
  {
    var n := DigitRun(s);
    var hasDot := n < |s| && s[n] == '.';
    var m := if hasDot then DigitRun(s[n + 1..]) else 0;
    var frac := if hasDot then Fraction(s[n + 1..][..m], 0, 1, false) else (0, 1);
    Number(DigitsValue(s[..n]), frac.0, frac.1, if hasDot then n + 1 + m else n, n + m)
  }

  /** The nanoseconds of one component, or None when Go reports overflow.
      Go adds the fraction through float64; here it is truncated exactly. */
  function ScaledComponent(num: Number, unit: nat): (r: Option<nat>)
    requires unit >= 1
    ensures r.Some? ==> r.value <= Two63
  {
    if num.whole > Two63 / unit then None
    else
      var w := if num.frac > 0 && num.scale > 0 then num.whole * unit + num.frac * unit / num.scale
               else num.whole * unit;
      if w > Two63 then None else Some(w)
  }

  /** The component at the head of `s`: its nanoseconds and its length.
      Go's leadingInt rejects the whole part as soon as a prefix exceeds
      2^63; prefixes only grow, so that is the same as the whole part
      exceeding 2^63. */
  function LeadingComponent(s: string): (r: Result<(nat, nat)>)
    requires s != []
    ensures r.Ok? ==> r.value.0 <= Two63 && 1 <= r.value.1 <= |s|
  {
    if !(s[0] == '.' || IsDigit(s[0])) then Err(ErrInvalidDuration)
    else
      var num := ScanNumber(s);
      if num.whole > Two63 then Err(ErrInvalidDuration)
      else if num.digits == 0 then Err(ErrInvalidDuration)
      else
        var rest := s[num.end..];
        var i := UnitRun(rest);
        if i == 0 then Err(ErrMissingUnit)
        else match UnitValue(rest[..i])
          case None => Err(ErrUnknownUnit)
          case Some(unit) =>
            match ScaledComponent(num, unit)
            case None => Err(ErrInvalidDuration)
            case Some(w) => Ok((w, num.end + i))
  }

  /** One or more "number unit" components of a duration, added to `d`;
      the running total may never pass 2^63. */
  function Components(s: string, d: nat): (r: Result<nat>)
    requires s != []
    ensures r.Ok? ==> r.value <= Two63
    decreases |s|
  {
    var lead := LeadingComponent(s);
    if lead.Err? then Err(lead.error)
    else
      var w := lead.value.0;
      var n := lead.value.1;
      if d + w > Two63 then Err(ErrInvalidDuration)
      else if n == |s| then Ok(d + w)
      else Components(s[n..], d + w)
  }

  /** time.ParseDuration: an optional sign, then "0" or a sequence of
      components such as "1h30m"; the total must fit in int64. */
  function ParseDuration(s: string): (r: Result<Duration>)
    ensures r.Ok? ==> MinInt64 <= r.value <= MaxInt64
  {
    var signed := s != [] && (s[0] == '-' || s[0] == '+');
    var body := if signed then s[1..] else s;
    if body == "0" then Ok(0)
    else if body == [] then Err(ErrInvalidDuration)
    else
      match Components(body, 0)
      case Err(e) => Err(e)
      case Ok(d) =>
        if s[0] == '-' then Ok(-(d as int))
        else if d > MaxInt64 then Err(ErrInvalidDuration)
        else Ok(d)
  }

  /** Every unit name is non-empty and made of unit characters only. */
  lemma UnitNameChars(u: string)
    requires UnitValue(u).Some?
    ensures u != [] && UnitRun(u) == |u|
  {
  }

  lemma ScanWholeNumber(n: nat, u: string)
    requires u != [] && IsUnitChar(u[0])
    ensures ScanNumber(Decimal(n) + u) == Number(n, 0, 1, |Decimal(n)|, |Decimal(n)|)
  {
    var digits := Decimal(n);
    var s := digits + u;
    assert s[..|digits|] == digits;
    assert s[|digits|] == u[0];
    assert DigitRun(s) == |digits|;
  }

  lemma WholeComponent(n: nat, unit: nat)
    requires unit == Nanosecond || unit == Microsecond || unit == Millisecond
          || unit == Second || unit == Minute || unit == Hour
    requires n * unit <= MaxInt64
    ensures n <= MaxInt64
    ensures ScaledComponent(Number(n, 0, 1, 0, 0), unit) == Some(n * unit)
  {
    if unit == Nanosecond {
    } else if unit == Microsecond {
    } else if unit == Millisecond {
    } else if unit == Second {
    } else if unit == Minute {
    } else {
    }
  }

  /** A unit name stops at the first digit or '.' that follows it. */
  lemma {:induction false} UnitRunStops(u: string, rest: string)
    requires UnitRun(u) == |u|
    requires rest == [] || !IsUnitChar(rest[0])
    ensures UnitRun(u + rest) == |u|
  {
    if u == [] {
      assert u + rest == rest;
    } else {
      assert (u + rest)[1..] == u[1..] + rest;
      assert UnitRun(u[1..]) == |u| - 1;
      UnitRunStops(u[1..], rest);
    }
  }

  /** A whole number and a known unit at the head of a string, followed
      by the end or by the next number, make one component worth the
      number times the unit. */
  lemma {:induction false} LeadingWhole(n: nat, u: string, rest: string)
    requires UnitValue(u).Some?
    requires n * UnitValue(u).value <= MaxInt64
    requires rest == [] || !IsUnitChar(rest[0])
    ensures LeadingComponent(Decimal(n) + u + rest) == Ok((n * UnitValue(u).value, |Decimal(n)| + |u|))
  {
    var unit := UnitValue(u).value;
    var digits := Decimal(n);
    var s := digits + u + rest;
    UnitNameChars(u);
    assert s == digits + (u + rest);
    ScanWholeNumber(n, u + rest);
    WholeComponent(n, unit);
    UnitRunStops(u, rest);
    assert s[0] == digits[0] && IsDigit(s[0]);
    assert s[|digits|..] == u + rest;
    assert (u + rest)[..|u|] == u;
  }

  /** Components after a leading component that ends the text. */
  lemma {:induction false} ComponentsLast(s: string, w: nat, d: nat)
    requires s != [] && LeadingComponent(s) == Ok((w, |s|))
    requires d + w <= Two63
    ensures Components(s, d) == Ok(d + w)
  {
  }

  /** A whole number and a known unit with nothing after them are one
      component spanning the whole text. */
  lemma {:induction false} LeadingWholeEnd(n: nat, u: string, w: nat)
    requires UnitValue(u).Some? && w == n * UnitValue(u).value && w <= MaxInt64
    ensures LeadingComponent(Decimal(n) + u) == Ok((w, |Decimal(n) + u|))
  {
    LeadingWhole(n, u, []);
    assert Decimal(n) + u + [] == Decimal(n) + u;
  }

  /** Components(Decimal(n) + u, d) for one whole-number component. */
  lemma {:induction false} ComponentsOneUnit(n: nat, u: string, d: nat)
    requires UnitValue(u).Some?
    requires n * UnitValue(u).value <= MaxInt64
    requires d + n * UnitValue(u).value <= Two63
    ensures Components(Decimal(n) + u, d) == Ok(d + n * UnitValue(u).value)
  {
    var w: nat := n * UnitValue(u).value;
    LeadingWholeEnd(n, u, w);
    ComponentsLast(Decimal(n) + u, w, d);
  }

  /** ParseDuration of an unsigned text other than "0" is its components'
      total, when that total fits in int64. */
  lemma {:induction false} ParseDurationUnsigned(s: string, v: nat)
    requires |s| >= 2 && IsDigit(s[0])
    requires Components(s, 0) == Ok(v) && v <= MaxInt64
    ensures ParseDuration(s) == Ok(v)
  {
  }

  /** A whole number followed by a known unit parses to number times unit. */
  lemma {:induction false} ParseDurationOneUnit(n: nat, u: string)
    requires UnitValue(u).Some?
    requires n * UnitValue(u).value <= MaxInt64
    ensures ParseDuration(Decimal(n) + u) == Ok(n * UnitValue(u).value)
  {
    var s := Decimal(n) + u;
    UnitNameChars(u);
    ComponentsOneUnit(n, u, 0);
    assert s[0] == Decimal(n)[0];
    ParseDurationUnsigned(s, n * UnitValue(u).value);
  }

  /** A leading '+' changes nothing. */
  lemma {:induction false} ParseDurationPlus(s: string)
    requires s != [] && s[0] != '-' && s[0] != '+'
    ensures ParseDuration("+" + s) == ParseDuration(s)
  {
    assert ("+" + s)[1..] == s;
  }

  /** A leading '-' negates, and it alone reaches -2^63, whose magnitude
      does not fit in int64 unsigned. */
  lemma {:induction false} ParseDurationMinus(s: string)
    requires s != [] && s[0] != '-' && s[0] != '+'
    ensures ParseDuration(s).Ok? ==> ParseDuration("-" + s) == Ok(-ParseDuration(s).value)
    ensures ParseDuration("-" + s).Ok? && ParseDuration(s).Err? ==> ParseDuration("-" + s) == Ok(MinInt64)
  {
    assert ("-" + s)[1..] == s;
  }

  /** "15m" is fifteen minutes. */
  lemma FifteenMinutes()
    ensures ParseDuration("15m") == Ok(15 * Minute)
  {
    assert Decimal(15) == "15";
    ParseDurationOneUnit(15, "m");
    assert Decimal(15) + "m" == "15m";
  }

  /** "7d" is rejected: days are not a unit of time.ParseDuration. */
  lemma SevenDaysRejected()
    ensures ParseDuration("7d") == Err(ErrUnknownUnit)
  {
    var s := "7d";
    assert DigitRun(s) == 1;
    assert s[1..] == "d";
    assert UnitRun("d") == 1;
  }

  /** getEnvAsDuration: the parsed variable when it is non-empty and
      parses; otherwise the parsed default, whose own error is dropped so
      that an unparsable default gives the zero duration. */
  function GetEnvAsDuration(env: Env, key: string, defaultValue: string): (r: Duration)
    ensures Getenv(env, key) != "" && ParseDuration(Getenv(env, key)).Ok? ==>
      r == ParseDuration(Getenv(env, key)).value
    ensures (Getenv(env, key) == "" || ParseDuration(Getenv(env, key)).Err?) && ParseDuration(defaultValue).Ok? ==>
      r == ParseDuration(defaultValue).value
    ensures (Getenv(env, key) == "" || ParseDuration(Getenv(env, key)).Err?) && ParseDuration(defaultValue).Err? ==>
      r == 0
  {
    var value := Getenv(env, key);
    if value != "" && ParseDuration(value).Ok? then ParseDuration(value).value
    else
      match ParseDuration(defaultValue)
      case Ok(d) => d
      case Err(_) => 0
  }

  datatype ServerConfig = ServerConfig(host: string, port: string)
  datatype DatabaseConfig = DatabaseConfig(host: string, port: string, user: string, password: string, dbName: string, sslMode: string)
  datatype InfluxDBConfig = InfluxDBConfig(url: string, token: string, org: string, bucket: string)
  datatype RedisConfig = RedisConfig(addr: string, password: string, db: int)
  datatype JwtConfig = JwtConfig(secretKey: string, accessTokenDuration: Duration, refreshTokenDuration: Duration)
  datatype MqttConfig = MqttConfig(broker: string, port: string, username: string, password: string, topic: string)
  datatype Config = Config(
    server: ServerConfig,
    database: DatabaseConfig,
    influxDB: InfluxDBConfig,
    redis: RedisConfig,
    jwt: JwtConfig,
    mqtt: MqttConfig)

  /** The default MQTT base topic: two segments, so that the device id of
      a subscribed topic sits at segment index 2. */
  const DefaultMqttTopic := "iot/monitoring"

  /** Load, after the optional .env file has been merged into `env`. */
  function Load(env: Env): (c: Config)
  {
    Config(
      ServerConfig(GetEnv(env, "SERVER_HOST", "localhost"), GetEnv(env, "SERVER_PORT", "8080")),
      DatabaseConfig(
        GetEnv(env, "DB_HOST", "localhost"),
        GetEnv(env, "DB_PORT", "5433"),
        GetEnv(env, "DB_USER", "admin"),
        GetEnv(env, "DB_PASSWORD", "secret"),
        GetEnv(env, "DB_NAME", "monitoring_db"),
        GetEnv(env, "DB_SSL_MODE", "disable")),
      InfluxDBConfig(
        GetEnv(env, "INFLUX_URL", "http://localhost:8086"),
        GetEnv(env, "INFLUX_TOKEN", ""),
        GetEnv(env, "INFLUX_ORG", "iot-org"),
        GetEnv(env, "INFLUX_BUCKET", "monitoring")),
      RedisConfig(
        GetEnv(env, "REDIS_ADDR", "localhost:6379"),
        GetEnv(env, "REDIS_PASSWORD", ""),
        GetEnvAsInt(env, "REDIS_DB", 0)),
      JwtConfig(
        GetEnv(env, "JWT_SECRET", "your-secret-key"),
        GetEnvAsDuration(env, "JWT_ACCESS_DURATION", "15m"),
        GetEnvAsDuration(env, "JWT_REFRESH_DURATION", "7d")),
      MqttConfig(
        GetEnv(env, "MQTT_BROKER", "localhost"),
        GetEnv(env, "MQTT_PORT", "1883"),
        GetEnv(env, "MQTT_USERNAME", ""),
        GetEnv(env, "MQTT_PASSWORD", ""),
        GetEnv(env, "MQTT_TOPIC", DefaultMqttTopic)))
  }

  /** With nothing set, the configured access duration is fifteen minutes,
      the configured refresh duration is zero because "7d" does not parse,
      Redis uses database 0 and the MQTT base topic is "iot/monitoring".
      The two durations are never read: the token lifetimes used at login
      and refresh are fixed in the authentication use case, so the zero
      refresh duration has no effect. */
  lemma LoadDefaults(env: Env)
    requires forall k :: k in env ==> env[k] == ""
    ensures Load(env).jwt.accessTokenDuration == 15 * Minute
    ensures Load(env).jwt.refreshTokenDuration == 0
    ensures Load(env).redis.db == 0
    ensures Load(env).mqtt.topic == DefaultMqttTopic
    ensures Load(env).influxDB.bucket == "monitoring"
  {
    FifteenMinutes();
    SevenDaysRejected();
  }
}
