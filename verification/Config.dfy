/** Annotations and the configuration that the program reads out of them (pkg/provider/cluster.go, endpoint.go,
    util.go). */
module Config {
  import opened Xds
  import opened Nonces

  const MAX_INT64 := 0x7FFF_FFFF_FFFF_FFFF

  predicate AllDigits(s: string) {
    forall i :: 0 <= i < |s| ==> '0' <= s[i] <= '9'
  }

  /** strconv.Atoi, with an int of 64 bits: a sign or none, digits, in range. */
  function Atoi(s: string): Option<int> {
    var digits := if s != "" && (s[0] == '-' || s[0] == '+') then s[1..] else s;
    if digits == "" || !AllDigits(digits) then None
    else
      var n := if s[0] == '-' then -Value(digits) else Value(digits);
      if -MAX_INT64 - 1 <= n <= MAX_INT64 then Some(n) else None
  }

  lemma {:induction false} DecimalDigits(n: nat)
    ensures Decimal(n) != "" && AllDigits(Decimal(n))
  {
    if n >= 10 { DecimalDigits(n / 10); }
  }

  /** Numerals are read back. */
  lemma AtoiDecimal(n: nat)
    requires n <= MAX_INT64
    ensures Atoi(Decimal(n)) == Some(n)
  {
    DecimalDigits(n);
    ValueOfDecimal(n);
  }

  /** A sign or none, and digits. */
  predicate Numeral(s: string, sign: string, digits: string) {
    s == sign + digits && (sign == "" || sign == "+" || sign == "-") && digits != "" && AllDigits(digits)
  }

  ghost predicate Denotes(s: string, n: int) {
    exists sign, digits :: Numeral(s, sign, digits) && n == if sign == "-" then -Value(digits) else Value(digits)
  }

  /** Exactly the signed numerals within 64 bits are numbers. */
  lemma AtoiExactly(s: string, n: int)
    ensures Atoi(s) == Some(n) <==> -MAX_INT64 - 1 <= n <= MAX_INT64 && Denotes(s, n)
  {
    if Atoi(s) == Some(n) { AtoiDenotes(s, n); }
    forall sign, digits | Numeral(s, sign, digits) { NumeralParts(s, sign, digits); }
  }

  lemma AtoiDenotes(s: string, n: int)
    requires Atoi(s) == Some(n)
    ensures Denotes(s, n)
  {
    if s[0] == '-' || s[0] == '+' {
      assert s == [s[0]] + s[1..];
      assert Numeral(s, [s[0]], s[1..]);
    } else {
      assert Numeral(s, "", s);
    }
  }

  lemma NumeralParts(s: string, sign: string, digits: string)
    requires Numeral(s, sign, digits)
    ensures s != "" && (sign == "-" <==> s[0] == '-')
    ensures digits == if s[0] == '-' || s[0] == '+' then s[1..] else s
  {
    if sign == "" {
      assert s == digits && s[0] == digits[0];
    } else {
      assert s[1..] == digits && s[0] == sign[0];
    }
  }

  /** Not a number, or not a positive one: such a value counts as none. */
  predicate BadNumber(s: string) { Atoi(s).None? || Atoi(s).value <= 0 }

  /** A positive number, cut to 32 bits; the fallback if there is none. */
  function GetUInt32(ann: Annotations, key: string, fallback: nat): nat {
    if key in ann && Atoi(ann[key]).Some? && Atoi(ann[key]).value > 0
    then Atoi(ann[key]).value % 0x1_0000_0000 else fallback
  }

  function WrapInt64(n: int): int { (n + MAX_INT64 + 1) % (2 * (MAX_INT64 + 1)) - MAX_INT64 - 1 }

  /** Nanoseconds in 64 bits, from a positive number of milliseconds. */
  function GetMilliseconds(ann: Annotations, key: string, fallback: nat): int {
    var ms := if key in ann && Atoi(ann[key]).Some? && Atoi(ann[key]).value > 0 then Atoi(ann[key]).value else fallback;
    WrapInt64(ms * 1_000_000)
  }

  function GetString(ann: Annotations, key: string, fallback: string): string {
    if key in ann then ann[key] else fallback
  }

  /******* Endpoints *******/

  const WEIGHT := "endpoint.weight"

  /** The weight of an endpoint is always valid. */
  function Weight(ann: Annotations): (w: nat)
    ensures 1 <= w <= 128
  {
    var w := GetUInt32(ann, WEIGHT, 64);
    if w == 0 || w > 128 then 64 else w
  }

  /** An endpoint weighs 64 if it has no weight annotation, or one that is no number, no positive one, or one beyond 64
      bits; otherwise what its low 32 bits say, if that is between 1 and 128, and again 64 if not. */
  lemma WeightExactly(ann: Annotations)
    ensures "endpoint.weight" !in ann ==> Weight(ann) == 64
    ensures "endpoint.weight" in ann && BadNumber(ann["endpoint.weight"]) ==> Weight(ann) == 64
    ensures forall n: nat :: "endpoint.weight" in ann && ann["endpoint.weight"] == Decimal(n) && 0 < n <= MAX_INT64 ==>
              Weight(ann) == if 1 <= n % 0x1_0000_0000 <= 128 then n % 0x1_0000_0000 else 64
  {
    forall n: nat | "endpoint.weight" in ann && ann["endpoint.weight"] == Decimal(n) && 0 < n <= MAX_INT64
      ensures Atoi(Decimal(n)) == Some(n)
    {
      AtoiDecimal(n);
    }
  }

  /******* Clusters *******/

  datatype FaultConfig = FaultConfig(enabled: bool, delayDuration: int, delayChance: nat, abortCode: nat,
                                     abortChance: nat)

  datatype HealthCheckConfig = HealthCheckConfig(path: string, timeout: int, interval: int, cacheDuration: int,
                                                 port: nat)

  datatype CircuitBreakerConfig = CircuitBreakerConfig(maxConnections: nat, maxPendingRequests: nat, maxRequests: nat,
                                                       maxRetries: nat)

  datatype ClusterConfig = ClusterConfig(health: HealthCheckConfig, breaker: CircuitBreakerConfig, fault: FaultConfig)

  const FAULT_INJECT := "fault.inject"
  const HEALTH_PATH := "healthcheck.path"

  function ParseClusterAnnotations(ann: Annotations): ClusterConfig {
    ClusterConfig(
      HealthCheckConfig(GetString(ann, HEALTH_PATH, "/healthz"), GetMilliseconds(ann, "healthcheck.timeout", 3000),
                        GetMilliseconds(ann, "healthcheck.interval", 10000),
                        GetMilliseconds(ann, "healthcheck.cache", 30000), GetUInt32(ann, "healthcheck.port", 0)),
      CircuitBreakerConfig(GetUInt32(ann, "circuit-breaker.max-connections", 1000),
                           GetUInt32(ann, "circuit-breaker.max-pending", 1000),
                           GetUInt32(ann, "circuit-breaker.max-requests", 1000),
                           GetUInt32(ann, "circuit-breaker.max-retries", 3)),
      FaultConfig(FAULT_INJECT in ann, GetMilliseconds(ann, "fault.delay.duration", 30),
                  GetUInt32(ann, "fault.delay.percent", 0), GetUInt32(ann, "fault.abort.code", 503),
                  GetUInt32(ann, "fault.abort.percent", 0)))
  }

  /** The payload of a cluster. */
  function SettingsOf(c: ClusterConfig): ClusterSettings {
    ClusterSettings(c.health.timeout, c.health.interval, if c.health.port != 0 then Some(c.health.port) else None,
                    c.health.path, c.breaker.maxConnections, c.breaker.maxPendingRequests, c.breaker.maxRequests,
                    c.breaker.maxRetries)
  }

  /** The health check filter of a listener. */
  function HealthFilter(c: HealthCheckConfig): HttpFilter { HealthCheck(c.cacheDuration, c.path) }

  /** The fault filter of a listener; a part without effect is left out. */
  function FaultFilter(c: FaultConfig): HttpFilter {
    Fault(if c.abortChance > 0 && c.abortCode > 0 then Some(Abort(c.abortCode, c.abortChance)) else None,
          if c.delayChance > 0 && c.delayDuration > 0 then Some(Delay(c.delayDuration, c.delayChance)) else None)
  }

  /******* The expected status of a health check *******/

  /** The parts of a string between separators; never none. */
  function Split(s: string, sep: char): (parts: seq<string>)
    ensures parts != []
  {
    if s == "" then [""]
    else
      var last := |s| - 1;
      var rest := Split(s[..last], sep);
      if s[last] == sep then rest + [""] else rest[..|rest| - 1] + [rest[|rest| - 1] + [s[last]]]
  }

  /** A range, or an index past the end of a list, which stops the program. */
  datatype RangeResult = Range(lower: int, upper: int) | OutOfBounds

  /** Of two parts the third is read. */
  function ParseRange(val: string, fallback1: int, fallback2: int): RangeResult {
    var list := Split(val, '-');
    if |list| != 2 || Atoi(list[0]).None? then Range(fallback1, fallback2) else OutOfBounds
  }

  lemma {:induction false} SplitNone(s: string, sep: char)
    requires sep !in s
    ensures Split(s, sep) == [s]
  {
    if s != "" {
      SplitNone(s[..|s| - 1], sep);
      assert s[..|s| - 1] + [s[|s| - 1]] == s;
    }
  }

  lemma {:induction false} SplitOnce(a: string, b: string, sep: char)
    requires sep !in a && sep !in b
    ensures Split(a + [sep] + b, sep) == [a, b]
  {
    var s := a + [sep] + b;
    if b == "" {
      assert s[..|s| - 1] == a;
      SplitNone(a, sep);
    } else {
      assert s[..|s| - 1] == a + [sep] + b[..|b| - 1];
      SplitOnce(a, b[..|b| - 1], sep);
      assert b[..|b| - 1] + [b[|b| - 1]] == b;
    }
  }

  lemma SplitLast(s: string, sep: char)
    requires s != ""
    ensures var last, rest := s[|s| - 1], Split(s[..|s| - 1], sep);
            Split(s, sep) == if last == sep then rest + [""] else rest[..|rest| - 1] + [rest[|rest| - 1] + [last]]
  {
  }

  /** The parts, put together again. */
  function Join(parts: seq<string>, sep: char): string
    requires parts != []
  {
    if |parts| == 1 then parts[0] else Join(parts[..|parts| - 1], sep) + [sep] + parts[|parts| - 1]
  }

  lemma {:induction false} SplitJoins(s: string, sep: char)
    ensures Join(Split(s, sep), sep) == s
    ensures forall i :: 0 <= i < |Split(s, sep)| ==> sep !in Split(s, sep)[i]
  {
    if s != "" {
      var init, last := s[..|s| - 1], s[|s| - 1];
      SplitJoins(init, sep);
      SplitLast(s, sep);
      assert s == init + [last];
      if last == sep { JoinNext(Split(init, sep), sep); } else { JoinLonger(Split(init, sep), last, sep); }
    }
  }

  lemma JoinNext(parts: seq<string>, sep: char)
    requires parts != []
    ensures Join(parts + [""], sep) == Join(parts, sep) + [sep]
  {
    assert (parts + [""])[..|parts|] == parts;
  }

  lemma JoinLonger(parts: seq<string>, c: char, sep: char)
    requires parts != []
    ensures Join(parts[..|parts| - 1] + [parts[|parts| - 1] + [c]], sep) == Join(parts, sep) + [c]
  {
    var last := |parts| - 1;
    var longer := parts[..last] + [parts[last] + [c]];
    assert longer[..last] == parts[..last] && longer[last] == parts[last] + [c];
    if last > 0 {
      assert Join(longer, sep) == Join(parts[..last], sep) + [sep] + (parts[last] + [c]);
      assert Join(parts, sep) == Join(parts[..last], sep) + [sep] + parts[last];
    }
  }

  /** A value of the form number-anything, with one dash, stops the program. Every other value gives the fallbacks: the
      annotation has no other effect. */
  lemma ParseRangeExactly(val: string, fallback1: int, fallback2: int)
    ensures ParseRange(val, fallback1, fallback2) == OutOfBounds <==>
              exists a, b :: '-' !in a && '-' !in b && val == a + ['-'] + b && Atoi(a).Some?
    ensures ParseRange(val, fallback1, fallback2) == OutOfBounds
         || ParseRange(val, fallback1, fallback2) == Range(fallback1, fallback2)
  {
    SplitJoins(val, '-');
    var list := Split(val, '-');
    if |list| == 2 { assert Join(list, '-') == Join(list[..1], '-') + ['-'] + list[1]; }
    if a, b :| '-' !in a && '-' !in b && val == a + ['-'] + b && Atoi(a).Some? {
      SplitOnce(a, b, '-');
    }
  }
}
