/**
 When a response may be stored, and until when it is fresh (section 4.2.1 of RFC 7234).

 A time is an integer number of nanoseconds; zero is Go's zero time, which stands for "no time given".
 A duration is an integer number of nanoseconds; only `Sub` can leave the 64-bit range, and it saturates.
 */
module Freshness {
  import opened Http

  type Time = int
  type Duration = int

  const SECOND: Duration := 1_000_000_000
  const MAX_DURATION: Duration := 0x7FFF_FFFF_FFFF_FFFF
  const ZERO_TIME: Time := 0

  function Sub(t: Time, u: Time): Duration {
    if t - u > MAX_DURATION then MAX_DURATION
    else if t - u < -MAX_DURATION - 1 then -MAX_DURATION - 1
    else t - u
  }

  /** A directive's number of seconds, -1 when the directive is absent. */
  type Seconds = d: int | -1 <= d < 0x8000_0000 witness -1

  datatype Judged = Judged(
    cacheIsPrivate: bool,
    sMaxAge: Seconds,
    maxAge: Seconds,
    expires: Time,
    date: Time,
    nowUtc: Time)

  function ExpirationTime(obj: Judged): Time {
    if obj.sMaxAge != -1 && !obj.cacheIsPrivate then obj.nowUtc + SECOND * obj.sMaxAge
    else if obj.maxAge != -1 then obj.nowUtc + SECOND * obj.maxAge
    else if obj.expires != ZERO_TIME then
      var serverDate := if obj.date == ZERO_TIME then obj.nowUtc else obj.date;
      obj.nowUtc + Sub(obj.expires, serverDate)
    else obj.nowUtc
  }

  datatype Rule = PathRule(prefix: string) | HeaderRule(header: string, values: seq<string>)

  predicate RuleMatches(rule: Rule, req: Request, snap: Header) {
    match rule
    case PathRule(prefix) => prefix <= req.path
    case HeaderRule(header, values) => Get(snap, header) in values
  }

  datatype Config = Config(
    rules: seq<Rule>,
    lockTimeout: Duration,
    defaultMaxAge: Duration)

  /** What the Cache-Control library and the date parser say: an error, or the number of reasons not to store. */
  datatype Verdict = ParseError | Verdict(reasons: nat, sMaxAge: Seconds, maxAge: Seconds, expires: Time, date: Time)

  datatype Status = Status(isPublic: bool, expiration: Time)

  /** The clock readings of one call: when the object is judged, when the second is tested, when an age is added. */
  datatype Clock = Clock(judged: Time, tested: Time, bumped: Time)

  ghost predicate Forward(clock: Clock) { clock.judged <= clock.tested <= clock.bumped }

  function JudgedObject(v: Verdict, clock: Clock): Judged
    requires v.Verdict?
  {
    Judged(false, v.sMaxAge, v.maxAge, v.expires, v.date, clock.judged)
  }

  method GetCacheStatus(req: Request, code: int, snap: Header, v: Verdict, config: Config, clock: Clock)
    returns (st: Status)
    ensures st.isPublic <==> Storable(req, code, snap, v, config)
    ensures st.isPublic ==> st.expiration == PublicExpiration(v, config, clock)
    ensures !st.isPublic ==> st.expiration == if Refused(code, snap, v) then clock.bumped + config.lockTimeout
                                              else if code != 304 && v.ParseError? then ZERO_TIME else clock.bumped
  {
    if code == 206 || Line(snap, "Content-Range") != "" {
      return Status(false, clock.bumped + config.lockTimeout);
    }
    if code == 304 {
      return Status(false, clock.bumped);
    }
    if v.ParseError? {
      return Status(false, ZERO_TIME);
    }
    var expiration := ExpirationTime(JudgedObject(v, clock));
    if v.reasons != 0 {
      return Status(false, clock.bumped + config.lockTimeout);
    }
    if Line(snap, "Vary") == "*" {
      return Status(false, clock.bumped + config.lockTimeout);
    }
    for i := 0 to |config.rules|
      invariant forall j :: 0 <= j < i ==> RuleMatches(config.rules[j], req, snap)
    {
      if !RuleMatches(config.rules[i], req, snap) {
        return Status(false, clock.bumped);
      }
    }
    if clock.tested > expiration - SECOND {
      expiration := clock.bumped + config.defaultMaxAge;
    }
    return Status(true, expiration);
  }

  /** Responses that are held back for the lock timeout: partial ones, and complete ones that may not be stored. */
  predicate Refused(code: int, snap: Header, v: Verdict) {
    || code == 206 || Line(snap, "Content-Range") != ""
    || (code != 304 && v.Verdict? && (v.reasons != 0 || Line(snap, "Vary") == "*"))
  }

  /** A full response without obstacle: what the middleware stores. */
  predicate Storable(req: Request, code: int, snap: Header, v: Verdict, config: Config) {
    && code != 206 && code != 304
    && Line(snap, "Content-Range") == ""
    && v.Verdict? && v.reasons == 0
    && Line(snap, "Vary") != "*"
    && forall j :: 0 <= j < |config.rules| ==> RuleMatches(config.rules[j], req, snap)
  }

  /** The lifetime the response declares for a shared cache, by the precedence of section 4.2.1 of RFC 7234. */
  function DeclaredLifetime(v: Verdict, nowUtc: Time): Duration
    requires v.Verdict?
  {
    if v.sMaxAge >= 0 then v.sMaxAge * SECOND
    else if v.maxAge >= 0 then v.maxAge * SECOND
    else if v.expires != ZERO_TIME then Sub(v.expires, if v.date == ZERO_TIME then nowUtc else v.date)
    else 0
  }

  /** A declared lifetime with less than a second to go is replaced by the configured age. */
  function PublicExpiration(v: Verdict, config: Config, clock: Clock): Time
    requires v.Verdict?
  {
    var declared := clock.judged + DeclaredLifetime(v, clock.judged);
    if declared - clock.tested < SECOND then clock.bumped + config.defaultMaxAge else declared
  }

  function Min(a: int, b: int): int { if a < b then a else b }

  /**
   A stored response is fresh for at least a second or the configured age, whichever is less; and unless the
   configured age takes over it is fresh for exactly the declared lifetime.
   */
  lemma PublicLifetime(v: Verdict, config: Config, clock: Clock)
    requires v.Verdict? && Forward(clock)
    ensures PublicExpiration(v, config, clock) - clock.tested >= Min(SECOND, config.defaultMaxAge)
    ensures DeclaredLifetime(v, clock.judged) >= SECOND + (clock.tested - clock.judged) ==>
      PublicExpiration(v, config, clock) == clock.judged + DeclaredLifetime(v, clock.judged)
    ensures DeclaredLifetime(v, clock.judged) < SECOND ==>
      PublicExpiration(v, config, clock) == clock.bumped + config.defaultMaxAge
  {
  }

  /** A date centuries ahead cannot overflow: the declared lifetime stays a 64-bit duration. */
  lemma DeclaredLifetimeIsDuration(v: Verdict, nowUtc: Time)
    requires v.Verdict?
    ensures -MAX_DURATION - 1 <= DeclaredLifetime(v, nowUtc) <= MAX_DURATION
  {
    if v.sMaxAge >= 0 {
      assert v.sMaxAge * SECOND <= 0x7FFF_FFFF * SECOND;
    } else if v.maxAge >= 0 {
      assert v.maxAge * SECOND <= 0x7FFF_FFFF * SECOND;
    }
  }
}
