/**
 * The per-IP, per-endpoint request counter kept in WordPress transients.
 * The transient store is a field of the class; expiry after an hour is
 * not modelled. Request headers, `sanitize_text_field` and the IP
 * validity test are parameters.
 */
module RateLimit {
  import opened Php

  /** The `$_SERVER` entries the client address is read from. */
  datatype Server = Server(forwardedFor: Option<string>, clientIp: Option<string>, remoteAddr: Option<string>)

  /** The WP_DEBUG and FPSE_DISABLE_RATE_LIMIT constants (an undefined one is false). */
  datatype Flags = Flags(debug: bool, disableRateLimit: bool)

  /** `!empty($_SERVER[$k])` for a string entry. */
  predicate Present(o: Option<string>)
  {
    o.Some? && !EmptyString(o.value)
  }

  /** The header value `getClientIP` picks before sanitising: the first forwarded address, else CLIENT_IP, else REMOTE_ADDR. */
  function RawClientIp(server: Server): string
  {
    if Present(server.forwardedFor) then Trim(Explode(server.forwardedFor.value, ',')[0])
    else if Present(server.clientIp) then server.clientIp.value
    else if Present(server.remoteAddr) then server.remoteAddr.value
    else ""
  }

  /** `getClientIP`: the sanitised address if it is a valid IP, '' otherwise. */
  function ClientIp(server: Server, sanitize: string -> string, validIp: string -> bool): (ip: string)
    ensures ip == "" || validIp(ip)
    ensures validIp(sanitize(RawClientIp(server))) ==> ip == sanitize(RawClientIp(server))
  {
    var ip := sanitize(RawClientIp(server));
    if !validIp(ip) then "" else ip
  }

  /** The header precedence of `getClientIP`. */
  lemma ClientIpPrecedence(server: Server)
    ensures Present(server.forwardedFor) ==>
      RawClientIp(server) == Trim(Explode(server.forwardedFor.value, ',')[0]) && ',' !in RawClientIp(server)
    ensures !Present(server.forwardedFor) && Present(server.clientIp) ==> RawClientIp(server) == server.clientIp.value
    ensures !Present(server.forwardedFor) && !Present(server.clientIp) && Present(server.remoteAddr)
      ==> RawClientIp(server) == server.remoteAddr.value
    ensures !Present(server.forwardedFor) && !Present(server.clientIp) && !Present(server.remoteAddr) ==> RawClientIp(server) == ""
  {
    if Present(server.forwardedFor) {
      var first := Explode(server.forwardedFor.value, ',')[0];
      TrimIsInfix(first);
    }
  }

  /** Trimming only removes characters, so it adds no comma. */
  lemma TrimIsInfix(s: string)
    ensures forall c :: c in Trim(s) ==> c in s
  {
    var l := TrimLeft(s, Whitespace);
    TrimLeftSuffix(s, Whitespace);
    assert forall c :: c in l ==> c in s;
  }

  /** The transient key of one address on one endpoint. */
  function CounterKey(endpoint: string, ip: string): (key: string)
    ensures StartsWith(key, "fpse_rate_")
    ensures |key| == 11 + |endpoint| + |ip|
    ensures key[10..10 + |endpoint|] == endpoint && key[10 + |endpoint|] == '_' && key[11 + |endpoint|..] == ip
  {
    "fpse_rate_" + endpoint + "_" + ip
  }

  /** `(int) get_transient($key)`: 0 when the key is not stored. */
  function Count(transients: map<string, int>, key: string): int
  {
    if key in transients then transients[key] else 0
  }

  /** Every stored counter is a non-negative count, as `checkLimit` only ever stores increments from 0. */
  predicate ValidCounters(transients: map<string, int>)
  {
    forall k :: k in transients ==> transients[k] >= 0
  }

  datatype Decision = Decision(allowed: bool, transients: map<string, int>)

  /** What `checkLimit` answers and how it leaves the store. */
  function LimitDecision(transients: map<string, int>, flags: Flags, ip: string, endpoint: string, limit: int): Decision
  {
    if flags.debug && flags.disableRateLimit then Decision(true, transients)
    else if EmptyString(ip) then Decision(flags.debug, transients)
    else
      var key := CounterKey(endpoint, ip);
      var count := Count(transients, key);
      if count >= AbsInt(limit) then Decision(false, transients)
      else Decision(true, transients[key := count + 1])
  }

  class RateLimiter {
    /** The transient store, as far as the counters are concerned. */
    var transients: map<string, int>

    constructor(transients: map<string, int>)
      ensures this.transients == transients
    {
      this.transients := transients;
    }

    /** `checkLimit`. */
    method CheckLimit(endpoint: string, limit: int, flags: Flags, server: Server, sanitize: string -> string,
                      validIp: string -> bool) returns (allowed: bool)
      modifies this
      ensures Decision(allowed, transients)
        == LimitDecision(old(transients), flags, ClientIp(server, sanitize, validIp), sanitize(endpoint), limit)
    {
      if flags.debug && flags.disableRateLimit {
        return true;
      }
      var endpointName := sanitize(endpoint);
      var maxRequests := AbsInt(limit);
      var ip := ClientIp(server, sanitize, validIp);
      if EmptyString(ip) {
        return flags.debug;
      }
      var key := CounterKey(endpointName, ip);
      var count := Count(transients, key);
      if count >= maxRequests {
        return false;
      }
      count := count + 1;
      transients := transients[key := count];
      allowed := true;
    }

    /** `resetLimit`: deletes the one counter of the given (or current) address. */
    method ResetLimit(endpoint: string, ip: string, server: Server, sanitize: string -> string, validIp: string -> bool)
      modifies this
      ensures transients == old(transients) - ResetKeys(sanitize(endpoint), ip, ClientIp(server, sanitize, validIp))
    {
      var endpointName := sanitize(endpoint);
      var address := ip;
      if EmptyString(address) {
        address := ClientIp(server, sanitize, validIp);
      }
      if EmptyString(address) {
        return;
      }
      transients := transients - {CounterKey(endpointName, address)};
    }
  }

  /** The keys `resetLimit` deletes: the given address's counter, else the current address's, else none. */
  function ResetKeys(endpoint: string, ip: string, currentIp: string): (keys: set<string>)
    ensures |keys| <= 1
    ensures !EmptyString(ip) ==> keys == {CounterKey(endpoint, ip)}
    ensures EmptyString(ip) && EmptyString(currentIp) ==> keys == {}
    ensures EmptyString(ip) && !EmptyString(currentIp) ==> keys == {CounterKey(endpoint, currentIp)}
  {
    var address := if EmptyString(ip) then currentIp else ip;
    if EmptyString(address) then {} else {CounterKey(endpoint, address)}
  }

  /**
   * Within one endpoint every address has its own counter, so limiting
   * or resetting one address never touches another's.
   */
  lemma CounterKeyPerAddress(endpoint: string, a: string, b: string)
    requires a != b
    ensures CounterKey(endpoint, a) != CounterKey(endpoint, b)
  {
    var ka, kb := CounterKey(endpoint, a), CounterKey(endpoint, b);
    assert ka[11 + |endpoint|..] == a && kb[11 + |endpoint|..] == b;
  }

  /**
   * A refused request changes nothing; an accepted one raises its own
   * counter by exactly one, to at most the limit, and touches no other
   * key. With limit 0, every counted request is refused, and without a
   * usable address only debug mode lets the request through.
   */
  lemma LimitDecisionFacts(transients: map<string, int>, flags: Flags, ip: string, endpoint: string, limit: int)
    ensures var d := LimitDecision(transients, flags, ip, endpoint, limit);
      !d.allowed ==> d.transients == transients
    ensures var d := LimitDecision(transients, flags, ip, endpoint, limit);
      forall k :: k != CounterKey(endpoint, ip) ==>
        ((k in d.transients <==> k in transients) && (k in transients ==> d.transients[k] == transients[k]))
    ensures var d := LimitDecision(transients, flags, ip, endpoint, limit);
      d.allowed && !(flags.debug && flags.disableRateLimit) && !EmptyString(ip) ==>
        Count(d.transients, CounterKey(endpoint, ip)) == Count(transients, CounterKey(endpoint, ip)) + 1
        && Count(d.transients, CounterKey(endpoint, ip)) <= AbsInt(limit)
    ensures ValidCounters(transients) ==> ValidCounters(LimitDecision(transients, flags, ip, endpoint, limit).transients)
    ensures ValidCounters(transients) && !(flags.debug && flags.disableRateLimit) && !EmptyString(ip) && limit == 0 ==>
      !LimitDecision(transients, flags, ip, endpoint, limit).allowed
    ensures !(flags.debug && flags.disableRateLimit) && EmptyString(ip) ==>
      LimitDecision(transients, flags, ip, endpoint, limit) == Decision(flags.debug, transients)
  {
  }

  /**
   * Counting from any stored count below the limit, repeated requests are
   * accepted until the counter reaches the limit and refused from then on.
   */
  lemma {:induction false} RepeatedRequests(transients: map<string, int>, flags: Flags, ip: string, endpoint: string,
                                            limit: int, n: nat)
    requires !(flags.debug && flags.disableRateLimit) && !EmptyString(ip)
    requires 0 <= Count(transients, CounterKey(endpoint, ip))
    ensures var before := Count(transients, CounterKey(endpoint, ip));
      Count(Repeat(transients, flags, ip, endpoint, limit, n).transients, CounterKey(endpoint, ip))
        == if before >= AbsInt(limit) then before else Min(AbsInt(limit), before + n)
    ensures var after := Repeat(transients, flags, ip, endpoint, limit, n);
      n > 0 ==> (after.allowed <==> Count(transients, CounterKey(endpoint, ip)) + n <= AbsInt(limit))
  {
    if n > 0 {
      RepeatedRequests(transients, flags, ip, endpoint, limit, n - 1);
    }
  }

  /** The last answer and the store after `n` identical requests. */
  function Repeat(transients: map<string, int>, flags: Flags, ip: string, endpoint: string, limit: int, n: nat): Decision
  {
    if n == 0 then Decision(true, transients)
    else LimitDecision(Repeat(transients, flags, ip, endpoint, limit, n - 1).transients, flags, ip, endpoint, limit)
  }

  function Min(a: int, b: int): int
  {
    if a <= b then a else b
  }
}
