/** The compiled rule set of the access-control engine and its result cache. */
module Acl {
  import opened Addresses

  datatype Protocol = Both | Tcp | Udp

  datatype HostInfo = HostInfo(name: string, ipv4: Address, ipv6: Address)

  datatype Rule<O> = Rule(outbound: O, hostMatcher: HostInfo -> bool, protocol: Protocol,
                          startPort: nat, endPort: nat, hijack: Address)

  datatype MatchResult<O> = MatchResult(outbound: O, hijack: Address)

  datatype Key = Key(host: string, protocol: Protocol, port: nat)

  // ---- Matching without a cache ----

  predicate AllowsPort(startPort: nat, endPort: nat, port: nat) {
    startPort == 0 || startPort <= port <= endPort
  }

  predicate RuleMatches<O>(rule: Rule<O>, host: HostInfo, protocol: Protocol, port: nat) {
    && (rule.protocol == Both || rule.protocol == protocol)
    && AllowsPort(rule.startPort, rule.endPort, port)
    && rule.hostMatcher(host)
  }

  /** The plain scan: the first rule that matches decides; if none does, `zero` and no address. */
  function FirstMatch<O>(rules: seq<Rule<O>>, zero: O, host: HostInfo, protocol: Protocol, port: nat): MatchResult<O> {
    if rules == [] then MatchResult(zero, Absent)
    else if RuleMatches(rules[0], host, protocol, port) then MatchResult(rules[0].outbound, rules[0].hijack)
    else FirstMatch(rules[1..], zero, host, protocol, port)
  }

  /** A rule written with the port range `startPort-endPort` matches exactly those ports unless the range starts
      at zero, which the engine takes for "any port"; then only the range 0-65535 is honoured. */
  lemma PortRangeIsExact(startPort: nat, endPort: nat)
    requires startPort <= endPort < 0x1_0000
    ensures (forall port: nat | port < 0x1_0000 ::
               AllowsPort(startPort, endPort, port) <==> startPort <= port <= endPort)
            <==> (startPort != 0 || endPort == 0xFFFF)
  {
    if startPort == 0 && endPort < 0xFFFF {
      assert AllowsPort(startPort, endPort, 0xFFFF);
    }
  }

  // ---- The cache key ----

  function TrimDots(s: string): string {
    if s != "" && s[|s| - 1] == '.' then TrimDots(s[..|s| - 1]) else s
  }

  /** `lower` stands for the library's lower-casing. */
  function Normalized(lower: string -> string, host: HostInfo): HostInfo {
    host.(name := TrimDots(lower(host.name)))
  }

  /** `text` stands for the library's printing of addresses. */
  function HostString(text: Address -> string, host: HostInfo): string {
    host.name + "|" + text(host.ipv4) + "|" + text(host.ipv6)
  }

  function KeyOf(text: Address -> string, host: HostInfo, protocol: Protocol, port: nat): Key {
    Key(HostString(text, host), protocol, port)
  }

  /** What printed addresses have in common: no bar, and one text for one address, whichever form it is kept in. */
  ghost predicate Prints(text: Address -> string) {
    && (forall a :: '|' !in text(a))
    && (forall a, b :: text(a) == text(b) ==> Canonical(a) == Canonical(b))
  }

  /** A text without the separator after the last separator can be told from what precedes it, whatever that is. */
  lemma LastFieldIsUnique(x: string, y: string, x': string, y': string)
    requires x + "|" + y == x' + "|" + y'
    requires '|' !in y && '|' !in y'
    ensures x == x' && y == y'
  {
    var s := x + "|" + y;
    assert s[|x|] == '|' && s[|x'|] == '|' by {
      assert s == x' + "|" + y';
    }
    assert |x| == |x'|;
    assert x == s[..|x|] == x';
    assert y == s[|x| + 1..] == y';
  }

  predicate SameHost(a: HostInfo, b: HostInfo) {
    a.name == b.name && Canonical(a.ipv4) == Canonical(b.ipv4) && Canonical(a.ipv6) == Canonical(b.ipv6)
  }

  /** The key keeps name and addresses apart, even when the name itself contains bars. */
  lemma KeySeparates(text: Address -> string, a: HostInfo, b: HostInfo)
    requires Prints(text)
    requires HostString(text, a) == HostString(text, b)
    ensures SameHost(a, b)
  {
    LastFieldIsUnique(a.name + "|" + text(a.ipv4), text(a.ipv6), b.name + "|" + text(b.ipv4), text(b.ipv6));
    LastFieldIsUnique(a.name, text(a.ipv4), b.name, text(b.ipv4));
  }

  /** A matcher that does not look at the form an address is kept in. */
  ghost predicate IgnoresForm(m: HostInfo -> bool) {
    forall a, b :: SameHost(a, b) ==> m(a) == m(b)
  }

  ghost predicate RulesIgnoreForm<O>(rules: seq<Rule<O>>) {
    forall r :: r in rules ==> IgnoresForm(r.hostMatcher)
  }

  lemma {:induction false} SameHostSameMatch<O>(rules: seq<Rule<O>>, zero: O, a: HostInfo, b: HostInfo,
                                                protocol: Protocol, port: nat)
    requires RulesIgnoreForm(rules) && SameHost(a, b)
    ensures FirstMatch(rules, zero, a, protocol, port) == FirstMatch(rules, zero, b, protocol, port)
  {
    if rules == [] {
    } else {
      assert rules[0] in rules;
      SameHostSameMatch(rules[1..], zero, a, b, protocol, port);
    }
  }

  // ---- The address matchers ----

  predicate IpMatches(ip: Address, host: HostInfo) {
    !ip.Absent? && (Canonical(ip) == Canonical(host.ipv4) || Canonical(ip) == Canonical(host.ipv6))
  }

  /** A 16-byte network that spells an IPv4 one is matched as such, by the last four bytes of its mask. */
  predicate NetContains(n: Net, width: nat, a: Address) {
    match Canonical(a)
    case Absent => false
    case Four(bits) =>
      if width == 32 then Covers(n, 32, bits)
      else width == 128 && n.prefix <= 128 && IsMapped(n.ip)
           && Covers(Net(n.ip % TWO_32, if n.prefix <= 96 then 0 else n.prefix - 96), 32, bits)
    case Sixteen(bits) => width == 128 && Covers(n, 128, bits)
  }

  predicate CidrMatches(n: Net, width: nat, host: HostInfo) {
    NetContains(n, width, host.ipv4) || NetContains(n, width, host.ipv6)
  }

  lemma AddressMatchersIgnoreForm(ip: Address, n: Net, width: nat)
    ensures IgnoresForm(host => IpMatches(ip, host))
    ensures IgnoresForm(host => CidrMatches(n, width, host))
  {
  }

  // ---- The cache ----

  type Cache<O> = map<Key, MatchResult<O>>

  /** What a compiled rule set is made of, besides its cache. */
  datatype Engine<O(!new)> = Engine(rules: seq<Rule<O>>, zero: O, lower: string -> string, text: Address -> string)
  {
    ghost predicate Sound() {
      RulesIgnoreForm(rules) && Prints(text)
    }

    function Plain(host: HostInfo, protocol: Protocol, port: nat): MatchResult<O> {
      FirstMatch(rules, zero, host, protocol, port)
    }

    /** Every entry is what the plain scan says of every host that has the entry's key. */
    ghost predicate Truthful(cache: Cache<O>) {
      forall host, protocol, port :: KeyOf(text, host, protocol, port) in cache ==>
                                       cache[KeyOf(text, host, protocol, port)] == Plain(host, protocol, port)
    }

    /** The cache after a query, and the answer given. */
    function Ask(cache: Cache<O>, q: Query): (Cache<O>, MatchResult<O>) {
      var host := Normalized(lower, q.host);
      var key := KeyOf(text, host, q.protocol, q.port);
      if key in cache then (cache, cache[key])
      else (cache[key := Plain(host, q.protocol, q.port)], Plain(host, q.protocol, q.port))
    }
  }

  datatype Query = Query(host: HostInfo, protocol: Protocol, port: nat)

  lemma AskKeepsTruthful<O(!new)>(e: Engine<O>, cache: Cache<O>, q: Query)
    requires e.Sound() && e.Truthful(cache)
    ensures e.Truthful(e.Ask(cache, q).0)
    ensures e.Ask(cache, q).1 == e.Plain(Normalized(e.lower, q.host), q.protocol, q.port)
  {
    var host := Normalized(e.lower, q.host);
    forall other | HostString(e.text, other) == HostString(e.text, host)
      ensures e.Plain(other, q.protocol, q.port) == e.Plain(host, q.protocol, q.port)
    {
      KeySeparates(e.text, other, host);
      SameHostSameMatch(e.rules, e.zero, other, host, q.protocol, q.port);
    }
  }

  class CompiledRuleSet<O(!new)> {
    const engine: Engine<O>
    var cache: Cache<O>

    ghost predicate Valid()
      reads this
    {
      engine.Sound() && engine.Truthful(cache)
    }

    constructor (engine: Engine<O>)
      requires engine.Sound()
      ensures Valid() && this.engine == engine && cache == map[]
    {
      this.engine := engine;
      cache := map[];
    }

    /** The first match of the normalised host, whatever was asked before. */
    method Match(host: HostInfo, protocol: Protocol, port: nat) returns (outbound: O, hijack: Address)
      requires Valid()
      modifies `cache
      ensures Valid()
      ensures MatchResult(outbound, hijack) == engine.Plain(Normalized(engine.lower, host), protocol, port)
      ensures (cache, MatchResult(outbound, hijack)) == engine.Ask(old(cache), Query(host, protocol, port))
    {
      var rules := engine.rules;
      var h := Normalized(engine.lower, host);
      var key := KeyOf(engine.text, h, protocol, port);
      AskKeepsTruthful(engine, cache, Query(host, protocol, port));
      if key in cache {
        return cache[key].outbound, cache[key].hijack;
      }
      for i := 0 to |rules|
        invariant cache == old(cache)
        invariant engine.Plain(h, protocol, port) == FirstMatch(rules[i..], engine.zero, h, protocol, port)
      {
        if RuleMatches(rules[i], h, protocol, port) {
          cache := cache[key := MatchResult(rules[i].outbound, rules[i].hijack)];
          return rules[i].outbound, rules[i].hijack;
        }
      }
      // No match is cached too
      cache := cache[key := MatchResult(engine.zero, Absent)];
      return engine.zero, Absent;
    }

    /** The bounded cache may give up any entries at any time. */
    method Evict(evicted: set<Key>)
      requires Valid()
      modifies `cache
      ensures Valid() && cache == old(cache) - evicted
    {
      cache := cache - evicted;
    }
  }

  // ---- Histories ----

  /** The answers to a series of queries, where before the i-th one the entries `evicted[i]` are given up. */
  function Answers<O(!new)>(e: Engine<O>, cache: Cache<O>, qs: seq<Query>, evicted: seq<set<Key>>)
    : (answers: seq<MatchResult<O>>)
    requires |qs| == |evicted|
    ensures |answers| == |qs|
    decreases qs
  {
    if qs == [] then []
    else
      var (c, r) := e.Ask(cache - evicted[0], qs[0]);
      [r] + Answers(e, c, qs[1..], evicted[1..])
  }

  /** For every history of queries and every choice of evictions, each answer is that of the plain scan. */
  lemma {:induction false} AnswersAreUncached<O(!new)>(e: Engine<O>, cache: Cache<O>, qs: seq<Query>,
                                                       evicted: seq<set<Key>>, i: nat)
    requires e.Sound() && e.Truthful(cache)
    requires i < |qs| == |evicted|
    ensures Answers(e, cache, qs, evicted)[i] == e.Plain(Normalized(e.lower, qs[i].host), qs[i].protocol, qs[i].port)
    decreases qs
  {
    var c := cache - evicted[0];
    AskKeepsTruthful(e, c, qs[0]);
    if i > 0 {
      AnswersAreUncached(e, e.Ask(c, qs[0]).0, qs[1..], evicted[1..], i - 1);
    }
  }

  // ---- The first match ----

  /** The rule is for this protocol or for both, for this port or for any, and its matcher accepts the host. */
  ghost predicate Concerns<O>(rule: Rule<O>, host: HostInfo, protocol: Protocol, port: nat) {
    && (rule.protocol.Both? || rule.protocol == protocol) && rule.hostMatcher(host)
    && (rule.startPort > 0 ==> rule.startPort <= port <= rule.endPort)
  }

  /** The first rule that concerns the query decides; without one there is no outbound and no address. */
  lemma {:induction false} FirstMatchDecides<O>(rules: seq<Rule<O>>, zero: O, host: HostInfo, protocol: Protocol,
                                                port: nat, i: nat)
    requires i <= |rules| && forall j | 0 <= j < i :: !Concerns(rules[j], host, protocol, port)
    requires i < |rules| ==> Concerns(rules[i], host, protocol, port)
    ensures FirstMatch(rules, zero, host, protocol, port) ==
            if i < |rules| then MatchResult(rules[i].outbound, rules[i].hijack) else MatchResult(zero, Absent)
    decreases i
  {
    if rules == [] {
    } else {
      MatchesIfConcerned(rules[0], host, protocol, port);
      hide RuleMatches, Concerns;
      if i > 0 {
        FirstMatchDecides(rules[1..], zero, host, protocol, port, i - 1);
      }
    }
  }

  lemma MatchesIfConcerned<O>(rule: Rule<O>, host: HostInfo, protocol: Protocol, port: nat)
    ensures RuleMatches(rule, host, protocol, port) <==> Concerns(rule, host, protocol, port)
  {
  }

  /** The rules that are not for another protocol. */
  function RulesFor<O>(rules: seq<Rule<O>>, protocol: Protocol): seq<Rule<O>> {
    if rules == [] then []
    else (if rules[0].protocol == Both || rules[0].protocol == protocol then [rules[0].(protocol := Both)] else [])
         + RulesFor(rules[1..], protocol)
  }

  /** The rules for another protocol have no part in the answer, and the others decide as if they were for both. */
  lemma {:induction false} OtherProtocolsHaveNoPart<O>(rules: seq<Rule<O>>, zero: O, host: HostInfo, protocol: Protocol,
                                                       port: nat, other: Protocol)
    ensures FirstMatch(rules, zero, host, protocol, port) ==
            FirstMatch(RulesFor(rules, protocol), zero, host, other, port)
  {
    if rules == [] {
    } else {
      OtherProtocolsHaveNoPart(rules[1..], zero, host, protocol, port, other);
      var head := RulesFor(rules, protocol);
      if rules[0].protocol == Both || rules[0].protocol == protocol {
        assert head[0] == rules[0].(protocol := Both) && head[1..] == RulesFor(rules[1..], protocol);
      } else {
        assert head == RulesFor(rules[1..], protocol);
      }
    }
  }

  // ---- What the address matchers and the normalised name mean ----

  /** A network of 16 bytes holds exactly the addresses whose wide form shares its prefix, except that those that spell
      IPv4 addresses only belong to a network that does. */
  lemma WideNetworkHolds(n: Net, a: Address)
    requires IsSized(a) && n.prefix <= 128
    ensures NetContains(n, 128, a) <==>
            (IsMapped(n.ip) <==> IsMapped(Wide(a))) && SharePrefix(n.ip, Wide(a), n.prefix)
  {
    var c := Canonical(a);
    CanonicalIsWide(a, a);
    if c.Four? && IsMapped(n.ip) {
      var low := n.ip % 0x1_0000_0000;
      assert n.ip == 0xFFFF * 0x1_0000_0000 + low;
      MappedShare(low, c.bits, n.prefix);
      Pow32();
      hide Pow2;
      if n.prefix <= 96 {
        assert low / 0x1_0000_0000 == 0 == c.bits / 0x1_0000_0000;
      }
    }
  }

  /** A network of 4 bytes holds exactly the IPv4 addresses whose last 32 bits share its prefix. */
  lemma NarrowNetworkHolds(n: Net, a: Address)
    requires IsSized(a) && n.prefix <= 32 && n.ip < 0x1_0000_0000
    ensures NetContains(n, 32, a) <==>
            IsMapped(Wide(a)) && SharePrefix(Wide(Four(n.ip)), Wide(a), 96 + n.prefix)
  {
    var c := Canonical(a);
    CanonicalIsWide(a, a);
    if c.Four? {
      MappedShare(n.ip, c.bits, 96 + n.prefix);
      Pow32();
      hide Pow2;
      if n.prefix == 0 {
        assert n.ip / 0x1_0000_0000 == 0 == c.bits / 0x1_0000_0000;
      }
    }
  }

  /** An address or a network matches a host by either of its addresses, in whatever form they are kept. */
  lemma HostMatchesByEither(ip: Address, n: Net, width: nat, host: HostInfo)
    requires IsSized(ip) && (host.ipv4.Absent? || IsSized(host.ipv4)) && (host.ipv6.Absent? || IsSized(host.ipv6))
    ensures IpMatches(ip, host) <==>
            exists a :: a in {host.ipv4, host.ipv6} && !a.Absent? && Wide(a) == Wide(ip)
    ensures CidrMatches(n, width, host) <==>
            exists a :: a in {host.ipv4, host.ipv6} && !a.Absent? && NetContains(n, width, a)
  {
    hide NetContains, Wide, IsSized;
    forall a | a in {host.ipv4, host.ipv6} && !a.Absent?
      ensures Canonical(a) == Canonical(ip) <==> Wide(a) == Wide(ip)
    {
      CanonicalIsWide(a, ip);
    }
    assert !NetContains(n, width, Absent) by { AbsentIsNowhere(n, width); }
    assert host.ipv4 in {host.ipv4, host.ipv6} && host.ipv6 in {host.ipv4, host.ipv6};
  }

  lemma AbsentIsNowhere(n: Net, width: nat)
    ensures !NetContains(n, width, Absent)
  {
  }

  /** The normalised name is the lower-cased one without the dots at its end. */
  lemma {:induction false} TrimmedName(s: string)
    ensures var t := TrimDots(s);
            && t <= s && (t != "" ==> t[|t| - 1] != '.') && forall i | |t| <= i < |s| :: s[i] == '.'
  {
    if s != "" && s[|s| - 1] == '.' {
      TrimmedName(s[..|s| - 1]);
    }
  }

  /** So a host that is written with dots behind its name gets the answers of the one without. */
  lemma TrailingDotsAreIgnored<O(!new)>(e: Engine<O>, host: HostInfo, dotted: HostInfo, protocol: Protocol, port: nat)
    requires dotted.ipv4 == host.ipv4 && dotted.ipv6 == host.ipv6
    requires e.lower(dotted.name) == e.lower(host.name) + "."
    ensures e.Plain(Normalized(e.lower, dotted), protocol, port) == e.Plain(Normalized(e.lower, host), protocol, port)
  {
    var name := e.lower(host.name);
    assert (name + ".")[..|name|] == name && (name + ".")[|name|] == '.';
  }
}
