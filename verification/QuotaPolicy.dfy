/**
 From configured limits to the four counters a request must pass: principal and address, each with
 a burst and a total window, with per-route overrides.
 */
module QuotaPolicy {
  import opened Common

  datatype Window = Window(limit: int, windowSeconds: int)

  datatype Profile = Profile(burst: Window, total: Window)

  datatype WindowOverride = WindowOverride(limit: Option<int>, windowSeconds: Option<int>)

  datatype ProfileOverride = ProfileOverride(burst: Option<WindowOverride>, total: Option<WindowOverride>)

  datatype RouteOverride = RouteOverride(
    anonymous: Option<ProfileOverride>, authenticated: Option<ProfileOverride>, ip: Option<ProfileOverride>)

  datatype Config = Config(
    anonymousQuota: Profile, authenticatedQuota: Profile, ipQuota: Profile, routeOverrides: map<string, RouteOverride>,
    prefix: string)

  datatype Kind = Anonymous | Authenticated

  /** Who asks: the hashed user or anonymous identity, and the hashed address. */
  datatype Principal = Principal(kind: Kind, identity: string, address: string)

  datatype Scope = ByPrincipal | ByIp

  datatype WindowName = Burst | Total

  datatype Consumption = Consumption(cost: int, key: string, limit: int, windowSeconds: int, scope: Scope, windowName: WindowName)

  function Else<T>(first: Option<T>, second: T): T {
    if first.Some? then first.value else second
  }

  /** `applyWindowOverride` */
  function ApplyWindowOverride(base: Window, change: Option<WindowOverride>): Window {
    if change == None then base
    else Window(Else(change.value.limit, base.limit), Else(change.value.windowSeconds, base.windowSeconds))
  }

  function ApplyProfileOverride(base: Profile, change: Option<ProfileOverride>): Profile {
    if change == None then base
    else Profile(ApplyWindowOverride(base.burst, change.value.burst), ApplyWindowOverride(base.total, change.value.total))
  }

  /** `resolvePrincipalProfile` */
  function PrincipalProfile(config: Config, route: string, kind: Kind): Profile {
    var base := if kind == Authenticated then config.authenticatedQuota else config.anonymousQuota;
    var change := Get(config.routeOverrides, route);
    ApplyProfileOverride(base, if change == None then None
                               else if kind == Authenticated then change.value.authenticated else change.value.anonymous)
  }

  /** `resolveIpProfile` */
  function IpProfile(config: Config, route: string): Profile {
    var change := Get(config.routeOverrides, route);
    ApplyProfileOverride(config.ipQuota, if change == None then None else change.value.ip)
  }

  function PrincipalKey(p: Principal): string {
    (if p.kind == Authenticated then "user:" else "anonymous:") + p.identity
  }

  function ScopeName(s: Scope): string {
    if s == ByPrincipal then "principal" else "ip"
  }

  function NameOf(w: WindowName): string {
    if w == Burst then "burst" else "total"
  }

  /** The Redis key: prefix, then scope, route group, window and owner joined by colons. */
  function KeyFor(prefix: string, scope: Scope, route: string, name: WindowName, owner: string): string {
    prefix + (ScopeName(scope) + ":" + (route + ":" + (NameOf(name) + ":" + owner)))
  }

  function WindowOf(profile: Profile, name: WindowName): Window {
    if name == Burst then profile.burst else profile.total
  }

  function ProfileFor(config: Config, scope: Scope, route: string, kind: Kind): Profile {
    if scope == ByPrincipal then PrincipalProfile(config, route, kind) else IpProfile(config, route)
  }

  function Owner(scope: Scope, p: Principal): string {
    if scope == ByPrincipal then PrincipalKey(p) else "ip:" + p.address
  }

  /** One entry of `buildWindowConsumptions`. */
  function ConsumptionFor(config: Config, cost: int, p: Principal, route: string, scope: Scope, name: WindowName): Consumption {
    var window := WindowOf(ProfileFor(config, scope, route, p.kind), name);
    Consumption(cost, KeyFor(config.prefix, scope, route, name, Owner(scope, p)), window.limit, window.windowSeconds, scope, name)
  }

  /** `buildQuotaConsumptions`: principal burst and total, then address burst and total. */
  function BuildQuotaConsumptions(config: Config, cost: int, p: Principal, route: string): (r: seq<Consumption>)
    ensures |r| == 4 && forall i :: 0 <= i < 4 ==> r[i].cost == cost
  {
    [ConsumptionFor(config, cost, p, route, ByPrincipal, Burst), ConsumptionFor(config, cost, p, route, ByPrincipal, Total),
     ConsumptionFor(config, cost, p, route, ByIp, Burst), ConsumptionFor(config, cost, p, route, ByIp, Total)]
  }

  // ----- the configured limits -----

  /** The consumption asks for this window, at this cost. */
  predicate Asks(c: Consumption, cost: int, window: Window, scope: Scope, name: WindowName) {
    c.cost == cost && c.limit == window.limit && c.windowSeconds == window.windowSeconds && c.scope == scope && c.windowName == name
  }

  /** Without an override the four consumptions ask for the quotas configured for the caller's own kind and for addresses. */
  lemma ConfiguredLimits(config: Config, cost: int, p: Principal, route: string)
    requires route !in config.routeOverrides
    ensures var r := BuildQuotaConsumptions(config, cost, p, route);
            && (p.kind == Authenticated ==>
                  Asks(r[0], cost, config.authenticatedQuota.burst, ByPrincipal, Burst) && Asks(r[1], cost, config.authenticatedQuota.total, ByPrincipal, Total))
            && (p.kind == Anonymous ==>
                  Asks(r[0], cost, config.anonymousQuota.burst, ByPrincipal, Burst) && Asks(r[1], cost, config.anonymousQuota.total, ByPrincipal, Total))
            && Asks(r[2], cost, config.ipQuota.burst, ByIp, Burst) && Asks(r[3], cost, config.ipQuota.total, ByIp, Total)
  {
  }

  /** The override of one window for one kind of caller, if the route group has one. */
  function OverrideOf(config: Config, route: string, scope: Scope, kind: Kind, name: WindowName): Option<WindowOverride> {
    if route !in config.routeOverrides then None
    else
      var change := config.routeOverrides[route];
      var profile := if scope == ByIp then change.ip else if kind == Authenticated then change.authenticated else change.anonymous;
      if profile == None then None else if name == Burst then profile.value.burst else profile.value.total
  }

  /** With one, each field it gives holds, and each field it leaves out is as without the override. */
  lemma OverriddenLimits(config: Config, cost: int, p: Principal, route: string, i: nat)
    requires i < 4 && route in config.routeOverrides
    ensures var c := BuildQuotaConsumptions(config, cost, p, route)[i];
            var base := BuildQuotaConsumptions(config.(routeOverrides := map[]), cost, p, route)[i];
            var change := OverrideOf(config, route, c.scope, p.kind, c.windowName);
            && c.scope == base.scope && c.windowName == base.windowName && c.key == base.key
            && c.limit == (if change.Some? && change.value.limit.Some? then change.value.limit.value else base.limit)
            && c.windowSeconds == (if change.Some? && change.value.windowSeconds.Some? then change.value.windowSeconds.value else base.windowSeconds)
  {
  }

  // ----- overrides stay where they belong -----

  function WithOverride(config: Config, route: string, change: RouteOverride): Config {
    config.(routeOverrides := config.routeOverrides[route := change])
  }

  /**
   Overriding one route group leaves the four consumptions of every other route group alone; and
   overrides of a route group that differ for one kind of caller leave those of the other kind alone,
   those that differ for addresses leave the principal's alone, and the other way round.
   */
  lemma OverridesAreLocal(config: Config, cost: int, p: Principal, route: string, changed: string, x: RouteOverride, y: RouteOverride)
    ensures route != changed ==>
              BuildQuotaConsumptions(WithOverride(config, changed, x), cost, p, route) == BuildQuotaConsumptions(config, cost, p, route)
    ensures var a := BuildQuotaConsumptions(WithOverride(config, route, x), cost, p, route);
            var b := BuildQuotaConsumptions(WithOverride(config, route, y), cost, p, route);
            && (p.kind == Authenticated && x.authenticated == y.authenticated ==> a[..2] == b[..2])
            && (p.kind == Anonymous && x.anonymous == y.anonymous ==> a[..2] == b[..2])
            && (x.ip == y.ip ==> a[2..] == b[2..])
  {
    var one, other := WithOverride(config, route, x), WithOverride(config, route, y);
    var a, b := BuildQuotaConsumptions(one, cost, p, route), BuildQuotaConsumptions(other, cost, p, route);
    assert x.ip == y.ip ==> IpProfile(one, route) == IpProfile(other, route);
    assert x.ip == y.ip ==> a[2] == b[2] && a[3] == b[3];
    if (p.kind == Authenticated && x.authenticated == y.authenticated) || (p.kind == Anonymous && x.anonymous == y.anonymous) {
      assert PrincipalProfile(one, route, p.kind) == PrincipalProfile(other, route, p.kind);
      assert a[0] == b[0] && a[1] == b[1];
    }
  }

  // ----- a counter's key names the counter -----

  ghost predicate NoColon(s: string) {
    ':' !in s
  }

  /** Identity and address are hashes in an alphabet without a colon. */
  ghost predicate Hashed(p: Principal) {
    NoColon(p.identity) && NoColon(p.address)
  }

  lemma HeadBeforeColon(a: string, x: string)
    ensures a != [] ==> (a + ":" + x)[0] == a[0] && a[0] in a && (a + ":" + x)[1..] == a[1..] + ":" + x
    ensures a == [] ==> (a + ":" + x)[0] == ':' && (a + ":" + x)[1..] == x
  {
  }

  /** A text up to its first colon, and what follows, can be told apart again. */
  lemma {:induction false} FirstColon(a: string, x: string, b: string, y: string)
    requires NoColon(a) && NoColon(b) && a + ":" + x == b + ":" + y
    ensures a == b && x == y
  {
    HeadBeforeColon(a, x);
    HeadBeforeColon(b, y);
    if a != [] {
      assert a == [a[0]] + a[1..] && b == [b[0]] + b[1..];
      FirstColon(a[1..], x, b[1..], y);
    }
  }

  lemma EndAfterColon(x: string, a: string)
    ensures var s := x + ":" + a;
            && (a != [] ==> s[|s| - 1] == a[|a| - 1] && a[|a| - 1] in a && s[..|s| - 1] == x + ":" + a[..|a| - 1])
            && (a == [] ==> s[|s| - 1] == ':' && s[..|s| - 1] == x)
  {
  }

  /** So can what follows its last colon. */
  lemma {:induction false} LastColon(x: string, a: string, y: string, b: string)
    requires NoColon(a) && NoColon(b) && x + ":" + a == y + ":" + b
    ensures x == y && a == b
    decreases |a|
  {
    EndAfterColon(x, a);
    EndAfterColon(y, b);
    if a != [] {
      assert a == a[..|a| - 1] + [a[|a| - 1]] && b == b[..|b| - 1] + [b[|b| - 1]];
      LastColon(x, a[..|a| - 1], y, b[..|b| - 1]);
    }
  }

  function OwnerKind(scope: Scope, kind: Kind): string {
    if scope == ByIp then "ip" else if kind == Authenticated then "user" else "anonymous"
  }

  function OwnerHash(scope: Scope, p: Principal): string {
    if scope == ByIp then p.address else p.identity
  }

  /** A key read from the right: hash, kind of owner, window, then scope and route group. */
  lemma KeyFromTheRight(prefix: string, scope: Scope, route: string, name: WindowName, p: Principal)
    ensures KeyFor(prefix, scope, route, name, Owner(scope, p)) ==
            prefix + (ScopeName(scope) + ":" + route) + ":" + NameOf(name) + ":" + OwnerKind(scope, p.kind) + ":" + OwnerHash(scope, p)
  {
    assert Owner(scope, p) == OwnerKind(scope, p.kind) + ":" + OwnerHash(scope, p);
    JoinedFromTheRight(prefix, ScopeName(scope), route, NameOf(name), OwnerKind(scope, p.kind), OwnerHash(scope, p));
  }

  lemma JoinedFromTheRight(prefix: string, scope: string, route: string, name: string, kind: string, hash: string)
    ensures prefix + (scope + ":" + (route + ":" + (name + ":" + (kind + ":" + hash))))
         == prefix + (scope + ":" + route) + ":" + name + ":" + kind + ":" + hash
  {
  }

  lemma WordsDiffer()
    ensures ScopeName(ByPrincipal)[0] != ScopeName(ByIp)[0] && NameOf(Burst)[0] != NameOf(Total)[0]
    ensures OwnerKind(ByPrincipal, Authenticated)[0] != OwnerKind(ByPrincipal, Anonymous)[0]
    ensures NoColon("principal") && NoColon("ip") && NoColon("burst") && NoColon("total") && NoColon("user") && NoColon("anonymous")
  {
  }

  /** Equal keys name the same scope, route group, window and owner, whatever colons route groups contain. */
  lemma KeyNamesItsCounter(prefix: string, s1: Scope, r1: string, n1: WindowName, p1: Principal,
                           s2: Scope, r2: string, n2: WindowName, p2: Principal)
    requires Hashed(p1) && Hashed(p2)
    requires KeyFor(prefix, s1, r1, n1, Owner(s1, p1)) == KeyFor(prefix, s2, r2, n2, Owner(s2, p2))
    ensures s1 == s2 && r1 == r2 && n1 == n2 && Owner(s1, p1) == Owner(s2, p2)
    ensures s1 == ByPrincipal ==> p1.kind == p2.kind
  {
    WordsDiffer();
    KeyFromTheRight(prefix, s1, r1, n1, p1);
    KeyFromTheRight(prefix, s2, r2, n2, p2);
    var h1, h2 := ScopeName(s1) + ":" + r1, ScopeName(s2) + ":" + r2;
    var w1, w2 := prefix + h1 + ":" + NameOf(n1), prefix + h2 + ":" + NameOf(n2);
    LastColon(w1 + ":" + OwnerKind(s1, p1.kind), OwnerHash(s1, p1), w2 + ":" + OwnerKind(s2, p2.kind), OwnerHash(s2, p2));
    LastColon(w1, OwnerKind(s1, p1.kind), w2, OwnerKind(s2, p2.kind));
    LastColon(prefix + h1, NameOf(n1), prefix + h2, NameOf(n2));
    assert h1 == (prefix + h1)[|prefix|..] && h2 == (prefix + h2)[|prefix|..];
    FirstColon(ScopeName(s1), r1, ScopeName(s2), r2);
  }

  /** Under one configuration, two requests that share a counter agree on its limit and its length. */
  lemma SharedCountersAgree(config: Config, c1: int, p1: Principal, r1: string, c2: int, p2: Principal, r2: string, i: nat, j: nat)
    requires Hashed(p1) && Hashed(p2) && i < 4 && j < 4
    requires BuildQuotaConsumptions(config, c1, p1, r1)[i].key == BuildQuotaConsumptions(config, c2, p2, r2)[j].key
    ensures i == j && r1 == r2
    ensures var a, b := BuildQuotaConsumptions(config, c1, p1, r1)[i], BuildQuotaConsumptions(config, c2, p2, r2)[j];
            a.limit == b.limit && a.windowSeconds == b.windowSeconds
  {
    var a, b := BuildQuotaConsumptions(config, c1, p1, r1)[i], BuildQuotaConsumptions(config, c2, p2, r2)[j];
    KeyNamesItsCounter(config.prefix, a.scope, r1, a.windowName, p1, b.scope, r2, b.windowName, p2);
  }
}
