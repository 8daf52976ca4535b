/**
 What the passes of the force simulation do to velocities: springs bring their two bodies towards
 the rest length, collisions bring overlapping bodies towards two radii, charges act by the inverse
 square, and the centre and the boundary pull inwards.
 */
module ForceLaws {
  import opened ForceSimulation

  /** Where a body will be after its next step. */
  function Ahead(b: Body): Vec {
    Plus(b.pos, b.vel)
  }

  /** The gap from one point to another and its length; a given direction of length one when they coincide. */
  ghost predicate GapIs(source: Vec, target: Vec, coinciding: Vec, m: Maths, d: Vec, distance: real) {
    var length := m.sqrt(Dot(Minus(target, source)));
    if length == 0.0 then d == coinciding && distance == 1.0 else d == Minus(target, source) && distance == length
  }

  /** The velocity of one body of a list as another sees it. */
  function Relative(bodies: seq<Body>, i: nat, j: nat): Vec
    requires i < |bodies| && j < |bodies|
  {
    Minus(bodies[j].vel, bodies[i].vel)
  }

  /** The two bodies gain and lose the same velocity, nothing else changes, and their relative velocity gains this much. */
  ghost predicate PairGains(bodies: seq<Body>, after: seq<Body>, i: nat, j: nat, gain: Vec)
    requires i < |bodies| && j < |bodies|
  {
    && |after| == |bodies|
    && (forall k :: 0 <= k < |bodies| ==> after[k].id == bodies[k].id && after[k].pos == bodies[k].pos)
    && (forall k :: 0 <= k < |bodies| && k != i && k != j ==> after[k] == bodies[k])
    && Plus(after[i].vel, after[j].vel) == Plus(bodies[i].vel, bodies[j].vel)
    && Relative(after, i, j) == Plus(Relative(bodies, i, j), gain)
  }

  lemma ExchangeGains(bodies: seq<Body>, i: nat, j: nat, kick: Vec, gain: Vec)
    requires i < |bodies| && j < |bodies| && i != j && gain == Times(-2.0, kick)
    ensures PairGains(bodies, Exchange(bodies, i, j, kick), i, j, gain)
  {
  }

  lemma Doubled(force: real, x: real)
    ensures -2.0 * (force * 0.5 * x) == -force * x
  {
    assert -2.0 * (force * 0.5 * x) == -2.0 * 0.5 * (force * x);
  }

  /** A kick of half a force on each of two bodies, as what their relative velocity gains. */
  lemma HalfEach(kick: Vec, force: real, factor: real, d: Vec)
    requires kick == Times(force * 0.5, d) && factor == -force
    ensures Times(factor, d) == Times(-2.0, kick)
  {
    Doubled(force, d.x);
    Doubled(force, d.y);
  }

  // ----- springs -----

  /** How far a spring goes in one tick: all the way to its rest length at one. */
  function Stiffness(strength: real, alpha: real, p: Params): real {
    alpha * (p.linkBaseStrength + strength * p.linkStrengthFactor)
  }

  /** What the relative velocity of a spring's bodies gains along their gap. */
  function SpringGain(strength: real, distance: real, alpha: real, p: Params): real
    requires distance != 0.0
  {
    Stiffness(strength, alpha, p) * ((RestLength(strength, p) - distance) / distance)
  }

  lemma Fraction(far: real, near: real, distance: real, alpha: real, strength: real)
    requires distance != 0.0
    ensures alpha * strength * ((near - far) / distance) == -((far - near) / distance * alpha * strength)
  {
    var q := (far - near) / distance;
    assert (near - far) / distance == -q;
    assert q * alpha * strength == alpha * strength * q;
  }

  lemma LinkKickIs(source: Body, target: Body, strength: real, alpha: real, p: Params, m: Maths, d: Vec, distance: real)
    returns (force: real)
    requires GapIs(Ahead(source), Ahead(target), m.direction(source.id, target.id), m, d, distance)
    ensures distance != 0.0 && SpringGain(strength, distance, alpha, p) == -force
    ensures LinkKick(source, target, strength, alpha, p, m) == Times(force * 0.5, d)
  {
    assert AheadGap(source, target, m) == (d, distance);
    var stiff := p.linkBaseStrength + strength * p.linkStrengthFactor;
    force := (distance - RestLength(strength, p)) / distance * alpha * stiff;
    Fraction(distance, RestLength(strength, p), distance, alpha, stiff);
  }

  lemma SpringKick(source: Body, target: Body, strength: real, alpha: real, p: Params, m: Maths, d: Vec, distance: real)
    requires GapIs(Ahead(source), Ahead(target), m.direction(source.id, target.id), m, d, distance)
    ensures distance != 0.0
    ensures Times(SpringGain(strength, distance, alpha, p), d) == Times(-2.0, LinkKick(source, target, strength, alpha, p, m))
  {
    var force := LinkKickIs(source, target, strength, alpha, p, m, d, distance);
    HalfEach(LinkKick(source, target, strength, alpha, p, m), force, SpringGain(strength, distance, alpha, p), d);
  }

  /**
   One spring of the link pass: the relative velocity of its two bodies grows along their gap by the
   stiffness times the missing part of the rest length; nothing else changes.
   */
  lemma SpringGains(bodies: seq<Body>, springs: seq<Spring>, k: nat, next: nat, alpha: real, p: Params, m: Maths, d: Vec, distance: real)
    returns (once: seq<Body>)
    requires next == k + 1 <= |springs| && Linked(springs, |bodies|) && springs[k].source != springs[k].target
    requires var source, target := bodies[springs[k].source], bodies[springs[k].target];
             GapIs(Ahead(source), Ahead(target), m.direction(source.id, target.id), m, d, distance)
    ensures |once| == |bodies| && LinkFrom(bodies, springs, k, alpha, p, m) == LinkFrom(once, springs, next, alpha, p, m)
    ensures distance != 0.0
    ensures PairGains(bodies, once, springs[k].source, springs[k].target, Times(SpringGain(springs[k].strength, distance, alpha, p), d))
  {
    var s := springs[k];
    var kick := LinkKick(bodies[s.source], bodies[s.target], s.strength, alpha, p, m);
    SpringKick(bodies[s.source], bodies[s.target], s.strength, alpha, p, m, d, distance);
    once := OneSpring(bodies, springs, k, next, alpha, p, m, kick);
    ExchangeGains(bodies, s.source, s.target, kick, Times(-2.0, kick));
  }

  lemma OneSpring(bodies: seq<Body>, springs: seq<Spring>, k: nat, next: nat, alpha: real, p: Params, m: Maths, kick: Vec)
    returns (once: seq<Body>)
    requires next == k + 1 <= |springs| && Linked(springs, |bodies|)
    requires kick == LinkKick(bodies[springs[k].source], bodies[springs[k].target], springs[k].strength, alpha, p, m)
    ensures once == Exchange(bodies, springs[k].source, springs[k].target, kick)
    ensures LinkFrom(bodies, springs, k, alpha, p, m) == LinkFrom(once, springs, next, alpha, p, m)
  {
    once := Exchange(bodies, springs[k].source, springs[k].target, kick);
  }

  /** The sign of that gain: the bodies approach when further apart than the rest length, part when closer, and else keep. */
  lemma SpringSeeksRest(strength: real, distance: real, alpha: real, p: Params)
    requires distance > 0.0 && Stiffness(strength, alpha, p) > 0.0
    ensures SpringGain(strength, distance, alpha, p) < 0.0 <==> distance > RestLength(strength, p)
    ensures SpringGain(strength, distance, alpha, p) > 0.0 <==> distance < RestLength(strength, p)
  {
    GainSign(RestLength(strength, p), distance, Stiffness(strength, alpha, p));
  }

  lemma GainSign(rest: real, distance: real, stiffness: real)
    requires distance > 0.0 && stiffness > 0.0
    ensures stiffness * ((rest - distance) / distance) < 0.0 <==> distance > rest
    ensures stiffness * ((rest - distance) / distance) > 0.0 <==> distance < rest
  {
    ScaledSign(rest - distance, distance);
    ScaledSign((rest - distance) / distance, stiffness);
    ScaledSign(-(rest - distance), distance);
    assert -(rest - distance) / distance == -((rest - distance) / distance);
  }

  /** A spring of stiffness one is at its rest length after its step: its bodies' next positions are that far apart along the gap. */
  lemma FullSpringReachesRest(bodies: seq<Body>, springs: seq<Spring>, k: nat, next: nat, alpha: real, p: Params, m: Maths)
    returns (once: seq<Body>)
    requires next == k + 1 <= |springs| && Linked(springs, |bodies|) && springs[k].source != springs[k].target
    requires Stiffness(springs[k].strength, alpha, p) == 1.0
    requires m.sqrt(Dot(Minus(Ahead(bodies[springs[k].target]), Ahead(bodies[springs[k].source])))) != 0.0
    ensures |once| == |bodies| && LinkFrom(bodies, springs, k, alpha, p, m) == LinkFrom(once, springs, next, alpha, p, m)
    ensures var s := springs[k];
            var gap := Minus(Ahead(bodies[s.target]), Ahead(bodies[s.source]));
            Minus(Ahead(once[s.target]), Ahead(once[s.source])) == Times(RestLength(s.strength, p) / m.sqrt(Dot(gap)), gap)
  {
    var s := springs[k];
    var gap := Minus(Ahead(bodies[s.target]), Ahead(bodies[s.source]));
    var distance := m.sqrt(Dot(gap));
    once := SpringGains(bodies, springs, k, next, alpha, p, m, gap, distance);
    var rest, gain := RestLength(s.strength, p), SpringGain(s.strength, distance, alpha, p);
    GainAtOne(rest, distance, Stiffness(s.strength, alpha, p));
    Filled(rest / distance, gain, gap);
    AheadGains(bodies, once, s.source, s.target, Times(gain, gap));
  }

  lemma GainAtOne(rest: real, distance: real, stiffness: real)
    requires distance != 0.0 && stiffness == 1.0
    ensures stiffness * ((rest - distance) / distance) == rest / distance - 1.0
  {
    var q := rest / distance;
    assert q * distance == rest;
    QuotientIs(rest - distance, distance, q - 1.0);
  }

  lemma QuotientIs(x: real, distance: real, q: real)
    requires distance != 0.0 && q * distance == x
    ensures x / distance == q
  {
    var r := x / distance;
    assert r * distance == x;
    assert (r - q) * distance == 0.0;
    NoFactor(r - q, distance);
  }

  lemma NoFactor(x: real, y: real)
    requires y != 0.0 && x * y == 0.0
    ensures x == 0.0
  {
  }

  lemma Filled(share: real, gain: real, d: Vec)
    requires gain == share - 1.0
    ensures Plus(d, Times(gain, d)) == Times(share, d)
  {
    assert d.x + gain * d.x == share * d.x;
    assert d.y + gain * d.y == share * d.y;
  }

  lemma AheadGains(bodies: seq<Body>, once: seq<Body>, i: nat, j: nat, gain: Vec)
    requires i < |bodies| && j < |bodies| && PairGains(bodies, once, i, j, gain)
    ensures Minus(Ahead(once[j]), Ahead(once[i])) == Plus(Minus(Ahead(bodies[j]), Ahead(bodies[i])), gain)
  {
    assert once[i].pos == bodies[i].pos && once[j].pos == bodies[j].pos;
  }

  // ----- the pair passes -----

  /** A step of a pair pass on the pair (`i`, `j`). */
  ghost predicate PairStep(force: PairForce, bodies: seq<Body>, once: seq<Body>, i: nat, j: nat, alpha: real, p: Params, m: Maths)
    requires i < j
  {
    var next := j + 1;
    |once| == |bodies| && PairsFrom(force, bodies, i, j, alpha, p, m) == PairsFrom(force, once, i, next, alpha, p, m)
  }

  lemma CollisionKickIs(source: Body, target: Body, alpha: real, p: Params, m: Maths, d: Vec, distance: real)
    requires GapIs(Ahead(source), Ahead(target), m.direction(source.id, target.id), m, d, distance)
    ensures distance != 0.0
    ensures var force := (p.collisionRadius * 2.0 - distance) / distance * p.collisionStrength * alpha;
            PairKick(Collision, source, target, alpha, p, m) ==
            Times(-1.0, if distance >= p.collisionRadius * 2.0 then ZERO else Times(force * 0.5, d))
  {
    assert AheadGap(source, target, m) == (d, distance);
  }

  lemma Negated(force: real, d: Vec)
    ensures Times(-2.0, Times(-1.0, Times(force * 0.5, d))) == Times(force, d)
  {
    Doubled(force, d.x);
    Doubled(force, d.y);
  }

  lemma Reordered(x: real, alpha: real, strength: real)
    ensures x * strength * alpha == alpha * strength * x
  {
  }

  /** What the relative velocity of an overlapping pair gains along its gap. */
  function CollisionGain(distance: real, alpha: real, p: Params): real
    requires distance != 0.0
  {
    alpha * p.collisionStrength * ((p.collisionRadius * 2.0 - distance) / distance)
  }

  lemma CollisionKicks(source: Body, target: Body, alpha: real, p: Params, m: Maths, d: Vec, distance: real)
    requires GapIs(Ahead(source), Ahead(target), m.direction(source.id, target.id), m, d, distance)
    ensures distance != 0.0
    ensures Times(-2.0, PairKick(Collision, source, target, alpha, p, m)) ==
            if distance >= p.collisionRadius * 2.0 then ZERO
            else Times(CollisionGain(distance, alpha, p), d)
  {
    CollisionKickIs(source, target, alpha, p, m, d, distance);
    if distance < p.collisionRadius * 2.0 {
      var missing := (p.collisionRadius * 2.0 - distance) / distance;
      Negated(missing * p.collisionStrength * alpha, d);
      Reordered(missing, alpha, p.collisionStrength);
    }
  }

  /**
   One pair of the collision pass: bodies at least two radii apart stay as they are; the relative
   velocity of closer ones grows along their gap by the strength times what is missing to two radii.
   */
  lemma CollisionGains(bodies: seq<Body>, i: nat, j: nat, alpha: real, p: Params, m: Maths, d: Vec, distance: real) returns (once: seq<Body>)
    requires i < j < |bodies|
    requires GapIs(Ahead(bodies[i]), Ahead(bodies[j]), m.direction(bodies[i].id, bodies[j].id), m, d, distance)
    ensures distance != 0.0 && PairStep(Collision, bodies, once, i, j, alpha, p, m)
    ensures PairGains(bodies, once, i, j,
                      if distance >= p.collisionRadius * 2.0 then ZERO
                      else Times(CollisionGain(distance, alpha, p), d))
  {
    var kick := PairKick(Collision, bodies[i], bodies[j], alpha, p, m);
    once := Exchange(bodies, i, j, kick);
    CollisionKicks(bodies[i], bodies[j], alpha, p, m, d, distance);
    ExchangeGains(bodies, i, j, kick, Times(-2.0, kick));
  }

  /** Bodies closer than two radii part, and only they. */
  lemma CollisionParts(distance: real, alpha: real, p: Params)
    requires distance > 0.0 && p.collisionStrength > 0.0 && alpha > 0.0
    ensures CollisionGain(distance, alpha, p) > 0.0 <==> distance < p.collisionRadius * 2.0
  {
    ScaledSign(p.collisionStrength, alpha);
    assert alpha * p.collisionStrength == p.collisionStrength * alpha;
    GainSign(p.collisionRadius * 2.0, distance, alpha * p.collisionStrength);
  }

  /** The square a charge is divided by: never below one. */
  function AtLeastOne(x: real): real {
    if x < 1.0 then 1.0 else x
  }

  /** What the relative velocity of a pair gains along the gap of its positions. */
  function ChargeGain(between: Vec, alpha: real, p: Params): real {
    -2.0 * (p.chargeStrength * alpha / AtLeastOne(Dot(between)))
  }

  /**
   One pair of the charge pass: the relative velocity of the two bodies changes along the gap of
   their positions by twice the charge over the square of the gap, against its sign: a negative
   charge parts them.
   */
  lemma ChargeGains(bodies: seq<Body>, i: nat, j: nat, alpha: real, p: Params, m: Maths, d: Vec) returns (once: seq<Body>)
    requires i < j < |bodies|
    requires var between := Minus(bodies[j].pos, bodies[i].pos);
             d == if Dot(between) == 0.0 then m.direction(bodies[i].id, bodies[j].id) else between
    ensures PairStep(Charge, bodies, once, i, j, alpha, p, m)
    ensures PairGains(bodies, once, i, j, Times(ChargeGain(Minus(bodies[j].pos, bodies[i].pos), alpha, p), d))
  {
    var kick := PairKick(Charge, bodies[i], bodies[j], alpha, p, m);
    once := Exchange(bodies, i, j, kick);
    ChargeKicks(bodies[i], bodies[j], alpha, p, m, d);
    ExchangeGains(bodies, i, j, kick, Times(-2.0, kick));
  }

  lemma ChargeKicks(source: Body, target: Body, alpha: real, p: Params, m: Maths, d: Vec)
    requires var between := Minus(target.pos, source.pos);
             d == if Dot(between) == 0.0 then m.direction(source.id, target.id) else between
    ensures Times(ChargeGain(Minus(target.pos, source.pos), alpha, p), d) == Times(-2.0, PairKick(Charge, source, target, alpha, p, m))
  {
    var between := Minus(target.pos, source.pos);
    Scaled(-2.0, p.chargeStrength * alpha / AtLeastOne(Dot(between)), d);
    assert ChargeGap(source, target, m) == (d, AtLeastOne(Dot(between)));
  }

  /** Its sign is against the charge's. */
  lemma ChargeParts(between: Vec, alpha: real, p: Params)
    requires alpha > 0.0
    ensures ChargeGain(between, alpha, p) > 0.0 <==> p.chargeStrength < 0.0
    ensures ChargeGain(between, alpha, p) < 0.0 <==> p.chargeStrength > 0.0
  {
    var squared := AtLeastOne(Dot(between));
    ScaledSign(p.chargeStrength, alpha);
    ScaledSign(p.chargeStrength * alpha, squared);
    ScaledSign(-p.chargeStrength, alpha);
    ScaledSign(-p.chargeStrength * alpha, squared);
    assert -p.chargeStrength * alpha / squared == -(p.chargeStrength * alpha / squared);
  }

  lemma Scaled(a: real, b: real, d: Vec)
    ensures Times(a, Times(b, d)) == Times(a * b, d)
  {
    assert a * (b * d.x) == a * b * d.x;
    assert a * (b * d.y) == a * b * d.y;
  }

  // ----- a whole pass over all pairs -----

  /** A gap and its length, or the given direction at length one. */
  function Along(gap: Vec, coinciding: Vec, m: Maths): (r: (Vec, real))
    ensures r.1 != 0.0
  {
    var length := m.sqrt(Dot(gap));
    if length == 0.0 then (coinciding, 1.0) else (gap, length)
  }

  /** What a pair pass does to one pair. */
  ghost predicate Kicked(force: PairForce, bodies: seq<Body>, once: seq<Body>, i: nat, j: nat, alpha: real, p: Params, m: Maths)
    requires i < |bodies| && j < |bodies|
  {
    var coinciding := m.direction(bodies[i].id, bodies[j].id);
    match force
    case Charge =>
      var between := Minus(bodies[j].pos, bodies[i].pos);
      PairGains(bodies, once, i, j, Times(ChargeGain(between, alpha, p), if Dot(between) == 0.0 then coinciding else between))
    case Collision =>
      var (d, distance) := Along(Minus(Ahead(bodies[j]), Ahead(bodies[i])), coinciding, m);
      PairGains(bodies, once, i, j, if distance >= p.collisionRadius * 2.0 then ZERO else Times(CollisionGain(distance, alpha, p), d))
  }

  lemma OnePair(force: PairForce, bodies: seq<Body>, i: nat, j: nat, alpha: real, p: Params, m: Maths) returns (once: seq<Body>)
    requires i < j < |bodies|
    ensures PairStep(force, bodies, once, i, j, alpha, p, m) && Kicked(force, bodies, once, i, j, alpha, p, m)
  {
    var coinciding := m.direction(bodies[i].id, bodies[j].id);
    match force
    case Charge =>
      var between := Minus(bodies[j].pos, bodies[i].pos);
      once := ChargeGains(bodies, i, j, alpha, p, m, if Dot(between) == 0.0 then coinciding else between);
    case Collision =>
      var (d, distance) := Along(Minus(Ahead(bodies[j]), Ahead(bodies[i])), coinciding, m);
      once := CollisionGains(bodies, i, j, alpha, p, m, d, distance);
  }

  /** The pairs are kicked one after the other. */
  ghost predicate KickedInTurn(force: PairForce, bodies: seq<Body>, after: seq<Body>, pairs: seq<(nat, nat)>, alpha: real, p: Params, m: Maths)
    decreases |pairs|
  {
    if pairs == [] then after == bodies
    else
      && pairs[0].0 < |bodies| && pairs[0].1 < |bodies|
      && exists once :: Kicked(force, bodies, once, pairs[0].0, pairs[0].1, alpha, p, m)
                        && KickedInTurn(force, once, after, pairs[1..], alpha, p, m)
  }

  predicate PairBefore(x: (nat, nat), y: (nat, nat)) {
    x.0 < y.0 || (x.0 == y.0 && x.1 < y.1)
  }

  /** Every pair of `n` bodies from the pair (`i`, `j`) on, each once, row by row. */
  ghost predicate PairsOnward(pairs: seq<(nat, nat)>, i: nat, j: nat, n: nat) {
    && (forall a, b {:trigger (a, b) in pairs} :: (a, b) in pairs <==> a < b < n && (a > i || (a == i && b >= j)))
    && forall x, y :: 0 <= x < y < |pairs| ==> PairBefore(pairs[x], pairs[y])
  }

  lemma PairAhead(pairs: seq<(nat, nat)>, i: nat, j: nat, next: nat, n: nat)
    requires i < j < n && next == j + 1 && PairsOnward(pairs, i, next, n)
    ensures PairsOnward([(i, j)] + pairs, i, j, n)
  {
    var all := [(i, j)] + pairs;
    forall a, b ensures (a, b) in all <==> a < b < n && (a > i || (a == i && b >= j)) {
      assert (a, b) in all <==> (a, b) == (i, j) || (a, b) in pairs;
    }
    forall x, y | 0 <= x < y < |all| ensures PairBefore(all[x], all[y]) {
      var a, b := all[y].0, all[y].1;
      assert (a, b) == pairs[y - 1] && (a, b) in pairs;
    }
  }

  lemma {:induction false} RestOfPass(force: PairForce, bodies: seq<Body>, i: nat, j: nat, alpha: real, p: Params, m: Maths)
    returns (pairs: seq<(nat, nat)>)
    requires i < j
    ensures PairsOnward(pairs, i, j, |bodies|)
    ensures KickedInTurn(force, bodies, PairsFrom(force, bodies, i, j, alpha, p, m), pairs, alpha, p, m)
    decreases |bodies| - i, |bodies| + 1 - j
  {
    if i >= |bodies| {
      pairs := [];
    } else if j >= |bodies| {
      pairs := RestOfPass(force, bodies, i + 1, i + 2, alpha, p, m);
    } else {
      var next := j + 1;
      var once := OnePair(force, bodies, i, j, alpha, p, m);
      var rest := RestOfPass(force, once, i, next, alpha, p, m);
      PairAhead(rest, i, j, next, |bodies|);
      pairs := [(i, j)] + rest;
      assert pairs[1..] == rest;
    }
  }

  /** A pass kicks every pair of bodies exactly once, row by row, each as the ones before have left it. */
  lemma PassKicksEveryPair(force: PairForce, bodies: seq<Body>, alpha: real, p: Params, m: Maths) returns (pairs: seq<(nat, nat)>)
    ensures PairsOnward(pairs, 0, 1, |bodies|)
    ensures KickedInTurn(force, bodies, PairsFrom(force, bodies, 0, 1, alpha, p, m), pairs, alpha, p, m)
  {
    pairs := RestOfPass(force, bodies, 0, 1, alpha, p, m);
  }

  // ----- the centre and the boundary -----

  /** Gravity changes each velocity towards the centre, in proportion to the distance. */
  lemma CenterGains(bodies: seq<Body>, i: nat, alpha: real, p: Params)
    requires i < |bodies|
    ensures var after := CenteredAll(bodies, alpha, p);
            && |after| == |bodies| && after[i].id == bodies[i].id && after[i].pos == bodies[i].pos
            && after[i].vel == Plus(bodies[i].vel, Times(-(p.centerGravityStrength * alpha), bodies[i].pos))
  {
    var k := p.centerGravityStrength * alpha;
    assert k * (0.0 - bodies[i].pos.x) == -k * bodies[i].pos.x;
    assert k * (0.0 - bodies[i].pos.y) == -k * bodies[i].pos.y;
  }

  /** The boundary changes the velocity of bodies beyond its radius alone, towards the centre. */
  lemma BoundaryGains(bodies: seq<Body>, i: nat, alpha: real, p: Params, m: Maths)
    returns (factor: real)
    requires i < |bodies| && p.radialBoundaryRadius > 0.0 && p.radialBoundaryStrength > 0.0 && alpha > 0.0
    ensures var after := BoundedAll(bodies, alpha, p, m);
            && |after| == |bodies| && after[i].id == bodies[i].id && after[i].pos == bodies[i].pos
            && after[i].vel == Minus(bodies[i].vel, Times(factor, bodies[i].pos))
    ensures factor >= 0.0 && (factor > 0.0 <==> m.sqrt(Dot(bodies[i].pos)) > p.radialBoundaryRadius)
  {
    var distance := m.sqrt(Dot(bodies[i].pos));
    if distance <= p.radialBoundaryRadius {
      factor := 0.0;
      assert Times(0.0, bodies[i].pos) == ZERO;
    } else {
      var excess := distance - p.radialBoundaryRadius;
      ScaledSign(excess, distance);
      ScaledSign(excess / distance, p.radialBoundaryStrength);
      ScaledSign(excess / distance * p.radialBoundaryStrength, alpha);
      factor := excess / distance * p.radialBoundaryStrength * alpha;
    }
  }

  // ----- two bodies at rest -----

  /** Two overlapping bodies at rest are parted by the collision pass, and two others are left alone. */
  lemma RestingPairParts(a: Body, b: Body, alpha: real, p: Params, m: Maths)
    requires a.vel == ZERO && b.vel == ZERO && alpha > 0.0 && p.collisionStrength > 0.0
    requires m.sqrt(Dot(Minus(b.pos, a.pos))) > 0.0
    ensures var after := PairsFrom(Collision, [a, b], 0, 1, alpha, p, m);
            |after| == 2 &&
            if m.sqrt(Dot(Minus(b.pos, a.pos))) >= p.collisionRadius * 2.0 then after == [a, b]
            else exists factor :: factor > 0.0 && Relative(after, 0, 1) == Times(factor, Minus(b.pos, a.pos))
  {
    var bodies := [a, b];
    var d, distance := Minus(b.pos, a.pos), m.sqrt(Dot(Minus(b.pos, a.pos)));
    assert Minus(Ahead(b), Ahead(a)) == d;
    var once := CollisionGains(bodies, 0, 1, alpha, p, m, d, distance);
    assert PairsFrom(Collision, once, 0, 2, alpha, p, m) == PairsFrom(Collision, once, 1, 2, alpha, p, m)
        == PairsFrom(Collision, once, 2, 3, alpha, p, m) == once;
    CollisionParts(distance, alpha, p);
    if distance < p.collisionRadius * 2.0 {
      assert Relative(once, 0, 1) == Times(CollisionGain(distance, alpha, p), d);
    }
  }

  // ----- a whole tick of two bodies -----

  function AfterSpring(gap: Vec, velocity: Vec, strength: real, alpha: real, p: Params, m: Maths, coinciding: Vec): Vec {
    var (d, distance) := Along(Plus(gap, velocity), coinciding, m);
    Plus(velocity, Times(SpringGain(strength, distance, alpha, p), d))
  }

  function AfterCharge(gap: Vec, velocity: Vec, alpha: real, p: Params, coinciding: Vec): Vec {
    Plus(velocity, Times(ChargeGain(gap, alpha, p), if Dot(gap) == 0.0 then coinciding else gap))
  }

  function AfterCollision(gap: Vec, velocity: Vec, alpha: real, p: Params, m: Maths, coinciding: Vec): Vec {
    var (d, distance) := Along(Plus(gap, velocity), coinciding, m);
    if distance >= p.collisionRadius * 2.0 then Plus(velocity, ZERO) else Plus(velocity, Times(CollisionGain(distance, alpha, p), d))
  }

  function AfterStep(gap: Vec, velocity: Vec, alpha: real, p: Params): (Vec, Vec) {
    var kept := Times(p.velocityRetention, Minus(velocity, Times(p.centerGravityStrength * alpha, gap)));
    (Plus(gap, kept), kept)
  }

  /** The relative velocity after the spring, the charge and the collision, in this order. */
  function AfterForces(gap: Vec, velocity: Vec, strength: real, alpha: real, p: Params, m: Maths, coinciding: Vec): Vec {
    AfterCollision(gap, AfterCharge(gap, AfterSpring(gap, velocity, strength, alpha, p, m, coinciding), alpha, p, coinciding), alpha, p, m, coinciding)
  }

  /** Two bodies with this gap and relative velocity. */
  ghost predicate TwoBodies(bodies: seq<Body>, a: int, b: int, gap: Vec, velocity: Vec) {
    && |bodies| == 2 && bodies[0].id == a && bodies[1].id == b
    && Minus(bodies[1].pos, bodies[0].pos) == gap && Relative(bodies, 0, 1) == velocity
  }

  lemma AheadGapIs(bodies: seq<Body>, a: int, b: int, gap: Vec, velocity: Vec, coinciding: Vec, m: Maths)
    requires TwoBodies(bodies, a, b, gap, velocity)
    ensures var (d, distance) := Along(Plus(gap, velocity), coinciding, m);
            GapIs(Ahead(bodies[0]), Ahead(bodies[1]), coinciding, m, d, distance)
  {
    assert Minus(Ahead(bodies[1]), Ahead(bodies[0])) == Plus(gap, velocity);
  }

  lemma SpringOfTwo(bodies: seq<Body>, springs: seq<Spring>, a: int, b: int, gap: Vec, velocity: Vec, strength: real, alpha: real, p: Params, m: Maths)
    requires TwoBodies(bodies, a, b, gap, velocity) && springs == [Spring(0, 1, strength)]
    ensures Linked(springs, 2)
    ensures TwoBodies(LinkFrom(bodies, springs, 0, alpha, p, m), a, b, gap,
                      AfterSpring(gap, velocity, strength, alpha, p, m, m.direction(a, b)))
  {
    var (d, distance) := Along(Plus(gap, velocity), m.direction(a, b), m);
    AheadGapIs(bodies, a, b, gap, velocity, m.direction(a, b), m);
    var once := SpringGains(bodies, springs, 0, 1, alpha, p, m, d, distance);
    assert LinkFrom(once, springs, 1, alpha, p, m) == once;
  }

  lemma PassOfTwo(force: PairForce, bodies: seq<Body>, once: seq<Body>, alpha: real, p: Params, m: Maths)
    requires |bodies| == 2 && PairStep(force, bodies, once, 0, 1, alpha, p, m)
    ensures PairsFrom(force, bodies, 0, 1, alpha, p, m) == once
  {
    assert PairsFrom(force, once, 0, 2, alpha, p, m) == PairsFrom(force, once, 1, 2, alpha, p, m) == PairsFrom(force, once, 2, 3, alpha, p, m);
  }

  lemma ChargeOfTwo(bodies: seq<Body>, a: int, b: int, gap: Vec, velocity: Vec, alpha: real, p: Params, m: Maths)
    requires TwoBodies(bodies, a, b, gap, velocity)
    ensures TwoBodies(PairsFrom(Charge, bodies, 0, 1, alpha, p, m), a, b, gap, AfterCharge(gap, velocity, alpha, p, m.direction(a, b)))
  {
    var once := ChargeGains(bodies, 0, 1, alpha, p, m, if Dot(gap) == 0.0 then m.direction(a, b) else gap);
    PassOfTwo(Charge, bodies, once, alpha, p, m);
  }

  lemma CollisionOfTwo(bodies: seq<Body>, a: int, b: int, gap: Vec, velocity: Vec, alpha: real, p: Params, m: Maths)
    requires TwoBodies(bodies, a, b, gap, velocity)
    ensures TwoBodies(PairsFrom(Collision, bodies, 0, 1, alpha, p, m), a, b, gap,
                      AfterCollision(gap, velocity, alpha, p, m, m.direction(a, b)))
  {
    var (d, distance) := Along(Plus(gap, velocity), m.direction(a, b), m);
    AheadGapIs(bodies, a, b, gap, velocity, m.direction(a, b), m);
    var once := CollisionGains(bodies, 0, 1, alpha, p, m, d, distance);
    PassOfTwo(Collision, bodies, once, alpha, p, m);
  }

  lemma ScaledDifference(k: real, x: Vec, y: Vec)
    ensures Minus(Times(k, x), Times(k, y)) == Times(k, Minus(x, y))
  {
    assert k * x.x - k * y.x == k * (x.x - y.x);
    assert k * x.y - k * y.y == k * (x.y - y.y);
  }

  lemma CenterOfTwo(bodies: seq<Body>, a: int, b: int, gap: Vec, velocity: Vec, alpha: real, p: Params)
    requires TwoBodies(bodies, a, b, gap, velocity)
    ensures TwoBodies(CenteredAll(bodies, alpha, p), a, b, gap, Minus(velocity, Times(p.centerGravityStrength * alpha, gap)))
  {
    var k := p.centerGravityStrength * alpha;
    CenterGains(bodies, 0, alpha, p);
    CenterGains(bodies, 1, alpha, p);
    ScaledDifference(-k, bodies[1].pos, bodies[0].pos);
    assert Times(-k, gap) == Minus(ZERO, Times(k, gap));
  }

  lemma MoveOfTwo(bodies: seq<Body>, a: int, b: int, gap: Vec, velocity: Vec, p: Params)
    requires TwoBodies(bodies, a, b, gap, velocity)
    ensures var kept := Times(p.velocityRetention, velocity); TwoBodies(MovedAll(bodies, p), a, b, Plus(gap, kept), kept)
  {
    ScaledDifference(p.velocityRetention, bodies[1].vel, bodies[0].vel);
  }

  /** What the three forces leave of a tick of two bodies joined by one spring. */
  lemma ForcesOfTwo(bodies: seq<Body>, springs: seq<Spring>, a: int, b: int, gap: Vec, velocity: Vec, strength: real, alpha: real, p: Params, m: Maths)
    returns (apart: seq<Body>)
    requires TwoBodies(bodies, a, b, gap, velocity) && springs == [Spring(0, 1, strength)]
    ensures Linked(springs, 2)
    ensures TwoBodies(apart, a, b, gap, AfterForces(gap, velocity, strength, alpha, p, m, m.direction(a, b)))
    ensures Tick(bodies, springs, alpha, p, m) == MovedAll(BoundedAll(CenteredAll(apart, alpha, p), alpha, p, m), p)
  {
    SpringOfTwo(bodies, springs, a, b, gap, velocity, strength, alpha, p, m);
    var pulled := AfterSpring(gap, velocity, strength, alpha, p, m, m.direction(a, b));
    var linked := LinkFrom(bodies, springs, 0, alpha, p, m);
    ChargeOfTwo(linked, a, b, gap, pulled, alpha, p, m);
    var charged := PairsFrom(Charge, linked, 0, 1, alpha, p, m);
    CollisionOfTwo(charged, a, b, gap, AfterCharge(gap, pulled, alpha, p, m.direction(a, b)), alpha, p, m);
    apart := PairsFrom(Collision, charged, 0, 1, alpha, p, m);
  }

  lemma StepOfTwo(bodies: seq<Body>, a: int, b: int, gap: Vec, velocity: Vec, alpha: real, p: Params, m: Maths)
    requires TwoBodies(bodies, a, b, gap, velocity) && RadialOff(p)
    ensures var (gap', velocity') := AfterStep(gap, velocity, alpha, p);
            TwoBodies(MovedAll(BoundedAll(CenteredAll(bodies, alpha, p), alpha, p, m), p), a, b, gap', velocity')
  {
    CenterOfTwo(bodies, a, b, gap, velocity, alpha, p);
    var centered := CenteredAll(bodies, alpha, p);
    BoundaryOff(centered, alpha, p, m);
    MoveOfTwo(centered, a, b, gap, Minus(velocity, Times(p.centerGravityStrength * alpha, gap)), p);
  }

  /**
   The two-body problem: with the boundary off, a tick of two bodies joined by a spring moves their
   gap and relative velocity by the three forces, gravity and the step, whatever else they are doing.
   */
  lemma TickOfTwo(bodies: seq<Body>, springs: seq<Spring>, a: int, b: int, gap: Vec, velocity: Vec, strength: real, alpha: real, p: Params, m: Maths)
    requires TwoBodies(bodies, a, b, gap, velocity) && springs == [Spring(0, 1, strength)] && RadialOff(p)
    ensures Linked(springs, 2)
    ensures var (gap', velocity') := AfterStep(gap, AfterForces(gap, velocity, strength, alpha, p, m, m.direction(a, b)), alpha, p);
            TwoBodies(Tick(bodies, springs, alpha, p, m), a, b, gap', velocity')
  {
    var apart := ForcesOfTwo(bodies, springs, a, b, gap, velocity, strength, alpha, p, m);
    StepOfTwo(apart, a, b, gap, AfterForces(gap, velocity, strength, alpha, p, m, m.direction(a, b)), alpha, p, m);
  }

  // ----- the heat -----

  /** Each tick runs at what the decay leaves of the heat before it: less, and never none. */
  lemma HeatFalls(alpha: real, p: Params)
    requires alpha > 0.0 && 0.0 < p.alphaDecay < 1.0
    ensures Cooled(alpha, p) == (1.0 - p.alphaDecay) * alpha
    ensures 0.0 < Cooled(alpha, p) < alpha
  {
    ScaledSign(p.alphaDecay, alpha);
    ScaledSign(1.0 - p.alphaDecay, alpha);
  }
}
