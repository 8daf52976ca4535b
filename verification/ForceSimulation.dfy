/**
 The force simulation behind card-scope coordinates, over exact reals. Square root and the
 direction used for coinciding nodes are parameters; the simulation only ever divides by a
 distance it has checked.
 */
module ForceSimulation {

  datatype Vec = Vec(x: real, y: real)

  const ZERO := Vec(0.0, 0.0)

  function Plus(a: Vec, b: Vec): Vec {
    Vec(a.x + b.x, a.y + b.y)
  }

  function Minus(a: Vec, b: Vec): Vec {
    Vec(a.x - b.x, a.y - b.y)
  }

  function Times(k: real, a: Vec): Vec {
    Vec(k * a.x, k * a.y)
  }

  datatype Body = Body(id: int, pos: Vec, vel: Vec)

  /** A spring between two bodies, by their places in the list. */
  datatype Spring = Spring(source: nat, target: nat, strength: real)

  datatype Params = Params(
    ticks: nat, alphaDecay: real, velocityRetention: real,
    linkBaseDistance: real, linkDistanceStrengthFactor: real, linkBaseStrength: real, linkStrengthFactor: real,
    chargeStrength: real, collisionRadius: real, collisionStrength: real,
    centerGravityStrength: real, radialBoundaryRadius: real, radialBoundaryStrength: real)

  /** The two numeric primitives the passes call. */
  datatype Maths = Maths(sqrt: real -> real, direction: (int, int) -> Vec)

  ghost predicate Linked(springs: seq<Spring>, n: nat) {
    forall k :: 0 <= k < |springs| ==> springs[k].source < n && springs[k].target < n
  }

  /** Move velocity `kick` onto one body and off the other, one after the other as the code does. */
  function Exchange(bodies: seq<Body>, i: nat, j: nat, kick: Vec): (r: seq<Body>)
    requires i < |bodies| && j < |bodies|
    ensures |r| == |bodies|
  {
    var once := bodies[i := bodies[i].(vel := Plus(bodies[i].vel, kick))];
    once[j := once[j].(vel := Minus(once[j].vel, kick))]
  }

  function Dot(a: Vec): real {
    a.x * a.x + a.y * a.y
  }

  /** The gap between two bodies after their next step, and its length. */
  function AheadGap(source: Body, target: Body, m: Maths): (gap: (Vec, real))
    ensures gap.1 != 0.0
  {
    var d := Minus(Plus(target.pos, target.vel), Plus(source.pos, source.vel));
    var distance := m.sqrt(Dot(d));
    if distance == 0.0 then (m.direction(source.id, target.id), 1.0) else (d, distance)
  }

  function LinkKick(source: Body, target: Body, strength: real, alpha: real, p: Params, m: Maths): Vec {
    var (d, distance) := AheadGap(source, target, m);
    var targetDistance := p.linkBaseDistance - strength * p.linkDistanceStrengthFactor;
    var linkStrength := p.linkBaseStrength + strength * p.linkStrengthFactor;
    var force := (distance - targetDistance) / distance * alpha * linkStrength;
    Times(force * 0.5, d)
  }

  /** The gap a charge acts along, and the square it is divided by. */
  function ChargeGap(source: Body, target: Body, m: Maths): (gap: (Vec, real))
    ensures gap.1 >= 1.0
  {
    var between := Minus(target.pos, source.pos);
    var (d, squared) := if Dot(between) == 0.0 then (m.direction(source.id, target.id), 1.0) else (between, Dot(between));
    (d, if squared < 1.0 then 1.0 else squared)
  }

  function ChargeKick(source: Body, target: Body, alpha: real, p: Params, m: Maths): Vec {
    var (d, squared) := ChargeGap(source, target, m);
    Times(p.chargeStrength * alpha / squared, d)
  }

  /** What a collision moves onto the target; nothing when the bodies are far enough apart. */
  function CollisionKick(source: Body, target: Body, alpha: real, p: Params, m: Maths): Vec {
    var minimumDistance := p.collisionRadius * 2.0;
    var (d, distance) := AheadGap(source, target, m);
    if distance >= minimumDistance then ZERO
    else
      var force := (minimumDistance - distance) / distance * p.collisionStrength * alpha;
      Times(force * 0.5, d)
  }

  /** `_apply_link_force`: spring by spring, over velocities already changed by earlier springs. */
  function LinkFrom(bodies: seq<Body>, springs: seq<Spring>, k: nat, alpha: real, p: Params, m: Maths): (r: seq<Body>)
    requires k <= |springs| && Linked(springs, |bodies|)
    ensures |r| == |bodies|
    decreases |springs| - k
  {
    if k == |springs| then bodies
    else
      var s := springs[k];
      var kick := LinkKick(bodies[s.source], bodies[s.target], s.strength, alpha, p, m);
      LinkFrom(Exchange(bodies, s.source, s.target, kick), springs, k + 1, alpha, p, m)
  }

  datatype PairForce = Charge | Collision

  /** The velocity a pair force moves from the second body of a pair onto the first. */
  function PairKick(force: PairForce, source: Body, target: Body, alpha: real, p: Params, m: Maths): Vec {
    match force
    case Charge => ChargeKick(source, target, alpha, p, m)
    case Collision => Times(-1.0, CollisionKick(source, target, alpha, p, m))
  }

  /** Every pair once, in list order, from the pair (`i`, `j`) on. */
  function PairsFrom(force: PairForce, bodies: seq<Body>, i: nat, j: nat, alpha: real, p: Params, m: Maths): (r: seq<Body>)
    requires i < j
    ensures |r| == |bodies|
    decreases |bodies| - i, |bodies| + 1 - j
  {
    if i >= |bodies| then bodies
    else if j >= |bodies| then PairsFrom(force, bodies, i + 1, i + 2, alpha, p, m)
    else
      var kick := PairKick(force, bodies[i], bodies[j], alpha, p, m);
      PairsFrom(force, Exchange(bodies, i, j, kick), i, j + 1, alpha, p, m)
  }

  function Centered(b: Body, alpha: real, p: Params): Body {
    b.(vel := Plus(b.vel, Times(p.centerGravityStrength * alpha, Minus(ZERO, b.pos))))
  }

  predicate RadialOff(p: Params) {
    p.radialBoundaryRadius == 0.0 || p.radialBoundaryStrength == 0.0
  }

  function Bounded(b: Body, alpha: real, p: Params, m: Maths): Body {
    var distance := m.sqrt(Dot(b.pos));
    if RadialOff(p) || distance <= p.radialBoundaryRadius || distance == 0.0 then b
    else
      var force := (distance - p.radialBoundaryRadius) / distance * p.radialBoundaryStrength * alpha;
      b.(vel := Minus(b.vel, Times(force, b.pos)))
  }

  function Moved(b: Body, p: Params): Body {
    var vel := Times(p.velocityRetention, b.vel);
    b.(vel := vel, pos := Plus(b.pos, vel))
  }

  /** One body's update after the pair forces: centre, boundary, then the step itself. */
  function CenteredAll(bodies: seq<Body>, alpha: real, p: Params): seq<Body> {
    seq(|bodies|, i requires 0 <= i < |bodies| => Centered(bodies[i], alpha, p))
  }

  function BoundedAll(bodies: seq<Body>, alpha: real, p: Params, m: Maths): seq<Body> {
    seq(|bodies|, i requires 0 <= i < |bodies| => Bounded(bodies[i], alpha, p, m))
  }

  function MovedAll(bodies: seq<Body>, p: Params): seq<Body> {
    seq(|bodies|, i requires 0 <= i < |bodies| => Moved(bodies[i], p))
  }

  function Tick(bodies: seq<Body>, springs: seq<Spring>, alpha: real, p: Params, m: Maths): (r: seq<Body>)
    requires Linked(springs, |bodies|)
    ensures |r| == |bodies|
  {
    var linked := LinkFrom(bodies, springs, 0, alpha, p, m);
    var charged := PairsFrom(Charge, linked, 0, 1, alpha, p, m);
    var apart := PairsFrom(Collision, charged, 0, 1, alpha, p, m);
    MovedAll(BoundedAll(CenteredAll(apart, alpha, p), alpha, p, m), p)
  }

  function Cooled(alpha: real, p: Params): real {
    alpha + (0.0 - alpha) * p.alphaDecay
  }

  /** The tick loop, with the heat before its first tick. */
  function Ticks(bodies: seq<Body>, springs: seq<Spring>, alpha: real, n: nat, p: Params, m: Maths): (r: seq<Body>)
    requires Linked(springs, |bodies|)
    ensures |r| == |bodies|
    decreases n
  {
    if n == 0 then bodies
    else Ticks(Tick(bodies, springs, Cooled(alpha, p), p, m), springs, Cooled(alpha, p), n - 1, p, m)
  }

  /** `_run_force_simulation` */
  function Simulated(bodies: seq<Body>, springs: seq<Spring>, p: Params, m: Maths): seq<Body>
    requires Linked(springs, |bodies|)
  {
    if |bodies| <= 1 then bodies else Ticks(bodies, springs, 1.0, p.ticks, p, m)
  }

  // ----- what each force does to a pair -----

  lemma ScaledSign(x: real, y: real)
    requires y > 0.0
    ensures x * y > 0.0 <==> x > 0.0
    ensures x * y == 0.0 <==> x == 0.0
    ensures x / y > 0.0 <==> x > 0.0
    ensures x / y == 0.0 <==> x == 0.0
  {
    assert x / y * y == x;
    if x > 0.0 {
      assert x * y > 0.0;
    }
    if x < 0.0 {
      assert -x * y > 0.0;
    }
    var q := x / y;
    if q > 0.0 {
      assert q * y > 0.0;
    }
    if q < 0.0 {
      assert -q * y > 0.0;
    }
  }

  /** The length a spring tends to: shorter for stronger edges. */
  function RestLength(strength: real, p: Params): real {
    p.linkBaseDistance - strength * p.linkDistanceStrengthFactor
  }

  /** A spring acts along the gap: it pulls when the gap is longer than its rest length, pushes when shorter. */
  lemma SpringSeeksRestLength(source: Body, target: Body, strength: real, alpha: real, p: Params, m: Maths) returns (factor: real)
    requires alpha > 0.0 && p.linkBaseStrength + strength * p.linkStrengthFactor > 0.0 && AheadGap(source, target, m).1 > 0.0
    ensures LinkKick(source, target, strength, alpha, p, m) == Times(factor, AheadGap(source, target, m).0)
    ensures factor > 0.0 <==> AheadGap(source, target, m).1 > RestLength(strength, p)
    ensures factor == 0.0 <==> AheadGap(source, target, m).1 == RestLength(strength, p)
  {
    var distance := AheadGap(source, target, m).1;
    var stretch := distance - RestLength(strength, p);
    var stiffness := p.linkBaseStrength + strength * p.linkStrengthFactor;
    ScaledSign(stretch, distance);
    ScaledSign(stretch / distance, alpha);
    ScaledSign(stretch / distance * alpha, stiffness);
    factor := stretch / distance * alpha * stiffness * 0.5;
  }

  /** A collision acts along the gap, apart, on bodies closer than two radii, and on no others. */
  lemma CollisionsSeparate(source: Body, target: Body, alpha: real, p: Params, m: Maths) returns (factor: real)
    requires alpha > 0.0 && p.collisionStrength > 0.0 && AheadGap(source, target, m).1 > 0.0
    ensures CollisionKick(source, target, alpha, p, m) == Times(factor, AheadGap(source, target, m).0)
    ensures factor >= 0.0 && (factor > 0.0 <==> AheadGap(source, target, m).1 < p.collisionRadius * 2.0)
  {
    var distance := AheadGap(source, target, m).1;
    if distance >= p.collisionRadius * 2.0 {
      factor := 0.0;
    } else {
      var overlap := p.collisionRadius * 2.0 - distance;
      ScaledSign(overlap, distance);
      ScaledSign(overlap / distance, p.collisionStrength);
      ScaledSign(overlap / distance * p.collisionStrength, alpha);
      factor := overlap / distance * p.collisionStrength * alpha * 0.5;
    }
  }

  /** Charge acts along the gap with the sign of the charge, and never more strongly than the charge itself. */
  lemma ChargeIsBounded(source: Body, target: Body, alpha: real, p: Params, m: Maths) returns (factor: real)
    requires alpha > 0.0
    ensures ChargeKick(source, target, alpha, p, m) == Times(factor, ChargeGap(source, target, m).0)
    ensures (p.chargeStrength < 0.0 <==> factor < 0.0) && (p.chargeStrength > 0.0 <==> factor > 0.0)
    ensures p.chargeStrength <= 0.0 ==> p.chargeStrength * alpha <= factor
    ensures p.chargeStrength >= 0.0 ==> factor <= p.chargeStrength * alpha
  {
    var divisor := ChargeGap(source, target, m).1;
    var charge := p.chargeStrength * alpha;
    factor := charge / divisor;
    ScaledSign(-p.chargeStrength, alpha);
    ScaledSign(p.chargeStrength, alpha);
    DividedShrinks(charge, divisor);
  }

  lemma DividedShrinks(x: real, y: real)
    requires y >= 1.0
    ensures (x / y < 0.0 <==> x < 0.0) && (x / y > 0.0 <==> x > 0.0)
    ensures if x <= 0.0 then x <= x / y else x / y <= x
  {
    var q := x / y;
    assert q * y == x;
    ScaledSign(q, y);
    ScaledSign(-q, y);
    assert -q * y == -x;
    assert q * (y - 1.0) == x - q;
    if q <= 0.0 {
      assert q * (y - 1.0) <= 0.0;
    } else {
      assert q * (y - 1.0) >= 0.0;
    }
  }

  // ----- conservation -----

  function Momentum(bodies: seq<Body>): Vec {
    if bodies == [] then ZERO else Plus(Momentum(bodies[..|bodies| - 1]), bodies[|bodies| - 1].vel)
  }

  function PositionSum(bodies: seq<Body>): Vec {
    if bodies == [] then ZERO else Plus(PositionSum(bodies[..|bodies| - 1]), bodies[|bodies| - 1].pos)
  }

  lemma {:induction false} MomentumUpdate(bodies: seq<Body>, i: nat, b: Body)
    requires i < |bodies|
    ensures Momentum(bodies[i := b]) == Plus(Momentum(bodies), Minus(b.vel, bodies[i].vel))
    ensures b.pos == bodies[i].pos ==> PositionSum(bodies[i := b]) == PositionSum(bodies)
  {
    var n := |bodies| - 1;
    if i == n {
      assert bodies[i := b][..n] == bodies[..n];
    } else {
      MomentumUpdate(bodies[..n], i, b);
      assert bodies[i := b][..n] == bodies[..n][i := b];
    }
  }

  /** Whatever one body gains the other loses, also when both are the same body. */
  lemma ExchangeConserves(bodies: seq<Body>, i: nat, j: nat, kick: Vec)
    requires i < |bodies| && j < |bodies|
    ensures Momentum(Exchange(bodies, i, j, kick)) == Momentum(bodies)
    ensures PositionSum(Exchange(bodies, i, j, kick)) == PositionSum(bodies)
  {
    var first := bodies[i].(vel := Plus(bodies[i].vel, kick));
    MomentumUpdate(bodies, i, first);
    var once := bodies[i := first];
    MomentumUpdate(once, j, once[j].(vel := Minus(once[j].vel, kick)));
  }

  lemma {:induction false} LinkConserves(bodies: seq<Body>, springs: seq<Spring>, k: nat, alpha: real, p: Params, m: Maths)
    requires k <= |springs| && Linked(springs, |bodies|)
    ensures Momentum(LinkFrom(bodies, springs, k, alpha, p, m)) == Momentum(bodies)
    ensures PositionSum(LinkFrom(bodies, springs, k, alpha, p, m)) == PositionSum(bodies)
    decreases |springs| - k
  {
    if k < |springs| {
      var s := springs[k];
      var kick := LinkKick(bodies[s.source], bodies[s.target], s.strength, alpha, p, m);
      ExchangeConserves(bodies, s.source, s.target, kick);
      LinkConserves(Exchange(bodies, s.source, s.target, kick), springs, k + 1, alpha, p, m);
    }
  }

  lemma {:induction false} PairsConserve(force: PairForce, bodies: seq<Body>, i: nat, j: nat, alpha: real, p: Params, m: Maths)
    requires i < j
    ensures Momentum(PairsFrom(force, bodies, i, j, alpha, p, m)) == Momentum(bodies)
    ensures PositionSum(PairsFrom(force, bodies, i, j, alpha, p, m)) == PositionSum(bodies)
    decreases |bodies| - i, |bodies| + 1 - j
  {
    if i >= |bodies| {
    } else if j >= |bodies| {
      PairsConserve(force, bodies, i + 1, i + 2, alpha, p, m);
    } else {
      var kick := PairKick(force, bodies[i], bodies[j], alpha, p, m);
      ExchangeConserves(bodies, i, j, kick);
      PairsConserve(force, Exchange(bodies, i, j, kick), i, j + 1, alpha, p, m);
    }
  }

  lemma Distribute(k: real, a: Vec, b: Vec)
    ensures Times(k, Plus(a, b)) == Plus(Times(k, a), Times(k, b))
  {
  }

  /** What gravity towards the centre leaves of the summed velocities. */
  function Pulled(velocity: Vec, position: Vec, alpha: real, p: Params): Vec {
    Minus(velocity, Times(p.centerGravityStrength * alpha, position))
  }

  lemma {:induction false} CenterPulls(bodies: seq<Body>, alpha: real, p: Params)
    ensures var after := CenteredAll(bodies, alpha, p);
            && Momentum(after) == Pulled(Momentum(bodies), PositionSum(bodies), alpha, p)
            && PositionSum(after) == PositionSum(bodies)
  {
    if bodies != [] {
      var n := |bodies| - 1;
      var k := p.centerGravityStrength * alpha;
      CenterPulls(bodies[..n], alpha, p);
      assert CenteredAll(bodies, alpha, p)[..n] == CenteredAll(bodies[..n], alpha, p);
      Distribute(k, PositionSum(bodies[..n]), bodies[n].pos);
    }
  }

  lemma {:induction false} MoveSums(bodies: seq<Body>, p: Params)
    ensures var after := MovedAll(bodies, p);
            && Momentum(after) == Times(p.velocityRetention, Momentum(bodies))
            && PositionSum(after) == Plus(PositionSum(bodies), Times(p.velocityRetention, Momentum(bodies)))
  {
    if bodies != [] {
      var n := |bodies| - 1;
      MoveSums(bodies[..n], p);
      assert MovedAll(bodies, p)[..n] == MovedAll(bodies[..n], p);
      Distribute(p.velocityRetention, Momentum(bodies[..n]), bodies[n].vel);
    }
  }

  lemma BoundaryOff(bodies: seq<Body>, alpha: real, p: Params, m: Maths)
    requires RadialOff(p)
    ensures BoundedAll(bodies, alpha, p, m) == bodies
  {
  }

  /** Every body slows by the same factor, after gravity pulls on the sum of positions. */
  function SumStep(velocity: Vec, position: Vec, alpha: real, p: Params): Vec {
    Times(p.velocityRetention, Pulled(velocity, position, alpha, p))
  }

  lemma StepSums(bodies: seq<Body>, alpha: real, p: Params, m: Maths)
    requires RadialOff(p)
    ensures var after := MovedAll(BoundedAll(CenteredAll(bodies, alpha, p), alpha, p, m), p);
            && Momentum(after) == SumStep(Momentum(bodies), PositionSum(bodies), alpha, p)
            && PositionSum(after) == Plus(PositionSum(bodies), Momentum(after))
  {
    CenterPulls(bodies, alpha, p);
    BoundaryOff(CenteredAll(bodies, alpha, p), alpha, p, m);
    MoveSums(CenteredAll(bodies, alpha, p), p);
  }

  /**
   With the radial boundary off, a tick changes the sums of velocities and positions by two
   linear equations that mention no body and no spring.
   */
  lemma TickSums(bodies: seq<Body>, springs: seq<Spring>, alpha: real, p: Params, m: Maths)
    requires Linked(springs, |bodies|) && RadialOff(p)
    ensures var after := Tick(bodies, springs, alpha, p, m);
            && Momentum(after) == SumStep(Momentum(bodies), PositionSum(bodies), alpha, p)
            && PositionSum(after) == Plus(PositionSum(bodies), Momentum(after))
  {
    var linked := LinkFrom(bodies, springs, 0, alpha, p, m);
    LinkConserves(bodies, springs, 0, alpha, p, m);
    var charged := PairsFrom(Charge, linked, 0, 1, alpha, p, m);
    PairsConserve(Charge, linked, 0, 1, alpha, p, m);
    var apart := PairsFrom(Collision, charged, 0, 1, alpha, p, m);
    PairsConserve(Collision, charged, 0, 1, alpha, p, m);
    StepSums(apart, alpha, p, m);
  }

  /** The sums after some ticks, from the starting sums alone. */
  function SumsAfter(velocity: Vec, position: Vec, alpha: real, n: nat, p: Params): (Vec, Vec)
    decreases n
  {
    if n == 0 then (velocity, position)
    else
      var cooled := Cooled(alpha, p);
      var next := SumStep(velocity, position, cooled, p);
      SumsAfter(next, Plus(position, next), cooled, n - 1, p)
  }

  lemma {:induction false} TicksSums(bodies: seq<Body>, springs: seq<Spring>, alpha: real, n: nat, p: Params, m: Maths)
    requires Linked(springs, |bodies|) && RadialOff(p)
    ensures var after := Ticks(bodies, springs, alpha, n, p, m);
            (Momentum(after), PositionSum(after)) == SumsAfter(Momentum(bodies), PositionSum(bodies), alpha, n, p)
    decreases n
  {
    if n > 0 {
      var cooled := Cooled(alpha, p);
      var once := Tick(bodies, springs, cooled, p, m);
      TickSums(bodies, springs, cooled, p, m);
      TicksSums(once, springs, cooled, n - 1, p, m);
    }
  }

  /** Freshly seeded bodies: positions by list index, no velocity. */
  ghost predicate Seeded(bodies: seq<Body>, spiral: nat -> Vec) {
    forall i :: 0 <= i < |bodies| ==> bodies[i].pos == spiral(i) && bodies[i].vel == ZERO
  }

  lemma {:induction false} SeedSums(a: seq<Body>, b: seq<Body>, spiral: nat -> Vec)
    requires |a| == |b| && Seeded(a, spiral) && Seeded(b, spiral)
    ensures Momentum(a) == Momentum(b) && PositionSum(a) == PositionSum(b)
  {
    if a != [] {
      SeedSums(a[..|a| - 1], b[..|b| - 1], spiral);
    }
  }

  /**
   The centroid of a layout depends on nothing but how many nodes it has: not on their ids, not
   on the edges or strengths, not even on the square root the passes were given.
   */
  lemma CentroidIgnoresEdges(a: seq<Body>, springsA: seq<Spring>, mA: Maths, b: seq<Body>, springsB: seq<Spring>, mB: Maths,
                             spiral: nat -> Vec, p: Params)
    requires |a| == |b| && Seeded(a, spiral) && Seeded(b, spiral) && RadialOff(p)
    requires Linked(springsA, |a|) && Linked(springsB, |b|)
    ensures PositionSum(Simulated(a, springsA, p, mA)) == PositionSum(Simulated(b, springsB, p, mB))
    ensures Momentum(Simulated(a, springsA, p, mA)) == Momentum(Simulated(b, springsB, p, mB))
  {
    SeedSums(a, b, spiral);
    if |a| > 1 {
      TicksSums(a, springsA, 1.0, p.ticks, p, mA);
      TicksSums(b, springsB, 1.0, p.ticks, p, mB);
    }
  }

  // ----- the passes in place -----

  method Kick(bodies: array<Body>, i: nat, j: nat, offset: Vec)
    requires i < bodies.Length && j < bodies.Length
    modifies bodies
    ensures bodies[..] == Exchange(old(bodies[..]), i, j, offset)
  {
    bodies[i] := bodies[i].(vel := Plus(bodies[i].vel, offset));
    bodies[j] := bodies[j].(vel := Minus(bodies[j].vel, offset));
  }

  method ApplyLinkForce(bodies: array<Body>, springs: seq<Spring>, alpha: real, p: Params, m: Maths)
    requires Linked(springs, bodies.Length)
    modifies bodies
    ensures bodies[..] == LinkFrom(old(bodies[..]), springs, 0, alpha, p, m)
  {
    ghost var start := bodies[..];
    for k := 0 to |springs|
      invariant LinkFrom(start, springs, 0, alpha, p, m) == LinkFrom(bodies[..], springs, k, alpha, p, m)
    {
      var s := springs[k];
      Kick(bodies, s.source, s.target, LinkKick(bodies[s.source], bodies[s.target], s.strength, alpha, p, m));
    }
  }

  /** One step of the pair loop. */
  lemma NextPair(force: PairForce, bodies: seq<Body>, i: nat, j: nat, next: nat, alpha: real, p: Params, m: Maths)
    requires i < j < |bodies| && next == j + 1
    ensures PairsFrom(force, bodies, i, j, alpha, p, m) ==
            PairsFrom(force, Exchange(bodies, i, j, PairKick(force, bodies[i], bodies[j], alpha, p, m)), i, next, alpha, p, m)
  {
  }

  lemma NextRow(force: PairForce, bodies: seq<Body>, i: nat, next: nat, alpha: real, p: Params, m: Maths)
    requires i < |bodies| && next == i + 1
    ensures PairsFrom(force, bodies, i, |bodies|, alpha, p, m) == PairsFrom(force, bodies, next, next + 1, alpha, p, m)
  {
  }

  method ApplyPairForce(force: PairForce, bodies: array<Body>, alpha: real, p: Params, m: Maths)
    modifies bodies
    ensures bodies[..] == PairsFrom(force, old(bodies[..]), 0, 1, alpha, p, m)
  {
    ghost var start := bodies[..];
    for left := 0 to bodies.Length
      invariant PairsFrom(force, start, 0, 1, alpha, p, m) == PairsFrom(force, bodies[..], left, left + 1, alpha, p, m)
    {
      for right := left + 1 to bodies.Length
        invariant PairsFrom(force, start, 0, 1, alpha, p, m) == PairsFrom(force, bodies[..], left, right, alpha, p, m)
      {
        NextPair(force, bodies[..], left, right, right + 1, alpha, p, m);
        Kick(bodies, left, right, PairKick(force, bodies[left], bodies[right], alpha, p, m));
      }
      NextRow(force, bodies[..], left, left + 1, alpha, p, m);
    }
  }

  method ApplyCenterForce(bodies: array<Body>, alpha: real, p: Params)
    modifies bodies
    ensures bodies[..] == CenteredAll(old(bodies[..]), alpha, p)
  {
    if p.centerGravityStrength == 0.0 {
      return;
    }
    for i := 0 to bodies.Length
      invariant forall k :: 0 <= k < i ==> bodies[k] == Centered(old(bodies[k]), alpha, p)
      invariant forall k :: i <= k < bodies.Length ==> bodies[k] == old(bodies[k])
    {
      bodies[i] := Centered(bodies[i], alpha, p);
    }
  }

  method ApplyRadialBoundaryForce(bodies: array<Body>, alpha: real, p: Params, m: Maths)
    modifies bodies
    ensures bodies[..] == BoundedAll(old(bodies[..]), alpha, p, m)
  {
    if p.radialBoundaryRadius == 0.0 || p.radialBoundaryStrength == 0.0 {
      return;
    }
    for i := 0 to bodies.Length
      invariant forall k :: 0 <= k < i ==> bodies[k] == Bounded(old(bodies[k]), alpha, p, m)
      invariant forall k :: i <= k < bodies.Length ==> bodies[k] == old(bodies[k])
    {
      bodies[i] := Bounded(bodies[i], alpha, p, m);
    }
  }

  method MoveBodies(bodies: array<Body>, p: Params)
    modifies bodies
    ensures bodies[..] == MovedAll(old(bodies[..]), p)
  {
    for i := 0 to bodies.Length
      invariant forall k :: 0 <= k < i ==> bodies[k] == Moved(old(bodies[k]), p)
      invariant forall k :: i <= k < bodies.Length ==> bodies[k] == old(bodies[k])
    {
      bodies[i] := Moved(bodies[i], p);
    }
  }

  method TickInPlace(bodies: array<Body>, springs: seq<Spring>, alpha: real, p: Params, m: Maths)
    requires Linked(springs, bodies.Length)
    modifies bodies
    ensures bodies[..] == Tick(old(bodies[..]), springs, alpha, p, m)
  {
    ApplyLinkForce(bodies, springs, alpha, p, m);
    ApplyPairForce(Charge, bodies, alpha, p, m);
    ApplyPairForce(Collision, bodies, alpha, p, m);
    ApplyCenterForce(bodies, alpha, p);
    ApplyRadialBoundaryForce(bodies, alpha, p, m);
    MoveBodies(bodies, p);
  }

  /** `_run_force_simulation`: all passes in place, tick by tick. */
  method RunForceSimulation(bodies: array<Body>, springs: seq<Spring>, p: Params, m: Maths)
    requires Linked(springs, bodies.Length)
    modifies bodies
    ensures bodies[..] == Simulated(old(bodies[..]), springs, p, m)
  {
    if bodies.Length <= 1 {
      return;
    }
    var alpha := 1.0;
    ghost var start := bodies[..];
    for n := 0 to p.ticks
      invariant Ticks(start, springs, 1.0, p.ticks, p, m) == Ticks(bodies[..], springs, alpha, p.ticks - n, p, m)
    {
      alpha := Cooled(alpha, p);
      TickInPlace(bodies, springs, alpha, p, m);
    }
  }
}
