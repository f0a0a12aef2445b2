/** The particle field's per-particle tick. The worker (src/workers/particlesWorker.ts) and the
    inline fallback (src/components/AIParticles.tsx) run the same statements in the same order:
    push the current position onto the trail, move, get pushed away from the pointer, bounce
    off the canvas edges, and (after drawing) fade the trail. */
module Particle {
  import opened Numeric

  datatype TrailPoint = TrailPoint(x: real, y: real, opacity: real)

  datatype Particle = Particle(
    x: real, y: real,
    size: real,
    speedX: real, speedY: real,
    opacity: real,
    color: nat,            // index into the three-colour palette
    trail: seq<TrailPoint> // oldest first
  )

  const RepelRadius: real := 150.0
  const RepelStrength: real := 3.0
  const PushedOpacity: real := 0.8
  const TrailDecay: real := 0.95
  const PaletteSize: nat := 3
  /** Each new particle takes seven `Math.random()` draws: x, y, size, speedX, speedY, opacity, colour. */
  const DrawsPerParticle: nat := 7

  function TrailCap(isMobile: bool): nat
  {
    if isMobile then 5 else 10
  }

  predicate InCanvas(p: Particle, width: real, height: real)
  {
    0.0 <= p.x <= width && 0.0 <= p.y <= height
  }

  /** `Math.floor(Math.random() * colors.length)`. */
  function ColorIndex(r: real): (c: nat)
    requires 0.0 <= r < 1.0
    ensures c < PaletteSize
  {
    (r * 3.0).Floor
  }

  /** A freshly created particle, built from the draws `rand(k) .. rand(k + 6)`. */
  function NewParticle(rand: nat -> real, k: nat, width: real, height: real): (p: Particle)
    requires IsUnitStream(rand)
    ensures 0.0 <= width && 0.0 <= height ==> InCanvas(p, width, height)
    ensures 1.0 <= p.size < 3.0 && 0.2 <= p.opacity < 0.7
    ensures -0.15 <= p.speedX < 0.15 && -0.15 <= p.speedY < 0.15
    ensures p.color < PaletteSize && p.trail == []
  {
    Particle(Spread(rand(k), width), Spread(rand(k + 1), height),
             rand(k + 2) * 2.0 + 1.0,
             (rand(k + 3) - 0.5) * 0.3, (rand(k + 4) - 0.5) * 0.3,
             rand(k + 5) * 0.5 + 0.2,
             ColorIndex(rand(k + 6)),
             [])
  }

  /** The population created by `init`: `count` particles, drawn in order. */
  function Population(rand: nat -> real, count: nat, width: real, height: real): (ps: seq<Particle>)
    requires IsUnitStream(rand)
    ensures |ps| == count
    ensures forall p <- ps :: p.trail == [] && p.color < PaletteSize
    ensures 0.0 <= width && 0.0 <= height ==> forall p <- ps :: InCanvas(p, width, height)
  {
    seq(count, i requires 0 <= i < count => NewParticle(rand, DrawsPerParticle * i, width, height))
  }

  /** Appending the next particle to a population of `i` gives the population of `i + 1`. */
  lemma {:induction false} PopulationSnoc(rand: nat -> real, i: nat, width: real, height: real)
    requires IsUnitStream(rand)
    ensures Population(rand, i + 1, width, height)
            == Population(rand, i, width, height) + [NewParticle(rand, DrawsPerParticle * i, width, height)]
  {
    var a := Population(rand, i + 1, width, height);
    var b := Population(rand, i, width, height) + [NewParticle(rand, DrawsPerParticle * i, width, height)];
    assert |a| == |b|;
    forall k | 0 <= k < |a| ensures a[k] == b[k] {
    }
  }

  /** Push the current position with opacity 0.8, then drop the oldest point once the trail is
      longer than the cap. */
  function PushTrail(p: Particle, isMobile: bool): (r: Particle)
    ensures r == p.(trail := r.trail)
    ensures |r.trail| == if |p.trail| < TrailCap(isMobile) then |p.trail| + 1 else |p.trail|
    ensures r.trail == (p.trail + [TrailPoint(p.x, p.y, PushedOpacity)])[|p.trail| + 1 - |r.trail|..]
    ensures |p.trail| <= TrailCap(isMobile) ==> |r.trail| <= TrailCap(isMobile)
    ensures r.trail[|r.trail| - 1] == TrailPoint(p.x, p.y, PushedOpacity)
  {
    var t := p.trail + [TrailPoint(p.x, p.y, PushedOpacity)];
    p.(trail := if |t| > TrailCap(isMobile) then t[1..] else t)
  }

  function Move(p: Particle): Particle
  {
    p.(x := p.x + p.speedX, y := p.y + p.speedY)
  }

  /** The pointer push exactly as written: the direction is `(dx / distance, dy / distance)`,
      so a particle sitting exactly on the pointer divides 0 by 0. `None` stands for the NaN
      coordinates that result. */
  function RepelAsWritten(p: Particle, mouseX: real, mouseY: real, sqrt: real -> real): (r: Option<Particle>)
    requires IsSqrt(sqrt)
    ensures r.None? <==> p.x == mouseX && p.y == mouseY
  {
    var distanceSq := DistSq(mouseX, mouseY, p.x, p.y);
    OnPointerIff(p, mouseX, mouseY);
    if distanceSq < RepelRadius * RepelRadius then
      var distance := sqrt(distanceSq);
      SqrtZeroIff(sqrt, distanceSq);
      if distance == 0.0 then None else Some(Pushed(p, mouseX, mouseY, distance))
    else
      Some(p)
  }

  /** The push of a particle at a non-zero `distance` from the pointer: it moves along the
      direction away from the pointer by `3 * (150 - distance) / 150`. */
  function Pushed(p: Particle, mouseX: real, mouseY: real, distance: real): (r: Particle)
    requires distance != 0.0
    ensures r == p.(x := r.x, y := r.y)
  {
    var force := (RepelRadius - distance) / RepelRadius;
    p.(x := p.x - (mouseX - p.x) / distance * force * RepelStrength,
       y := p.y - (mouseY - p.y) / distance * force * RepelStrength)
  }

  /** The squared distance to the pointer is zero exactly when the particle is on it. */
  lemma OnPointerIff(p: Particle, mouseX: real, mouseY: real)
    ensures DistSq(mouseX, mouseY, p.x, p.y) == 0.0 <==> p.x == mouseX && p.y == mouseY
  {
    SumOfSquaresZero(mouseX - p.x, mouseY - p.y);
  }

  /** The pointer push with the zero-distance case guarded: a particle exactly on the pointer
      has no direction to be pushed in and stays where it is. */
  function Repel(p: Particle, mouseX: real, mouseY: real, sqrt: real -> real): (r: Particle)
    requires IsSqrt(sqrt)
    ensures r == p.(x := r.x, y := r.y)
    ensures RepelRadius * RepelRadius <= DistSq(mouseX, mouseY, p.x, p.y) ==> r == p
    ensures p.x == mouseX && p.y == mouseY ==> r == p
  {
    var distanceSq := DistSq(mouseX, mouseY, p.x, p.y);
    if distanceSq < RepelRadius * RepelRadius then
      var distance := sqrt(distanceSq);
      if distance == 0.0 then p else Pushed(p, mouseX, mouseY, distance)
    else
      p
  }

  /** Away from the pointer the guarded push and the written one agree. */
  lemma RepelAgreesOffPointer(p: Particle, mouseX: real, mouseY: real, sqrt: real -> real)
    requires IsSqrt(sqrt)
    requires !(p.x == mouseX && p.y == mouseY)
    ensures RepelAsWritten(p, mouseX, mouseY, sqrt) == Some(Repel(p, mouseX, mouseY, sqrt))
  {
    OnPointerIff(p, mouseX, mouseY);
    SqrtZeroIff(sqrt, DistSq(mouseX, mouseY, p.x, p.y));
  }

  /** Negate the speed component and clamp the coordinate on every axis that left the canvas. */
  function Reflect(p: Particle, width: real, height: real): (r: Particle)
    ensures r == p.(x := r.x, y := r.y, speedX := r.speedX, speedY := r.speedY)
    ensures 0.0 <= width && 0.0 <= height ==> InCanvas(r, width, height)
    ensures Abs(r.speedX) == Abs(p.speedX) && Abs(r.speedY) == Abs(p.speedY)
    ensures 0.0 <= p.x <= width ==> r.x == p.x && r.speedX == p.speedX
    ensures !(0.0 <= p.x <= width) ==> r.speedX == -p.speedX
    ensures 0.0 <= p.y <= height ==> r.y == p.y && r.speedY == p.speedY
    ensures !(0.0 <= p.y <= height) ==> r.speedY == -p.speedY
    ensures p.x < 0.0 ==> r.x == 0.0
    ensures 0.0 <= width < p.x ==> r.x == width
    ensures p.y < 0.0 ==> r.y == 0.0
    ensures 0.0 <= height < p.y ==> r.y == height
  {
    var p1 := if p.x < 0.0 || p.x > width then p.(speedX := -p.speedX, x := Clamp(p.x, 0.0, width)) else p;
    if p1.y < 0.0 || p1.y > height then p1.(speedY := -p1.speedY, y := Clamp(p1.y, 0.0, height)) else p1
  }

  /** After drawing, every trail point keeps its place and position and fades by 5%. */
  function Decay(p: Particle): (r: Particle)
    ensures r == p.(trail := r.trail) && |r.trail| == |p.trail|
    ensures forall i :: 0 <= i < |p.trail| ==>
              r.trail[i].x == p.trail[i].x && r.trail[i].y == p.trail[i].y &&
              r.trail[i].opacity == p.trail[i].opacity * TrailDecay
  {
    p.(trail := seq(|p.trail|, i requires 0 <= i < |p.trail| =>
                      p.trail[i].(opacity := p.trail[i].opacity * TrailDecay)))
  }

  /** One animation tick of one particle, in the source's statement order. */
  function Step(p: Particle, mouseX: real, mouseY: real, width: real, height: real,
                isMobile: bool, sqrt: real -> real): Particle
    requires IsSqrt(sqrt)
  {
    Decay(Reflect(Repel(Move(PushTrail(p, isMobile)), mouseX, mouseY, sqrt), width, height))
  }

  /** A tick keeps the trail within its cap, keeps the particle on the canvas, remembers the
      pre-move position as the newest (already faded once) trail point, and only ever flips the
      signs of the speed components. */
  lemma StepKeepsInvariants(p: Particle, mouseX: real, mouseY: real, width: real, height: real,
                            isMobile: bool, sqrt: real -> real)
    requires IsSqrt(sqrt)
    requires 0.0 <= width && 0.0 <= height
    requires |p.trail| <= TrailCap(isMobile)
    ensures var r := Step(p, mouseX, mouseY, width, height, isMobile, sqrt);
      && |r.trail| <= TrailCap(isMobile)
      && InCanvas(r, width, height)
      && r.trail[|r.trail| - 1] == TrailPoint(p.x, p.y, PushedOpacity * TrailDecay)
      && Abs(r.speedX) == Abs(p.speedX) && Abs(r.speedY) == Abs(p.speedY)
      && r.size == p.size && r.opacity == p.opacity && r.color == p.color
  {
    var q := PushTrail(p, isMobile);
    var r := Step(p, mouseX, mouseY, width, height, isMobile, sqrt);
    assert |r.trail| == |q.trail|;
    assert r.trail[|r.trail| - 1].opacity == q.trail[|q.trail| - 1].opacity * TrailDecay;
  }

  /** Inside the radius and off the pointer, the push moves the particle straight away from
      the pointer: its offset from the pointer is scaled by `1 + k` on both axes, where
      `k = 3 * (150 - d) / (150 * d)` and `d` is the distance. */
  lemma RepelPushesAway(p: Particle, mouseX: real, mouseY: real, sqrt: real -> real)
    requires IsSqrt(sqrt)
    requires !(p.x == mouseX && p.y == mouseY)
    requires DistSq(mouseX, mouseY, p.x, p.y) < RepelRadius * RepelRadius
    ensures 0.0 < sqrt(DistSq(mouseX, mouseY, p.x, p.y)) < RepelRadius
    ensures var r := Repel(p, mouseX, mouseY, sqrt);
      var k := PushFactor(sqrt(DistSq(mouseX, mouseY, p.x, p.y)));
      && r.x - mouseX == (1.0 + k) * (p.x - mouseX)
      && r.y - mouseY == (1.0 + k) * (p.y - mouseY)
  {
    var d := sqrt(DistSq(mouseX, mouseY, p.x, p.y));
    RepelDistance(p, mouseX, mouseY, sqrt);
    RepelInside(p, mouseX, mouseY, sqrt);
    PushAlongAxis(p.x, mouseX, d);
    PushAlongAxis(p.y, mouseY, d);
  }

  /** Off the pointer and inside the radius, the distance lies strictly between 0 and 150. */
  lemma RepelDistance(p: Particle, mouseX: real, mouseY: real, sqrt: real -> real)
    requires IsSqrt(sqrt)
    requires !(p.x == mouseX && p.y == mouseY)
    requires DistSq(mouseX, mouseY, p.x, p.y) < RepelRadius * RepelRadius
    ensures 0.0 < sqrt(DistSq(mouseX, mouseY, p.x, p.y)) < RepelRadius
  {
    var dsq := DistSq(mouseX, mouseY, p.x, p.y);
    OnPointerIff(p, mouseX, mouseY);
    SqrtZeroIff(sqrt, dsq);
    SqrtBelow(sqrt, dsq, RepelRadius);
  }

  /** Off the pointer and inside the radius, the push is the one the source writes. */
  lemma RepelInside(p: Particle, mouseX: real, mouseY: real, sqrt: real -> real)
    requires IsSqrt(sqrt)
    requires !(p.x == mouseX && p.y == mouseY)
    requires DistSq(mouseX, mouseY, p.x, p.y) < RepelRadius * RepelRadius
    ensures var d := sqrt(DistSq(mouseX, mouseY, p.x, p.y));
      d != 0.0 && Repel(p, mouseX, mouseY, sqrt) == Pushed(p, mouseX, mouseY, d)
  {
    RepelDistance(p, mouseX, mouseY, sqrt);
  }

  /** How far the push scales the offset from the pointer, beyond keeping it: `3 * (150 - d) / (150 * d)`. */
  function PushFactor(d: real): (k: real)
    requires 0.0 < d < RepelRadius
    ensures 0.0 < k
  {
    MulPos(RepelRadius, d);
    DivPos(RepelStrength * (RepelRadius - d), RepelRadius * d);
    RepelStrength * (RepelRadius - d) / (RepelRadius * d)
  }

  /** One axis of the push: `v - (m - v) / d * force * 3` lies on the ray from `m` through `v`. */
  lemma PushAlongAxis(v: real, m: real, d: real)
    requires 0.0 < d < RepelRadius
    ensures v - (m - v) / d * ((RepelRadius - d) / RepelRadius) * RepelStrength - m
            == (1.0 + PushFactor(d)) * (v - m)
  {
    PushOffset(m - v, d, (RepelRadius - d) / RepelRadius, PushFactor(d));
  }

  /** `v / d * f * 3 == v * k` when `k = 3 * (150 - d) / (150 * d)` and `f = (150 - d) / 150`. */
  lemma PushOffset(v: real, d: real, f: real, k: real)
    requires 0.0 < d
    requires f == (RepelRadius - d) / RepelRadius
    requires k == RepelStrength * (RepelRadius - d) / (RepelRadius * d)
    ensures v / d * f * RepelStrength == v * k
  {
  }

  /** The push leaves the particle strictly farther from the pointer than it was. */
  lemma RepelMovesFarther(p: Particle, mouseX: real, mouseY: real, sqrt: real -> real)
    requires IsSqrt(sqrt)
    requires !(p.x == mouseX && p.y == mouseY)
    requires DistSq(mouseX, mouseY, p.x, p.y) < RepelRadius * RepelRadius
    ensures var r := Repel(p, mouseX, mouseY, sqrt);
      DistSq(mouseX, mouseY, p.x, p.y) < DistSq(mouseX, mouseY, r.x, r.y)
  {
    RepelPushesAway(p, mouseX, mouseY, sqrt);
    var r := Repel(p, mouseX, mouseY, sqrt);
    var k := PushFactor(sqrt(DistSq(mouseX, mouseY, p.x, p.y)));
    ScaledFarther(p.x - mouseX, p.y - mouseY, 1.0 + k);
  }

  /** Finding: a particle that lands exactly on the pointer gets NaN coordinates, because the
      written code divides by a zero distance; the guarded push leaves it in place. */
  lemma PointerOnParticleGivesNaN(p: Particle, sqrt: real -> real)
    requires IsSqrt(sqrt)
    ensures RepelAsWritten(p, p.x, p.y, sqrt).None?
    ensures Repel(p, p.x, p.y, sqrt) == p
  {
    SqrtZeroIff(sqrt, 0.0);
  }

  /** Every particle of the field ticks once, in array order. */
  function StepAll(ps: seq<Particle>, mouseX: real, mouseY: real, width: real, height: real,
                   isMobile: bool, sqrt: real -> real): (qs: seq<Particle>)
    requires IsSqrt(sqrt)
    ensures |qs| == |ps|
  {
    seq(|ps|, i requires 0 <= i < |ps| => Step(ps[i], mouseX, mouseY, width, height, isMobile, sqrt))
  }

  /** The field-wide form of StepKeepsInvariants. */
  lemma StepAllKeepsInvariants(ps: seq<Particle>, mouseX: real, mouseY: real, width: real, height: real,
                               isMobile: bool, sqrt: real -> real)
    requires IsSqrt(sqrt)
    requires 0.0 <= width && 0.0 <= height
    requires forall p <- ps :: |p.trail| <= TrailCap(isMobile)
    ensures forall q <- StepAll(ps, mouseX, mouseY, width, height, isMobile, sqrt) ::
              |q.trail| <= TrailCap(isMobile) && InCanvas(q, width, height)
  {
    var qs := StepAll(ps, mouseX, mouseY, width, height, isMobile, sqrt);
    forall i | 0 <= i < |qs|
      ensures |qs[i].trail| <= TrailCap(isMobile) && InCanvas(qs[i], width, height)
    {
      StepKeepsInvariants(ps[i], mouseX, mouseY, width, height, isMobile, sqrt);
    }
  }

  /** The `forEach` over the particle array: each particle is updated in place, in order. */
  method StepEach(ps: seq<Particle>, mouseX: real, mouseY: real, width: real, height: real,
                  isMobile: bool, sqrt: real -> real) returns (qs: seq<Particle>)
    requires IsSqrt(sqrt)
    ensures qs == StepAll(ps, mouseX, mouseY, width, height, isMobile, sqrt)
  {
    qs := ps;
    var i := 0;
    while i < |qs|
      invariant 0 <= i <= |qs| == |ps|
      invariant forall k :: 0 <= k < i ==> qs[k] == Step(ps[k], mouseX, mouseY, width, height, isMobile, sqrt)
      invariant forall k :: i <= k < |qs| ==> qs[k] == ps[k]
    {
      qs := qs[i := Step(qs[i], mouseX, mouseY, width, height, isMobile, sqrt)];
      i := i + 1;
    }
  }
}
