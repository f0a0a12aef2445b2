/** The particle worker (src/workers/particlesWorker.ts): module globals holding the field, the
    offscreen surface, the population size, the device class and the last pointer position,
    all driven by one message handler for `init`, `mousemove` and `animate`. */
module ParticlesWorker {
  import opened Numeric
  import opened Particle

  datatype MessageKind = InitMsg | MouseMoveMsg | AnimateMsg

  /** A message from the page. Every field but the kind may be absent. */
  datatype Message = Message(
    kind: MessageKind,
    width: Option<nat>, height: Option<nat>,
    isMobile: Option<bool>,
    mouseX: Option<real>, mouseY: Option<real>
  )

  /** `mobile ? 20 : 50`: an absent flag counts as desktop. The graph worker's node count has
      the same constants by coincidence; each worker file states its own. */
  function ParticleCount(mobile: Option<bool>): (n: nat)
    ensures n == 20 || n == 50
    ensures n == 20 <==> mobile == Some(true)
  {
    if mobile == Some(true) then 20 else 50
  }

  /** `mobile || false`. */
  function MobileFlag(mobile: Option<bool>): (b: bool)
    ensures b <==> mobile == Some(true)
    ensures ParticleCount(mobile) == (if b then 20 else 50)
  {
    mobile == Some(true)
  }

  class ParticleWorker {
    var particles: seq<Particle>
    var canvas: Option<Canvas>   // the offscreen canvas together with its 2-D context
    var particleCount: nat
    var isMobile: bool
    var mouseX: real
    var mouseY: real

    /** Before the first accepted `init` there is no surface and no particle; after it the
        field has the population size of its device class, every trail is within its cap and
        every particle lies on the surface. */
    ghost predicate Valid()
      reads this
    {
      && (canvas.None? ==> particles == [])
      && (canvas.Some? ==>
            && particleCount == (if isMobile then 20 else 50)
            && |particles| == particleCount
            && forall p <- particles ::
                 |p.trail| <= TrailCap(isMobile) &&
                 InCanvas(p, canvas.value.width as real, canvas.value.height as real))
    }

    /** The globals as the worker script declares them. */
    constructor ()
      ensures Valid()
      ensures particles == [] && canvas == None && particleCount == 50 && !isMobile
      ensures mouseX == 0.0 && mouseY == 0.0
    {
      particles := [];
      canvas := None;
      particleCount := 50;
      isMobile := false;
      mouseX := 0.0;
      mouseY := 0.0;
    }

    /** `init` with non-zero dimensions: a new surface and a fresh population drawn from `rand`. */
    method Init(width: nat, height: nat, mobile: Option<bool>, rand: nat -> real)
      requires IsUnitStream(rand)
      requires width != 0 && height != 0
      modifies this
      ensures Valid()
      ensures canvas == Some(Canvas(width, height))
      ensures particleCount == ParticleCount(mobile) && isMobile == MobileFlag(mobile)
      ensures particles == Population(rand, particleCount, width as real, height as real)
      ensures mouseX == old(mouseX) && mouseY == old(mouseY)
    {
      var count := ParticleCount(mobile);
      var ps := [];
      var i := 0;
      while i < count
        invariant 0 <= i <= count
        invariant mouseX == old(mouseX) && mouseY == old(mouseY)
        invariant ps == Population(rand, i, width as real, height as real)
      {
        PopulationSnoc(rand, i, width as real, height as real);
        ps := ps + [NewParticle(rand, DrawsPerParticle * i, width as real, height as real)];
        i := i + 1;
      }
      canvas := Some(Canvas(width, height));
      particleCount := count;
      isMobile := MobileFlag(mobile);
      particles := ps;
    }

    /** `animate` once a surface exists: every particle ticks once against the stored pointer. */
    method Animate(sqrt: real -> real)
      requires IsSqrt(sqrt)
      requires Valid() && canvas.Some?
      modifies this
      ensures Valid()
      ensures canvas == old(canvas) && particleCount == old(particleCount) && isMobile == old(isMobile)
      ensures particles == StepAll(old(particles), mouseX, mouseY,
                                   canvas.value.width as real, canvas.value.height as real,
                                   isMobile, sqrt)
      ensures mouseX == old(mouseX) && mouseY == old(mouseY)
    {
      var w := canvas.value.width as real;
      var h := canvas.value.height as real;
      StepAllKeepsInvariants(particles, mouseX, mouseY, w, h, isMobile, sqrt);
      particles := StepEach(particles, mouseX, mouseY, w, h, isMobile, sqrt);
    }

    /** The whole `onmessage` handler. `rand` supplies the draws an `init` makes; `posted`
        says whether a frame was sent back. */
    method HandleMessage(msg: Message, rand: nat -> real, sqrt: real -> real) returns (posted: bool)
      requires IsUnitStream(rand) && IsSqrt(sqrt)
      requires Valid()
      modifies this
      ensures Valid()
      // init with both dimensions truthy replaces surface, parameters and population
      ensures msg.kind == InitMsg && Truthy(msg.width) && Truthy(msg.height) ==>
                && canvas == Some(Canvas(msg.width.value, msg.height.value))
                && particleCount == ParticleCount(msg.isMobile)
                && isMobile == MobileFlag(msg.isMobile)
                && particles == Population(rand, particleCount, msg.width.value as real, msg.height.value as real)
                && mouseX == old(mouseX) && mouseY == old(mouseY)
      // mousemove with both coordinates present sets the pointer and nothing else
      ensures msg.kind == MouseMoveMsg && msg.mouseX.Some? && msg.mouseY.Some? ==>
                && mouseX == msg.mouseX.value && mouseY == msg.mouseY.value
                && particles == old(particles) && canvas == old(canvas)
                && particleCount == old(particleCount) && isMobile == old(isMobile)
      // animate after a successful init ticks every particle and posts a frame
      ensures msg.kind == AnimateMsg && old(canvas).Some? ==>
                && posted
                && canvas == old(canvas) && particleCount == old(particleCount) && isMobile == old(isMobile)
                && particles == StepAll(old(particles), mouseX, mouseY,
                                        canvas.value.width as real, canvas.value.height as real,
                                        isMobile, sqrt)
                && mouseX == old(mouseX) && mouseY == old(mouseY)
      // every other message (an init without both dimensions, a mousemove without both
      // coordinates, an animate before init) changes nothing
      ensures !(msg.kind == InitMsg && Truthy(msg.width) && Truthy(msg.height)) &&
              !(msg.kind == MouseMoveMsg && msg.mouseX.Some? && msg.mouseY.Some?) &&
              !(msg.kind == AnimateMsg && old(canvas).Some?) ==>
                && particles == old(particles) && canvas == old(canvas)
                && particleCount == old(particleCount) && isMobile == old(isMobile)
                && mouseX == old(mouseX) && mouseY == old(mouseY)
      ensures posted <==> msg.kind == AnimateMsg && old(canvas).Some?
    {
      posted := false;
      if msg.kind == InitMsg && Truthy(msg.width) && Truthy(msg.height) {
        Init(msg.width.value, msg.height.value, msg.isMobile, rand);
      }
      if msg.kind == MouseMoveMsg && msg.mouseX.Some? && msg.mouseY.Some? {
        mouseX := msg.mouseX.value;
        mouseY := msg.mouseY.value;
      }
      if msg.kind == AnimateMsg && canvas.Some? {
        Animate(sqrt);
        posted := true;
      }
    }
  }
}
