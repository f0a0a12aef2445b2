/** The page side of the particle field (src/components/AIParticles.tsx). With offscreen
    canvases the page only forwards work to the worker: an `init` on every resize, a throttled
    `mousemove`, an `animate` per display frame, and each returned frame is shown. Without them
    the page runs its own copy of the particle tick, gated to at most 60 steps per second. */
module AIParticles {
  import opened Numeric
  import opened Particle
  import opened ParticlesWorker

  /** Minimum time between two forwarded pointer messages, in milliseconds: `isMobile ? 50 : 16`. */
  function ThrottleGap(isMobile: bool): (g: int)
    ensures 16 <= g <= 50
  {
    if isMobile then 50 else 16
  }

  /** `1000 / fps` with `fps = 60`. */
  const FrameDelay: real := 1000.0 / 60.0

  /** The fallback population: `isMobile ? 30 : 80`. */
  function FallbackCount(isMobile: bool): (n: nat)
    ensures isMobile ==> n == 30
    ensures !isMobile ==> n == 80
  {
    if isMobile then 30 else 80
  }

  function InitMessage(width: nat, height: nat, isMobile: bool): Message
  {
    Message(InitMsg, Some(width), Some(height), Some(isMobile), None, None)
  }

  function PointerMessage(x: real, y: real): Message
  {
    Message(MouseMoveMsg, None, None, None, Some(x), Some(y))
  }

  const AnimateMessage: Message := Message(AnimateMsg, None, None, None, None, None)

  /** A message the worker sends back; only a `frame` carries a bitmap to show. */
  datatype Reply = Reply(kind: string, bitmap: nat)

  /** The offscreen path: the page state that the event handlers close over. */
  class WorkerHost {
    const isMobile: bool
    const hasRenderer: bool          // `getContext('bitmaprenderer')` returned a context
    var width: nat
    var height: nat
    var mouseX: real                 // `mouseRef.current`
    var mouseY: real
    var throttleTimeout: int
    var outbox: seq<Message>         // every message posted to the worker, oldest first
    var shown: seq<nat>              // every bitmap handed to the canvas, oldest first
    ghost var pointerPosts: seq<int> // the clock readings at which a `mousemove` was posted

    /** The throttle timestamp is the time of the last forwarded pointer message (0 before the
        first), and any two consecutive forwarded messages are more than the gap apart. */
    ghost predicate Valid()
      reads this
    {
      && (pointerPosts == [] ==> throttleTimeout == 0)
      && (pointerPosts != [] ==>
            throttleTimeout == pointerPosts[|pointerPosts| - 1] && pointerPosts[0] > ThrottleGap(isMobile))
      && forall i :: 0 < i < |pointerPosts| ==>
           pointerPosts[i] - pointerPosts[i - 1] > ThrottleGap(isMobile)
    }

    /** Mounting: size the canvas, post `init`, then post the first `animate`. */
    constructor (isMobile: bool, hasRenderer: bool, windowWidth: nat, windowHeight: nat)
      ensures Valid()
      ensures this.isMobile == isMobile && this.hasRenderer == hasRenderer
      ensures width == windowWidth && height == windowHeight
      ensures outbox == [InitMessage(windowWidth, windowHeight, isMobile), AnimateMessage]
      ensures shown == [] && throttleTimeout == 0 && mouseX == 0.0 && mouseY == 0.0
    {
      this.isMobile := isMobile;
      this.hasRenderer := hasRenderer;
      width := windowWidth;
      height := windowHeight;
      mouseX := 0.0;
      mouseY := 0.0;
      throttleTimeout := 0;
      shown := [];
      pointerPosts := [];
      outbox := [InitMessage(windowWidth, windowHeight, isMobile), AnimateMessage];
    }

    /** `resizeCanvas`: take the window size and re-post `init` with it. */
    method OnResize(windowWidth: nat, windowHeight: nat)
      requires Valid()
      modifies this
      ensures Valid()
      ensures width == windowWidth && height == windowHeight
      ensures outbox == old(outbox) + [InitMessage(windowWidth, windowHeight, isMobile)]
      ensures mouseX == old(mouseX) && mouseY == old(mouseY) && throttleTimeout == old(throttleTimeout)
      ensures shown == old(shown) && pointerPosts == old(pointerPosts)
    {
      width := windowWidth;
      height := windowHeight;
      outbox := outbox + [InitMessage(width, height, isMobile)];
    }

    /** `handleMouseMove` at clock reading `now`: the pointer ref always follows the pointer;
        the worker hears about it only when more than the gap has passed since the last post. */
    method OnMouseMove(x: real, y: real, now: int) returns (sent: bool)
      requires Valid()
      modifies this
      ensures Valid()
      ensures mouseX == x && mouseY == y
      ensures sent <==> now - old(throttleTimeout) > ThrottleGap(isMobile)
      ensures sent ==> && throttleTimeout == now
                       && outbox == old(outbox) + [PointerMessage(x, y)]
                       && pointerPosts == old(pointerPosts) + [now]
      ensures !sent ==> && throttleTimeout == old(throttleTimeout)
                        && outbox == old(outbox)
                        && pointerPosts == old(pointerPosts)
      ensures width == old(width) && height == old(height) && shown == old(shown)
    {
      mouseX := x;
      mouseY := y;
      sent := now - throttleTimeout > ThrottleGap(isMobile);
      if sent {
        outbox := outbox + [PointerMessage(x, y)];
        throttleTimeout := now;
        pointerPosts := pointerPosts + [now];
      }
    }

    /** One display frame: ask the worker for the next frame. */
    method OnAnimationFrame()
      requires Valid()
      modifies this
      ensures Valid()
      ensures outbox == old(outbox) + [AnimateMessage]
      ensures width == old(width) && height == old(height) && shown == old(shown)
      ensures mouseX == old(mouseX) && mouseY == old(mouseY) && throttleTimeout == old(throttleTimeout)
      ensures pointerPosts == old(pointerPosts)
    {
      outbox := outbox + [AnimateMessage];
    }

    /** `worker.onmessage`: a `frame` reply is shown when the canvas has a bitmap renderer;
        every other reply is ignored. */
    method OnWorkerMessage(reply: Reply)
      requires Valid()
      modifies this
      ensures Valid()
      ensures reply.kind == "frame" && hasRenderer ==> shown == old(shown) + [reply.bitmap]
      ensures !(reply.kind == "frame" && hasRenderer) ==> shown == old(shown)
      ensures outbox == old(outbox) && width == old(width) && height == old(height)
      ensures mouseX == old(mouseX) && mouseY == old(mouseY) && throttleTimeout == old(throttleTimeout)
      ensures pointerPosts == old(pointerPosts)
    {
      if reply.kind == "frame" && hasRenderer {
        shown := shown + [reply.bitmap];
      }
    }
  }

  /** The path without offscreen canvases: the page keeps its own particle field. */
  class FallbackAnimation {
    const isMobile: bool
    var width: nat
    var height: nat
    var particles: seq<Particle>
    var mouseX: real
    var mouseY: real
    var lastTime: real
    ghost var steps: seq<real>  // the frame timestamps at which a step ran

    /** The population never changes size and every trail stays within its cap; `lastTime` is
        the timestamp of the last step (0 before the first), and steps are at least one frame
        delay apart. */
    ghost predicate Valid()
      reads this
    {
      && |particles| == FallbackCount(isMobile)
      && (forall p <- particles :: |p.trail| <= TrailCap(isMobile))
      && (steps == [] ==> lastTime == 0.0)
      && (steps != [] ==> lastTime == steps[|steps| - 1] && steps[0] >= FrameDelay)
      && forall i :: 0 < i < |steps| ==> steps[i] - steps[i - 1] >= FrameDelay
    }

    /** Mounting: size the canvas to the window and scatter the population over it, drawing
        seven values from `rand` per particle. */
    constructor (isMobile: bool, windowWidth: nat, windowHeight: nat, rand: nat -> real)
      requires IsUnitStream(rand)
      ensures Valid()
      ensures this.isMobile == isMobile && width == windowWidth && height == windowHeight
      ensures particles == Population(rand, FallbackCount(isMobile), windowWidth as real, windowHeight as real)
      ensures forall p <- particles :: InCanvas(p, windowWidth as real, windowHeight as real)
      ensures mouseX == 0.0 && mouseY == 0.0 && lastTime == 0.0
    {
      this.isMobile := isMobile;
      width := windowWidth;
      height := windowHeight;
      var count := FallbackCount(isMobile);
      var ps := [];
      var i := 0;
      while i < count
        invariant 0 <= i <= count
        invariant ps == Population(rand, i, windowWidth as real, windowHeight as real)
      {
        PopulationSnoc(rand, i, windowWidth as real, windowHeight as real);
        ps := ps + [NewParticle(rand, DrawsPerParticle * i, windowWidth as real, windowHeight as real)];
        i := i + 1;
      }
      particles := ps;
      mouseX := 0.0;
      mouseY := 0.0;
      lastTime := 0.0;
      steps := [];
    }

    /** `resizeCanvas`: only the canvas size changes; particles keep their positions. */
    method OnResize(windowWidth: nat, windowHeight: nat)
      requires Valid()
      modifies this
      ensures Valid()
      ensures width == windowWidth && height == windowHeight
      ensures particles == old(particles) && lastTime == old(lastTime) && steps == old(steps)
      ensures mouseX == old(mouseX) && mouseY == old(mouseY)
    {
      width := windowWidth;
      height := windowHeight;
    }

    /** `handleMouseMove`: record the pointer. */
    method OnMouseMove(x: real, y: real)
      requires Valid()
      modifies this
      ensures Valid()
      ensures mouseX == x && mouseY == y
      ensures particles == old(particles) && lastTime == old(lastTime) && steps == old(steps)
      ensures width == old(width) && height == old(height)
    {
      mouseX := x;
      mouseY := y;
    }

    /** `animate(currentTime)`: tick every particle only when at least one frame delay has
        passed since the last executed step, and only then move `lastTime` forward. */
    method Animate(currentTime: real, sqrt: real -> real) returns (stepped: bool)
      requires IsSqrt(sqrt)
      requires Valid()
      modifies this
      ensures Valid()
      ensures stepped <==> currentTime - old(lastTime) >= FrameDelay
      ensures stepped ==>
                && lastTime == currentTime
                && steps == old(steps) + [currentTime]
                && particles == StepAll(old(particles), mouseX, mouseY, width as real, height as real,
                                        isMobile, sqrt)
                && forall p <- particles :: InCanvas(p, width as real, height as real)
      ensures !stepped ==> particles == old(particles) && lastTime == old(lastTime) && steps == old(steps)
      ensures width == old(width) && height == old(height)
      ensures mouseX == old(mouseX) && mouseY == old(mouseY)
    {
      var deltaTime := currentTime - lastTime;
      stepped := deltaTime >= FrameDelay;
      if stepped {
        var w := width as real;
        var h := height as real;
        StepAllKeepsInvariants(particles, mouseX, mouseY, w, h, isMobile, sqrt);
        particles := StepEach(particles, mouseX, mouseY, w, h, isMobile, sqrt);
        lastTime := currentTime;
        steps := steps + [currentTime];
      }
    }
  }
}
