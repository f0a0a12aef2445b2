/** The node-graph worker (src/workers/neuralNetworkWorker.ts): nodes drift toward random
    targets, their sizes ease toward random target sizes, and each tick node `i` rebuilds the
    list of higher-numbered nodes close enough to be joined to it. */
module NeuralNetworkWorker {
  import opened Numeric

  /** Fraction of the gap to the target covered per tick. The on-page graph hard-codes the same
      rate in its own file, so each module keeps its own constant. */
  const MoveRate: real := 0.005
  /** Fraction of the gap to the target size covered per tick. */
  const SizeRate: real := 0.02
  const PhaseStep: real := 0.02
  /** A new node draws x, y, size, target size and pulse phase, in that order. */
  const DrawsPerNode: nat := 5
  /** A retarget draws target x, target y and target size for each node, in that order. */
  const DrawsPerRetarget: nat := 3

  datatype GraphNode = GraphNode(
    x: real, y: real,
    vx: real, vy: real,
    targetX: real, targetY: real,
    size: real, targetSize: real,
    pulsePhase: real,
    connections: seq<nat>
  )

  datatype MessageKind = InitMsg | AnimateMsg

  datatype Message = Message(
    kind: MessageKind,
    width: Option<nat>, height: Option<nat>,
    isMobile: Option<bool>,
    timestamp: Option<real>
  )

  /** `isMobile ? 20 : 50`. */
  function NodeCount(mobile: Option<bool>): (n: nat)
    ensures n == 20 || n == 50
    ensures n == 20 <==> mobile == Some(true)
  {
    if mobile == Some(true) then 20 else 50
  }

  /** `isMobile ? 100 : 150`; a mobile graph is never larger nor wider-linked than a desktop one. */
  function MaxDistance(mobile: Option<bool>): (d: real)
    ensures d == 100.0 || d == 150.0
    ensures d == 100.0 <==> NodeCount(mobile) == 20
  {
    if mobile == Some(true) then 100.0 else 150.0
  }

  /** A mobile graph is never larger, nor linked over longer distances, than a desktop one. */
  lemma MobileNoLarger(mobile: Option<bool>)
    ensures NodeCount(Some(true)) <= NodeCount(mobile) && MaxDistance(Some(true)) <= MaxDistance(mobile)
  {
  }

  /** Sizes (current and target) lie in [1, 4); the connection list of node `i` of `count` is
      strictly increasing and holds only indices above `i`. */
  predicate WellFormed(n: GraphNode, i: nat, count: nat)
  {
    && 1.0 <= n.size < 4.0 && 1.0 <= n.targetSize < 4.0
    && Increasing(n.connections)
    && forall j <- n.connections :: i < j < count
  }

  /** Position and target both lie in [0, width) x [0, height). */
  predicate InField(n: GraphNode, width: real, height: real)
  {
    && 0.0 <= n.x < width && 0.0 <= n.y < height
    && 0.0 <= n.targetX < width && 0.0 <= n.targetY < height
  }

  /** A new node built from the draws `rand(k) .. rand(k + 4)`: it sits on its own target,
      at rest, unconnected. */
  function NewNode(rand: nat -> real, k: nat, width: real, height: real): (n: GraphNode)
    requires IsUnitStream(rand)
    ensures n.targetX == n.x && n.targetY == n.y && n.vx == 0.0 && n.vy == 0.0
    ensures 1.0 <= n.size < 3.0 && 1.0 <= n.targetSize < 4.0
    ensures 0.0 <= n.pulsePhase < 2.0 * Pi
    ensures n.connections == []
    ensures 0.0 < width && 0.0 < height ==> InField(n, width, height)
  {
    var x := Spread(rand(k), width);
    var y := Spread(rand(k + 1), height);
    var phase := rand(k + 4) * Pi * 2.0;
    assert phase == Spread(rand(k + 4), 2.0 * Pi);
    GraphNode(x, y, 0.0, 0.0, x, y,
              1.0 + rand(k + 2) * 2.0, 1.0 + rand(k + 3) * 3.0,
              phase, [])
  }

  function NodePopulation(rand: nat -> real, count: nat, width: real, height: real): (ns: seq<GraphNode>)
    requires IsUnitStream(rand)
    ensures |ns| == count
    ensures forall i :: 0 <= i < count ==> WellFormed(ns[i], i, count)
    ensures 0.0 < width && 0.0 < height ==> forall n <- ns :: InField(n, width, height)
  {
    seq(count, i requires 0 <= i < count => NewNode(rand, DrawsPerNode * i, width, height))
  }

  lemma {:induction false} NodePopulationSnoc(rand: nat -> real, i: nat, width: real, height: real)
    requires IsUnitStream(rand)
    ensures NodePopulation(rand, i + 1, width, height)
            == NodePopulation(rand, i, width, height) + [NewNode(rand, DrawsPerNode * i, width, height)]
  {
    var a := NodePopulation(rand, i + 1, width, height);
    var b := NodePopulation(rand, i, width, height) + [NewNode(rand, DrawsPerNode * i, width, height)];
    assert |a| == |b|;
    forall k | 0 <= k < |a| ensures a[k] == b[k] {
    }
  }

  /** The movement and growth part of a tick: velocity is 0.5% of the gap to the target, the
      position takes one velocity step, the size covers 2% of its gap, and the phase advances. */
  function Advance(n: GraphNode): (r: GraphNode)
    ensures r == n.(x := r.x, y := r.y, vx := r.vx, vy := r.vy, size := r.size, pulsePhase := r.pulsePhase)
    ensures n.targetX - r.x == (n.targetX - n.x) * 0.995 && n.targetY - r.y == (n.targetY - n.y) * 0.995
    ensures r.x == n.x + r.vx && r.y == n.y + r.vy
    ensures n.targetSize - r.size == (n.targetSize - n.size) * 0.98
    ensures r.pulsePhase == n.pulsePhase + 0.02
  {
    n.(vx := (n.targetX - n.x) * MoveRate, vy := (n.targetY - n.y) * MoveRate,
       x := Ease(n.x, n.targetX, MoveRate), y := Ease(n.y, n.targetY, MoveRate),
       size := Ease(n.size, n.targetSize, SizeRate),
       pulsePhase := n.pulsePhase + PhaseStep)
  }

  /** A tick keeps the sizes in [1, 4) and, since the new position lies between the old one
      and the target, keeps position and target inside the field. */
  lemma AdvanceKeepsBounds(n: GraphNode, width: real, height: real)
    ensures 1.0 <= n.size < 4.0 && 1.0 <= n.targetSize < 4.0 ==> 1.0 <= Advance(n).size < 4.0
    ensures InField(n, width, height) ==> InField(Advance(n), width, height)
  {
    if 1.0 <= n.size < 4.0 && 1.0 <= n.targetSize < 4.0 {
      EaseInside(n.size, n.targetSize, SizeRate, 1.0, 4.0);
    }
    if InField(n, width, height) {
      EaseInside(n.x, n.targetX, MoveRate, 0.0, width);
      EaseInside(n.y, n.targetY, MoveRate, 0.0, height);
    }
  }

  /** The indices `j` in `[lo, hi)`, ascending, whose node is within squared distance `r2`
      of `p`. */
  function Near(p: GraphNode, ns: seq<GraphNode>, lo: nat, hi: nat, r2: real): (cs: seq<nat>)
    requires hi <= |ns|
    ensures forall a :: 0 <= a < |cs| ==> lo <= cs[a] < hi
    ensures forall j :: j in cs <==> lo <= j < hi && DistSq(p.x, p.y, ns[j].x, ns[j].y) < r2
    ensures Increasing(cs)
    decreases hi
  {
    if hi <= lo then []
    else
      var rest := Near(p, ns, lo, hi - 1, r2);
      if DistSq(p.x, p.y, ns[hi - 1].x, ns[hi - 1].y) < r2 then rest + [hi - 1] else rest
  }

  /** `Near` looks only at the nodes in `[lo, hi)`. */
  lemma {:induction false} NearReadsRange(p: GraphNode, ns: seq<GraphNode>, ms: seq<GraphNode>, lo: nat, hi: nat, r2: real)
    requires hi <= |ns| && hi <= |ms|
    requires forall k :: lo <= k < hi ==> ns[k] == ms[k]
    ensures Near(p, ns, lo, hi, r2) == Near(p, ms, lo, hi, r2)
    decreases hi
  {
    if lo < hi {
      NearReadsRange(p, ns, ms, lo, hi - 1, r2);
    }
  }

  /** The tick of node `i` in the array's `forEach`: it moves, then collects the nodes after it
      that are close to its NEW position. Those later nodes have not moved yet this tick, so
      `ns` (the array before the tick) gives their positions. */
  function TickNode(ns: seq<GraphNode>, i: nat, maxDistance: real): (r: GraphNode)
    requires i < |ns|
  {
    var m := Advance(ns[i]);
    m.(connections := Near(m, ns, i + 1, |ns|, maxDistance * maxDistance))
  }

  function TickAll(ns: seq<GraphNode>, maxDistance: real): (rs: seq<GraphNode>)
    ensures |rs| == |ns|
  {
    seq(|ns|, i requires 0 <= i < |ns| => TickNode(ns, i, maxDistance))
  }

  /** Node `j` is among node `i`'s connections after a tick exactly when `j` comes after `i`
      and the pre-tick position of `j` lies within `maxDistance` of the moved node `i`. */
  lemma ConnectionsIff(ns: seq<GraphNode>, maxDistance: real, i: nat, j: nat)
    requires i < |ns|
    ensures var m := Advance(ns[i]);
      j in TickAll(ns, maxDistance)[i].connections <==>
        i < j < |ns| && DistSq(m.x, m.y, ns[j].x, ns[j].y) < maxDistance * maxDistance
  {
  }

  /** After a tick no node is linked to itself and each unordered pair is listed at most once,
      by its lower-numbered end. */
  lemma NoSelfOrDoubleEdge(ns: seq<GraphNode>, maxDistance: real, i: nat, j: nat)
    requires i < |ns| && j < |ns|
    ensures i !in TickAll(ns, maxDistance)[i].connections
    ensures j in TickAll(ns, maxDistance)[i].connections ==> i !in TickAll(ns, maxDistance)[j].connections
  {
    var rs := TickAll(ns, maxDistance);
    assert j in rs[i].connections ==> i < j;
    assert i in rs[j].connections ==> j < i;
  }

  /** A tick keeps every node well formed and, when every node was inside the field, keeps
      every node inside it. */
  lemma TickAllKeepsInvariants(ns: seq<GraphNode>, maxDistance: real, width: real, height: real)
    requires forall i :: 0 <= i < |ns| ==> WellFormed(ns[i], i, |ns|)
    ensures forall i :: 0 <= i < |ns| ==> WellFormed(TickAll(ns, maxDistance)[i], i, |ns|)
    ensures (forall n <- ns :: InField(n, width, height)) ==>
              forall n <- TickAll(ns, maxDistance) :: InField(n, width, height)
  {
    var rs := TickAll(ns, maxDistance);
    forall i | 0 <= i < |ns|
      ensures WellFormed(rs[i], i, |ns|)
      ensures InField(ns[i], width, height) ==> InField(rs[i], width, height)
    {
      AdvanceKeepsBounds(ns[i], width, height);
    }
  }

  /** What one retarget does to one node, from the draws `rand(k) .. rand(k + 2)`, inside the
      field the timer captured. */
  function RetargetNode(n: GraphNode, rand: nat -> real, k: nat, area: Canvas): (r: GraphNode)
    requires IsUnitStream(rand)
    ensures r == n.(targetX := r.targetX, targetY := r.targetY, targetSize := r.targetSize)
    ensures 1.0 <= r.targetSize < 4.0
    ensures 0 < area.width ==> 0.0 <= r.targetX < area.width as real
    ensures 0 < area.height ==> 0.0 <= r.targetY < area.height as real
  {
    n.(targetX := Spread(rand(k), area.width as real),
       targetY := Spread(rand(k + 1), area.height as real),
       targetSize := 1.0 + rand(k + 2) * 3.0)
  }

  function RetargetAll(ns: seq<GraphNode>, rand: nat -> real, area: Canvas): (rs: seq<GraphNode>)
    requires IsUnitStream(rand)
    ensures |rs| == |ns|
  {
    seq(|ns|, i requires 0 <= i < |ns| => RetargetNode(ns[i], rand, DrawsPerRetarget * i, area))
  }

  /** A retarget keeps every node well formed and, when it uses the current field's size,
      keeps every node inside it. */
  lemma RetargetAllKeepsInvariants(ns: seq<GraphNode>, rand: nat -> real, area: Canvas)
    requires IsUnitStream(rand)
    requires forall i :: 0 <= i < |ns| ==> WellFormed(ns[i], i, |ns|)
    ensures forall i :: 0 <= i < |ns| ==> WellFormed(RetargetAll(ns, rand, area)[i], i, |ns|)
    ensures 0 < area.width && 0 < area.height &&
            (forall n <- ns :: InField(n, area.width as real, area.height as real)) ==>
              forall n <- RetargetAll(ns, rand, area) :: InField(n, area.width as real, area.height as real)
  {
    var rs := RetargetAll(ns, rand, area);
    if 0 < area.width && 0 < area.height &&
       (forall n <- ns :: InField(n, area.width as real, area.height as real)) {
      forall i | 0 <= i < |rs| ensures InField(rs[i], area.width as real, area.height as real) {
        assert ns[i] in ns;
      }
    }
  }

  /** `Math.sin(node.pulsePhase) * 0.5 + 1`, for a sine value `s`. */
  function Pulse(s: real): (r: real)
    requires -1.0 <= s <= 1.0
    ensures 0.5 <= r <= 1.5
  {
    s * 0.5 + 1.0
  }

  /** `Math.sin(time * 0.5 + i) * 0.3 + 1`, for a sine value `s`. */
  function Breathe(s: real): (r: real)
    requires -1.0 <= s <= 1.0
    ensures 0.7 <= r <= 1.3
  {
    s * 0.3 + 1.0
  }

  /** `(timestamp || 0) * 0.001`: a missing timestamp counts as time zero. */
  function Time(timestamp: Option<real>): (t: real)
    ensures timestamp.None? ==> t == 0.0
    ensures timestamp.Some? ==> t * 1000.0 == timestamp.value
  {
    (if timestamp.Some? && timestamp.value != 0.0 then timestamp.value else 0.0) * 0.001
  }

  /** The drawn radius `size * pulse * breathe`. */
  function FinalSize(size: real, pulse: real, breathe: real): real
  {
    size * pulse * breathe
  }

  /** With pulse and breathe factors in their ranges, the drawn radius stays within
      [0.35, 1.95] times the size. */
  lemma FinalSizeBounds(size: real, pulse: real, breathe: real)
    requires 0.0 <= size && 0.5 <= pulse <= 1.5 && 0.7 <= breathe <= 1.3
    ensures 0.35 * size <= FinalSize(size, pulse, breathe) <= 1.95 * size
  {
    ChainBounds(size, pulse, breathe, 0.5, 1.5, 0.7, 1.3, 0.35, 1.95);
  }

  /** Scaling a non-negative value by two bounded factors in turn stays within the products
      of the bounds. */
  lemma ChainBounds(a: real, f: real, g: real, flo: real, fhi: real, glo: real, ghi: real, lo: real, hi: real)
    requires 0.0 <= a && 0.0 <= flo <= f <= fhi && 0.0 <= glo <= g <= ghi
    requires lo == flo * glo && hi == fhi * ghi
    ensures lo * a <= (a * f) * g <= hi * a
  {
    var af := a * f;
    ScaleWithin(a, f, flo, fhi);
    ScaleWithin(af, g, glo, ghi);
    assert glo * af <= af * g <= ghi * af;
    MulNonneg(glo, af - flo * a);
    MulNonneg(ghi, fhi * a - af);
    assert glo * (af - flo * a) == glo * af - (flo * glo) * a;
    assert ghi * (fhi * a - af) == (fhi * ghi) * a - ghi * af;
  }

  /** `(1 - distance / maxDistance) * 0.7` for a connected pair: it lies in (0, 0.7]. */
  function BaseOpacity(sqrt: real -> real, p: GraphNode, q: GraphNode, maxDistance: real): (o: real)
    requires IsSqrt(sqrt) && 0.0 < maxDistance
    requires DistSq(p.x, p.y, q.x, q.y) < maxDistance * maxDistance
    ensures 0.0 < o <= 0.7
  {
    var distance := sqrt(DistSq(p.x, p.y, q.x, q.y));
    SqrtBelow(sqrt, DistSq(p.x, p.y, q.x, q.y), maxDistance);
    UnitRatio(distance, maxDistance);
    (1.0 - distance / maxDistance) * 0.7
  }

  lemma UnitRatio(a: real, b: real)
    requires 0.0 <= a < b
    ensures 0.0 <= a / b < 1.0
  {
  }

  /** `(node.size + otherNode.size) / 6`: in [1/3, 4/3) for well-formed sizes. */
  function SizeInfluence(p: GraphNode, q: GraphNode): (s: real)
    ensures 1.0 <= p.size < 4.0 && 1.0 <= q.size < 4.0 ==> 1.0 / 3.0 <= s < 4.0 / 3.0
  {
    (p.size + q.size) / 6.0
  }

  class NetworkWorker {
    var nodes: seq<GraphNode>
    var canvas: Option<Canvas>  // the offscreen canvas together with its 2-D context
    var nodeCount: nat
    var maxDistance: real
    /** One entry per interval started by an accepted `init`, holding the size it captured.
        Intervals are never cleared, so every one of them keeps retargeting the nodes. */
    var timers: seq<Canvas>

    ghost predicate Valid()
      reads this
    {
      && (canvas.None? ==> nodes == [] && timers == [])
      && ((nodeCount == 20 && maxDistance == 100.0) || (nodeCount == 50 && maxDistance == 150.0))
      && (canvas.Some? ==> |nodes| == nodeCount && timers != [] && timers[|timers| - 1] == canvas.value)
      && (forall c <- timers :: 0 < c.width && 0 < c.height)
      && forall i :: 0 <= i < |nodes| ==> WellFormed(nodes[i], i, |nodes|)
    }

    /** Every node lies inside the current surface. */
    ghost predicate Bounded()
      reads this
    {
      canvas.Some? &&
      forall n <- nodes :: InField(n, canvas.value.width as real, canvas.value.height as real)
    }

    constructor ()
      ensures Valid()
      ensures nodes == [] && canvas == None && nodeCount == 50 && maxDistance == 150.0 && timers == []
    {
      nodes := [];
      canvas := None;
      nodeCount := 50;
      maxDistance := 150.0;
      timers := [];
    }

    /** `init` with non-zero dimensions: new surface, parameters and nodes, and one more
        retarget interval capturing this size. */
    method Init(width: nat, height: nat, mobile: Option<bool>, rand: nat -> real)
      requires IsUnitStream(rand)
      requires Valid() && width != 0 && height != 0
      modifies this
      ensures Valid() && Bounded()
      ensures canvas == Some(Canvas(width, height))
      ensures nodeCount == NodeCount(mobile) && maxDistance == MaxDistance(mobile)
      ensures nodes == NodePopulation(rand, nodeCount, width as real, height as real)
      ensures timers == old(timers) + [Canvas(width, height)]
    {
      var count := NodeCount(mobile);
      var ns := [];
      var i := 0;
      while i < count
        invariant 0 <= i <= count
        invariant ns == NodePopulation(rand, i, width as real, height as real)
        invariant timers == old(timers)
      {
        NodePopulationSnoc(rand, i, width as real, height as real);
        ns := ns + [NewNode(rand, DrawsPerNode * i, width as real, height as real)];
        i := i + 1;
      }
      canvas := Some(Canvas(width, height));
      nodeCount := count;
      maxDistance := MaxDistance(mobile);
      nodes := ns;
      timers := timers + [Canvas(width, height)];
    }

    /** `animate` once a surface exists: each node in turn moves, grows and rebuilds its
        connections, in place. */
    method Animate()
      requires Valid() && canvas.Some?
      modifies this
      ensures Valid()
      ensures nodes == TickAll(old(nodes), maxDistance)
      ensures canvas == old(canvas) && nodeCount == old(nodeCount) && maxDistance == old(maxDistance)
      ensures timers == old(timers)
      ensures old(Bounded()) ==> Bounded()
    {
      TickAllKeepsInvariants(nodes, maxDistance, canvas.value.width as real, canvas.value.height as real);
      nodes := TickEach(nodes, maxDistance);
    }

    /** The `forEach` of a tick: node `i` is replaced by its ticked form, in index order, so
        that when node `i` ticks the nodes after it still hold their pre-tick state. */
    static method TickEach(ns0: seq<GraphNode>, maxDistance: real) returns (ns: seq<GraphNode>)
      ensures ns == TickAll(ns0, maxDistance)
    {
      ns := ns0;
      var i := 0;
      while i < |ns|
        invariant |ns| == |ns0|
        invariant 0 <= i <= |ns|
        invariant forall k :: 0 <= k < i ==> ns[k] == TickNode(ns0, k, maxDistance)
        invariant forall k :: i <= k < |ns| ==> ns[k] == ns0[k]
      {
        var node := TickOne(ns, ns0, i, maxDistance);
        ns := ns[i := node];
        i := i + 1;
      }
    }

    /** The body of the `forEach` for node `i`, run on the array `ns` in which the nodes from
        `i` on still hold their pre-tick state `ns0`. */
    static method TickOne(ns: seq<GraphNode>, ns0: seq<GraphNode>, i: nat, maxDistance: real)
      returns (node: GraphNode)
      requires i < |ns| == |ns0|
      requires forall k :: i <= k < |ns| ==> ns[k] == ns0[k]
      ensures node == TickNode(ns0, i, maxDistance)
    {
      node := Advance(ns[i]);
      var conns := Neighbours(node, ns, i, maxDistance * maxDistance);
      NearReadsRange(node, ns, ns0, i + 1, |ns|, maxDistance * maxDistance);
      node := node.(connections := conns);
    }

    /** The inner `for` loop of a tick: scan the nodes after `i` and collect, in order, those
        within squared distance `r2` of `node`. */
    static method Neighbours(node: GraphNode, ns: seq<GraphNode>, i: nat, r2: real) returns (conns: seq<nat>)
      requires i < |ns|
      ensures conns == Near(node, ns, i + 1, |ns|, r2)
    {
      conns := [];
      var j := i + 1;
      while j < |ns|
        invariant i + 1 <= j <= |ns|
        invariant conns == Near(node, ns, i + 1, j, r2)
      {
        var other := ns[j];
        if DistSq(node.x, node.y, other.x, other.y) < r2 {
          conns := conns + [j];
        }
        j := j + 1;
      }
    }

    /** One firing of the `k`-th retarget interval: every node gets a new target and target
        size drawn inside the size that interval captured. */
    method Retarget(k: nat, rand: nat -> real)
      requires IsUnitStream(rand)
      requires Valid() && k < |timers|
      modifies this
      ensures Valid()
      ensures timers == old(timers)
      ensures nodes == RetargetAll(old(nodes), rand, timers[k])
      ensures canvas == old(canvas) && nodeCount == old(nodeCount) && maxDistance == old(maxDistance)
      ensures old(Bounded()) && timers[k] == canvas.value ==> Bounded()
    {
      var area := timers[k];
      var ns0 := nodes;
      var ns := nodes;
      var i := 0;
      while i < |ns|
        invariant |ns| == |ns0| && 0 <= i <= |ns|
        invariant forall m :: 0 <= m < i ==> ns[m] == RetargetNode(ns0[m], rand, DrawsPerRetarget * m, area)
        invariant forall m :: i <= m < |ns| ==> ns[m] == ns0[m]
      {
        ns := ns[i := RetargetNode(ns[i], rand, DrawsPerRetarget * i, area)];
        i := i + 1;
      }
      RetargetAllKeepsInvariants(ns0, rand, area);
      nodes := ns;
    }

    /** The whole `onmessage` handler; `posted` says whether a frame was sent back. */
    method HandleMessage(msg: Message, rand: nat -> real) returns (posted: bool)
      requires IsUnitStream(rand)
      requires Valid()
      modifies this
      ensures Valid()
      ensures msg.kind == InitMsg && Truthy(msg.width) && Truthy(msg.height) ==>
                && canvas == Some(Canvas(msg.width.value, msg.height.value))
                && nodeCount == NodeCount(msg.isMobile) && maxDistance == MaxDistance(msg.isMobile)
                && nodes == NodePopulation(rand, nodeCount, msg.width.value as real, msg.height.value as real)
                && timers == old(timers) + [Canvas(msg.width.value, msg.height.value)]
                && Bounded()
      ensures msg.kind == AnimateMsg && old(canvas).Some? ==>
                && canvas == old(canvas) && nodeCount == old(nodeCount)
                && maxDistance == old(maxDistance) && timers == old(timers)
                && nodes == TickAll(old(nodes), maxDistance)
                && (old(Bounded()) ==> Bounded())
      ensures !(msg.kind == InitMsg && Truthy(msg.width) && Truthy(msg.height)) &&
              !(msg.kind == AnimateMsg && old(canvas).Some?) ==>
                && nodes == old(nodes) && canvas == old(canvas) && nodeCount == old(nodeCount)
                && maxDistance == old(maxDistance) && timers == old(timers)
      ensures posted <==> msg.kind == AnimateMsg && old(canvas).Some?
    {
      posted := false;
      if msg.kind == InitMsg && Truthy(msg.width) && Truthy(msg.height) {
        Init(msg.width.value, msg.height.value, msg.isMobile, rand);
      }
      if msg.kind == AnimateMsg && canvas.Some? {
        Animate();
        posted := true;
      }
    }
  }
}
