/** The on-page node graph (src/components/NeuralNetwork.tsx): fifty nodes ease toward targets
    that are redrawn every eight seconds, and every frame each node, right after it moves, is
    joined to every other node closer than 150 pixels. */
module NeuralNetwork {
  import opened Numeric

  const NodeCount: nat := 50
  const MaxDistance: real := 150.0
  /** Fraction of the gap to the target covered per frame; the worker graph has its own copy. */
  const MoveRate: real := 0.005
  /** A new node draws x then y; a retarget draws target x then target y for each node. */
  const DrawsPerNode: nat := 2

  datatype DriftNode = DriftNode(x: real, y: real, vx: real, vy: real, targetX: real, targetY: real)

  /** A line drawn from node `from` to node `to` with the given stroke opacity. */
  datatype Edge = Edge(from: nat, to: nat, opacity: real)

  /** Position and target both lie in [0, width] x [0, height]. */
  predicate InField(n: DriftNode, width: real, height: real)
  {
    && 0.0 <= n.x <= width && 0.0 <= n.y <= height
    && 0.0 <= n.targetX <= width && 0.0 <= n.targetY <= height
  }

  predicate AtRest(n: DriftNode)
  {
    n.x == n.targetX && n.y == n.targetY
  }

  /** A new node from the draws `rand(k)` and `rand(k + 1)`: it sits on its own target, at rest. */
  function NewNode(rand: nat -> real, k: nat, width: real, height: real): (n: DriftNode)
    requires IsUnitStream(rand)
    ensures AtRest(n) && n.vx == 0.0 && n.vy == 0.0
    ensures 0.0 <= width && 0.0 <= height ==> InField(n, width, height)
  {
    var x := Spread(rand(k), width);
    var y := Spread(rand(k + 1), height);
    DriftNode(x, y, 0.0, 0.0, x, y)
  }

  function Population(rand: nat -> real, count: nat, width: real, height: real): (ns: seq<DriftNode>)
    requires IsUnitStream(rand)
    ensures |ns| == count
    ensures forall n <- ns :: AtRest(n) && n.vx == 0.0 && n.vy == 0.0
    ensures 0.0 <= width && 0.0 <= height ==> forall n <- ns :: InField(n, width, height)
  {
    seq(count, i requires 0 <= i < count => NewNode(rand, DrawsPerNode * i, width, height))
  }

  lemma {:induction false} PopulationSnoc(rand: nat -> real, i: nat, width: real, height: real)
    requires IsUnitStream(rand)
    ensures Population(rand, i + 1, width, height)
            == Population(rand, i, width, height) + [NewNode(rand, DrawsPerNode * i, width, height)]
  {
    var a := Population(rand, i + 1, width, height);
    var b := Population(rand, i, width, height) + [NewNode(rand, DrawsPerNode * i, width, height)];
    assert |a| == |b|;
    forall k | 0 <= k < |a| ensures a[k] == b[k] {
    }
  }

  /** The movement part of a frame: velocity is 0.5% of the gap to the target, and the
      position takes one velocity step. */
  function Approach(n: DriftNode): (r: DriftNode)
    ensures r.targetX == n.targetX && r.targetY == n.targetY
    ensures n.targetX - r.x == (n.targetX - n.x) * 0.995 && n.targetY - r.y == (n.targetY - n.y) * 0.995
    ensures r.x == n.x + r.vx && r.y == n.y + r.vy
  {
    n.(vx := (n.targetX - n.x) * MoveRate, vy := (n.targetY - n.y) * MoveRate,
       x := Ease(n.x, n.targetX, MoveRate), y := Ease(n.y, n.targetY, MoveRate))
  }

  /** A node at rest stays exactly where it is (its velocity becomes zero). */
  lemma ApproachAtRest(n: DriftNode)
    requires AtRest(n)
    ensures Approach(n) == n.(vx := 0.0, vy := 0.0)
  {
  }

  /** The new position lies between the old one and the target, so a node inside the field
      stays inside it. */
  lemma ApproachKeepsInField(n: DriftNode, width: real, height: real)
    requires InField(n, width, height)
    ensures InField(Approach(n), width, height)
  {
  }

  /** The array in the middle of a frame: nodes before `k` have moved, the rest have not. */
  function MovedUpTo(ns: seq<DriftNode>, k: nat): (ms: seq<DriftNode>)
    ensures |ms| == |ns|
  {
    seq(|ns|, j requires 0 <= j < |ns| => if j < k then Approach(ns[j]) else ns[j])
  }

  lemma MovedUpToZero(ns: seq<DriftNode>)
    ensures MovedUpTo(ns, 0) == ns
  {
    forall j | 0 <= j < |ns| ensures MovedUpTo(ns, 0)[j] == ns[j] {
    }
  }

  /** Moving node `k` turns the array with `k` nodes moved into the one with `k + 1`. */
  lemma MovedUpToStep(ns: seq<DriftNode>, k: nat)
    requires k < |ns|
    ensures MovedUpTo(ns, k)[k := Approach(ns[k])] == MovedUpTo(ns, k + 1)
  {
    var a := MovedUpTo(ns, k)[k := Approach(ns[k])];
    var b := MovedUpTo(ns, k + 1);
    assert |a| == |b|;
    forall j | 0 <= j < |a| ensures a[j] == b[j] {
    }
  }

  /** A whole frame keeps every node that was inside the field inside it. */
  lemma MovedAllKeepsInField(ns: seq<DriftNode>, width: real, height: real)
    requires forall n <- ns :: InField(n, width, height)
    ensures forall n <- MovedUpTo(ns, |ns|) :: InField(n, width, height)
  {
    var ms := MovedUpTo(ns, |ns|);
    forall k | 0 <= k < |ms| ensures InField(ms[k], width, height) {
      assert ns[k] in ns;
      ApproachKeepsInField(ns[k], width, height);
    }
  }

  /** `(1 - distance / maxDistance) * 0.3`. */
  function Opacity(distance: real): real
  {
    (1.0 - distance / MaxDistance) * 0.3
  }

  /** A line is drawn only for distances below 150, where the opacity lies in (0, 0.3]. */
  lemma OpacityBounds(distance: real)
    requires 0.0 <= distance < MaxDistance
    ensures 0.0 < Opacity(distance) <= 0.3
  {
    assert 0.0 <= distance / MaxDistance < 1.0;
  }

  /** The node each line ends at, in drawing order. */
  function Targets(es: seq<Edge>): (ts: seq<nat>)
    ensures |ts| == |es| && forall k :: 0 <= k < |es| ==> ts[k] == es[k].to
  {
    seq(|es|, k requires 0 <= k < |es| => es[k].to)
  }

  /** The lines drawn from node `i`, now at `p`, to the nodes `j < hi` of the array `ns`,
      skipping `i` itself, for those closer than 150, in index order. */
  function EdgesFrom(i: nat, p: DriftNode, ns: seq<DriftNode>, hi: nat, sqrt: real -> real): (es: seq<Edge>)
    requires hi <= |ns|
    ensures |es| <= hi
    decreases hi
  {
    if hi == 0 then []
    else
      var rest := EdgesFrom(i, p, ns, hi - 1, sqrt);
      var j := hi - 1;
      var distance := sqrt(DistSq(p.x, p.y, ns[j].x, ns[j].y));
      if j != i && distance < MaxDistance then rest + [Edge(i, j, Opacity(distance))]
      else rest
  }

  /** Whether node `i`, now at `p`, draws a line to node `j` of `ns`: another node closer
      than 150. */
  predicate Joins(i: nat, p: DriftNode, ns: seq<DriftNode>, j: nat, sqrt: real -> real)
    requires j < |ns|
  {
    j != i && sqrt(DistSq(p.x, p.y, ns[j].x, ns[j].y)) < MaxDistance
  }

  /** Every line starts at `i`, ends at a node below `hi` that `i` joins, and has the opacity of
      its own distance. */
  lemma {:induction false} EdgesFromShape(i: nat, p: DriftNode, ns: seq<DriftNode>, hi: nat, sqrt: real -> real)
    requires hi <= |ns|
    ensures forall e <- EdgesFrom(i, p, ns, hi, sqrt) ::
      && e.from == i && e.to < hi && Joins(i, p, ns, e.to, sqrt)
      && e.opacity == Opacity(sqrt(DistSq(p.x, p.y, ns[e.to].x, ns[e.to].y)))
  {
    if hi > 0 {
      EdgesFromShape(i, p, ns, hi - 1, sqrt);
      EdgesFromStep(i, p, ns, hi - 1, sqrt);
    }
  }

  /** The nodes `i` draws lines to are exactly the nodes below `hi` that it joins. */
  lemma {:induction false} EdgesFromTargets(i: nat, p: DriftNode, ns: seq<DriftNode>, hi: nat, sqrt: real -> real)
    requires hi <= |ns|
    ensures forall j: nat :: j in Targets(EdgesFrom(i, p, ns, hi, sqrt)) <==> j < hi && Joins(i, p, ns, j, sqrt)
  {
    if hi > 0 {
      EdgesFromTargets(i, p, ns, hi - 1, sqrt);
      EdgesFromStep(i, p, ns, hi - 1, sqrt);
      var rest := EdgesFrom(i, p, ns, hi - 1, sqrt);
      var j := hi - 1;
      if Joins(i, p, ns, j, sqrt) {
        var d := sqrt(DistSq(p.x, p.y, ns[j].x, ns[j].y));
        assert Targets(rest + [Edge(i, j, Opacity(d))]) == Targets(rest) + [j];
      }
    }
  }

  /** The lines come in strictly increasing order of their end node, so no node gets two. */
  lemma {:induction false} EdgesFromIncreasing(i: nat, p: DriftNode, ns: seq<DriftNode>, hi: nat, sqrt: real -> real)
    requires hi <= |ns|
    ensures Increasing(Targets(EdgesFrom(i, p, ns, hi, sqrt)))
  {
    if hi > 0 {
      EdgesFromIncreasing(i, p, ns, hi - 1, sqrt);
      EdgesFromShape(i, p, ns, hi - 1, sqrt);
      EdgesFromStep(i, p, ns, hi - 1, sqrt);
      var rest := EdgesFrom(i, p, ns, hi - 1, sqrt);
      var j := hi - 1;
      if Joins(i, p, ns, j, sqrt) {
        var d := sqrt(DistSq(p.x, p.y, ns[j].x, ns[j].y));
        var ts := Targets(rest + [Edge(i, j, Opacity(d))]);
        assert ts == Targets(rest) + [j];
        forall a | 0 <= a < |rest| ensures ts[a] < j {
          assert rest[a] in rest;
        }
      }
    }
  }

  /** One more candidate: the lines to nodes below `j + 1` are those below `j`, then the line
      to `j` if it is drawn. */
  lemma EdgesFromStep(i: nat, p: DriftNode, ns: seq<DriftNode>, j: nat, sqrt: real -> real)
    requires j < |ns|
    ensures var d := sqrt(DistSq(p.x, p.y, ns[j].x, ns[j].y));
      EdgesFrom(i, p, ns, j + 1, sqrt) ==
        EdgesFrom(i, p, ns, j, sqrt) + (if j != i && d < MaxDistance then [Edge(i, j, Opacity(d))] else [])
  {
  }

  /** With a real square root, node `i` draws a line to `j` exactly when `j` is another node
      within squared distance 150 * 150. */
  lemma EdgesFromIff(i: nat, p: DriftNode, ns: seq<DriftNode>, hi: nat, sqrt: real -> real)
    requires IsSqrt(sqrt) && hi <= |ns|
    ensures forall j: nat :: j in Targets(EdgesFrom(i, p, ns, hi, sqrt)) <==>
              j < hi && j != i && DistSq(p.x, p.y, ns[j].x, ns[j].y) < MaxDistance * MaxDistance
  {
    EdgesFromTargets(i, p, ns, hi, sqrt);
    forall j: nat | j < hi
      ensures Joins(i, p, ns, j, sqrt) <==>
              j != i && DistSq(p.x, p.y, ns[j].x, ns[j].y) < MaxDistance * MaxDistance
    {
      SqrtBelow(sqrt, DistSq(p.x, p.y, ns[j].x, ns[j].y), MaxDistance);
    }
  }

  /** With a real square root, every line node `i` draws has opacity in (0, 0.3]. */
  lemma EdgesFromOpacity(i: nat, p: DriftNode, ns: seq<DriftNode>, hi: nat, sqrt: real -> real)
    requires IsSqrt(sqrt) && hi <= |ns|
    ensures forall e <- EdgesFrom(i, p, ns, hi, sqrt) :: 0.0 < e.opacity <= 0.3
  {
    EdgesFromShape(i, p, ns, hi, sqrt);
    forall e <- EdgesFrom(i, p, ns, hi, sqrt) ensures 0.0 < e.opacity <= 0.3 {
      OpacityBounds(sqrt(DistSq(p.x, p.y, ns[e.to].x, ns[e.to].y)));
    }
  }

  /** Everything drawn in a frame by nodes `0 .. k - 1`, in drawing order: node `i` moves, then
      draws its lines against the array in which nodes `0 .. i` have moved and the others have
      not. */
  function FrameEdges(ns: seq<DriftNode>, k: nat, sqrt: real -> real): seq<Edge>
    requires k <= |ns|
  {
    if k == 0 then []
    else
      var i := k - 1;
      FrameEdges(ns, i, sqrt) + DrawnBy(ns, i, sqrt)
  }

  lemma FrameEdgesStep(ns: seq<DriftNode>, i: nat, sqrt: real -> real)
    requires i < |ns|
    ensures FrameEdges(ns, i + 1, sqrt) == FrameEdges(ns, i, sqrt) + DrawnBy(ns, i, sqrt)
  {
  }

  /** The lines node `i` draws during a frame. */
  function DrawnBy(ns: seq<DriftNode>, i: nat, sqrt: real -> real): seq<Edge>
    requires i < |ns|
  {
    EdgesFrom(i, Approach(ns[i]), MovedUpTo(ns, i + 1), |ns|, sqrt)
  }

  /** Node `i` draws a line to node `j` in a frame exactly when `j` is another node and the
      moved node `i` is closer than 150 to node `j` as it stands when `i` draws: already moved
      if `j < i`, not yet moved if `j > i`. */
  lemma DrawnIff(ns: seq<DriftNode>, sqrt: real -> real, i: nat, j: nat)
    requires IsSqrt(sqrt) && i < |ns| && j < |ns|
    ensures var p := Approach(ns[i]);
      var q := if j < i then Approach(ns[j]) else ns[j];
      j in Targets(DrawnBy(ns, i, sqrt)) <==> j != i && DistSq(p.x, p.y, q.x, q.y) < MaxDistance * MaxDistance
  {
    var ms := MovedUpTo(ns, i + 1);
    EdgesFromIff(i, Approach(ns[i]), ms, |ns|, sqrt);
    assert j != i ==> ms[j] == if j < i then Approach(ns[j]) else ns[j];
  }

  /** When every node is at rest, nothing moves during the frame, so each close unordered pair
      is drawn twice, once from each end. */
  lemma AtRestDrawnBothWays(ns: seq<DriftNode>, sqrt: real -> real, i: nat, j: nat)
    requires IsSqrt(sqrt) && i < |ns| && j < |ns|
    requires forall n <- ns :: AtRest(n)
    ensures j in Targets(DrawnBy(ns, i, sqrt)) <==> i in Targets(DrawnBy(ns, j, sqrt))
  {
    assert ns[i] in ns && ns[j] in ns;
    ApproachAtRest(ns[i]);
    ApproachAtRest(ns[j]);
    DrawnIff(ns, sqrt, i, j);
    DrawnIff(ns, sqrt, j, i);
    assert DistSq(ns[i].x, ns[i].y, ns[j].x, ns[j].y) == DistSq(ns[j].x, ns[j].y, ns[i].x, ns[i].y);
  }

  /** `Math.sin(Date.now() * 0.001 + i) * 0.5 + 1.5`, for a sine value `s`. */
  function PulseRadius(s: real): (r: real)
    requires -1.0 <= s <= 1.0
    ensures 1.0 <= r <= 2.0
  {
    s * 0.5 + 1.5
  }

  /** A retarget of one node from the draws `rand(k)` and `rand(k + 1)`, inside the canvas as it
      is at that moment. */
  function RetargetNode(n: DriftNode, rand: nat -> real, k: nat, width: real, height: real): (r: DriftNode)
    requires IsUnitStream(rand)
    ensures r == n.(targetX := r.targetX, targetY := r.targetY)
    ensures 0.0 <= width ==> 0.0 <= r.targetX <= width
    ensures 0.0 <= height ==> 0.0 <= r.targetY <= height
  {
    n.(targetX := Spread(rand(k), width), targetY := Spread(rand(k + 1), height))
  }

  class NetworkCanvas {
    var width: nat
    var height: nat
    var nodes: seq<DriftNode>

    ghost predicate Valid()
      reads this
    {
      |nodes| == NodeCount
    }

    /** Every node lies inside the canvas. */
    ghost predicate Bounded()
      reads this
    {
      forall n <- nodes :: InField(n, width as real, height as real)
    }

    /** Mounting: size the canvas to the window and place fifty nodes at rest inside it. */
    constructor (windowWidth: nat, windowHeight: nat, rand: nat -> real)
      requires IsUnitStream(rand)
      ensures Valid() && Bounded()
      ensures width == windowWidth && height == windowHeight
      ensures nodes == Population(rand, NodeCount, windowWidth as real, windowHeight as real)
    {
      width := windowWidth;
      height := windowHeight;
      var ns := [];
      var i := 0;
      while i < NodeCount
        invariant 0 <= i <= NodeCount
        invariant ns == Population(rand, i, windowWidth as real, windowHeight as real)
      {
        PopulationSnoc(rand, i, windowWidth as real, windowHeight as real);
        ns := ns + [NewNode(rand, DrawsPerNode * i, windowWidth as real, windowHeight as real)];
        i := i + 1;
      }
      nodes := ns;
    }

    /** `resizeCanvas`: only the canvas size changes. */
    method OnResize(windowWidth: nat, windowHeight: nat)
      requires Valid()
      modifies this
      ensures Valid()
      ensures width == windowWidth && height == windowHeight && nodes == old(nodes)
    {
      width := windowWidth;
      height := windowHeight;
    }

    /** `changeTargets`: every node gets a new target inside the canvas as it is now; nodes
        that were inside stay inside. */
    method ChangeTargets(rand: nat -> real)
      requires IsUnitStream(rand)
      requires Valid()
      modifies this
      ensures Valid()
      ensures width == old(width) && height == old(height)
      ensures |nodes| == |old(nodes)|
      ensures forall i :: 0 <= i < |nodes| ==>
                nodes[i] == RetargetNode(old(nodes)[i], rand, DrawsPerNode * i, width as real, height as real)
      ensures old(Bounded()) ==> Bounded()
    {
      var ns := nodes;
      var i := 0;
      while i < |ns|
        invariant 0 <= i <= |ns| == |old(nodes)|
        invariant forall k :: 0 <= k < i ==>
                    ns[k] == RetargetNode(old(nodes)[k], rand, DrawsPerNode * k, width as real, height as real)
        invariant forall k :: i <= k < |ns| ==> ns[k] == old(nodes)[k]
      {
        ns := ns[i := RetargetNode(ns[i], rand, DrawsPerNode * i, width as real, height as real)];
        i := i + 1;
      }
      if old(Bounded()) {
        forall k | 0 <= k < |ns| ensures InField(ns[k], width as real, height as real) {
          assert old(nodes)[k] in old(nodes);
        }
      }
      nodes := ns;
    }

    /** One frame: each node in turn moves and then draws its lines; `edges` lists every line
        drawn, in drawing order. */
    method Animate(sqrt: real -> real) returns (edges: seq<Edge>)
      requires Valid()
      modifies this
      ensures Valid()
      ensures width == old(width) && height == old(height)
      ensures nodes == MovedUpTo(old(nodes), |old(nodes)|)
      ensures edges == FrameEdges(old(nodes), |old(nodes)|, sqrt)
      ensures old(Bounded()) ==> Bounded()
    {
      if Bounded() {
        MovedAllKeepsInField(nodes, width as real, height as real);
      }
      nodes, edges := FrameEach(nodes, sqrt);
    }

    /** The outer `forEach` of a frame over the array `ns0`, in index order. */
    static method FrameEach(ns0: seq<DriftNode>, sqrt: real -> real) returns (ns: seq<DriftNode>, edges: seq<Edge>)
      ensures ns == MovedUpTo(ns0, |ns0|)
      ensures edges == FrameEdges(ns0, |ns0|, sqrt)
    {
      ns := ns0;
      edges := [];
      var i := 0;
      MovedUpToZero(ns0);
      while i < |ns|
        invariant 0 <= i <= |ns| == |ns0|
        invariant ns == MovedUpTo(ns0, i)
        invariant edges == FrameEdges(ns0, i, sqrt)
      {
        var drawn;
        ns, drawn := FrameStep(ns0, ns, i, sqrt);
        FrameEdgesStep(ns0, i, sqrt);
        edges := edges + drawn;
        i := i + 1;
      }
    }

    /** The body of the outer `forEach` for node `i`: move it, then draw its lines. */
    static method FrameStep(ns0: seq<DriftNode>, ns: seq<DriftNode>, i: nat, sqrt: real -> real)
      returns (ns': seq<DriftNode>, drawn: seq<Edge>)
      requires i < |ns0| && ns == MovedUpTo(ns0, i)
      ensures ns' == MovedUpTo(ns0, i + 1)
      ensures drawn == DrawnBy(ns0, i, sqrt)
    {
      MovedUpToStep(ns0, i);
      var node := Approach(ns[i]);
      ns' := ns[i := node];
      drawn := DrawFrom(i, node, ns', sqrt);
    }

    /** The inner `forEach` for node `i`, now at `node`: a line to every other node closer
        than 150. */
    static method DrawFrom(i: nat, node: DriftNode, ns: seq<DriftNode>, sqrt: real -> real)
      returns (drawn: seq<Edge>)
      ensures drawn == EdgesFrom(i, node, ns, |ns|, sqrt)
    {
      drawn := [];
      var j := 0;
      while j < |ns|
        invariant 0 <= j <= |ns|
        invariant drawn == EdgesFrom(i, node, ns, j, sqrt)
      {
        EdgesFromStep(i, node, ns, j, sqrt);
        if i != j {
          var other := ns[j];
          var distance := sqrt(DistSq(node.x, node.y, other.x, other.y));
          if distance < MaxDistance {
            drawn := drawn + [Edge(i, j, Opacity(distance))];
          }
        }
        j := j + 1;
      }
    }
  }
}
