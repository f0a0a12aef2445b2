/** The project graph (src/components/ProjectsNetwork.tsx): seven project nodes placed on a
    circle, joined when their technology lists overlap, drifting and bouncing inside a padded
    band, with the node under the pointer highlighted. */
module ProjectsNetwork {
  import opened Numeric

  datatype Project = Project(title: string, technologies: seq<string>, color: string)

  const Projects: seq<Project> := [
    Project("TerraDefender", ["Python", "TensorFlow", "Keras", "OpenCV"], "hsl(200, 95%, 55%)"),
    Project("Analyst System", ["Python", "Scikit-learn", "Pandas", "Flask"], "hsl(270, 60%, 60%)"),
    Project("Animoji", ["Python", "OpenCV", "MediaPipe"], "hsl(280, 70%, 65%)"),
    Project("WraithCast", ["Python", "Computer Vision"], "hsl(200, 95%, 55%)"),
    Project("RAG Project", ["Python", "NLP", "LLMs"], "hsl(270, 60%, 60%)"),
    Project("Mental Health Bot", ["Python", "NLP"], "hsl(280, 70%, 65%)"),
    Project("Speech to Text", ["Python", "PyQt5"], "hsl(200, 95%, 55%)")
  ]

  const NodeRadius: real := 30.0
  const Padding: real := 50.0
  const HoverScale: real := 1.3

  datatype ProjectNode = ProjectNode(
    id: nat, title: string,
    x: real, y: real,
    vx: real, vy: real,
    radius: real,
    color: string,
    technologies: seq<string>
  )

  /** `f` behaves like `Math.sin` or `Math.cos` as far as its range goes. */
  ghost predicate IsUnitWave(f: real -> real)
  {
    forall a: real :: -1.0 <= f(a) <= 1.0
  }

  /** `(i / projects.length) * Math.PI * 2`. */
  function Angle(i: nat): real
  {
    (i as real / |Projects| as real) * Pi * 2.0
  }

  /** Node `i` of the initial layout, built from project `i` and the draws `rand(2i)` (x
      speed) and `rand(2i + 1)` (y speed). */
  function NewNode(i: nat, width: real, height: real, cos: real -> real, sin: real -> real,
                   rand: nat -> real): (n: ProjectNode)
    requires i < |Projects|
    requires IsUnitWave(cos) && IsUnitWave(sin) && IsUnitStream(rand)
    requires 0.0 <= width && 0.0 <= height
    ensures n.id == i && n.radius == NodeRadius
    ensures n.title == Projects[i].title && n.technologies == Projects[i].technologies
    ensures n.color == Projects[i].color
    ensures 0.0 <= n.x <= width && 0.0 <= n.y <= height
    ensures -0.1 <= n.vx < 0.1 && -0.1 <= n.vy < 0.1
  {
    var radius := (if width < height then width else height) * 0.3;
    OnCircle(width / 2.0, radius, cos(Angle(i)), width);
    OnCircle(height / 2.0, radius, sin(Angle(i)), height);
    ProjectNode(i, Projects[i].title,
                width / 2.0 + cos(Angle(i)) * radius, height / 2.0 + sin(Angle(i)) * radius,
                (rand(2 * i) - 0.5) * 0.2, (rand(2 * i + 1) - 0.5) * 0.2,
                NodeRadius, Projects[i].color, Projects[i].technologies)
  }

  /** A point `center + c * radius` of a circle whose radius is at most 0.3 of the extent,
      centred in it, lies inside the extent. */
  lemma OnCircle(center: real, radius: real, c: real, extent: real)
    requires 0.0 <= extent && center == extent / 2.0
    requires 0.0 <= radius <= extent * 0.3 && -1.0 <= c <= 1.0
    ensures 0.0 <= center + c * radius <= extent
  {
    ScaleWithin(radius, c, -1.0, 1.0);
    assert -radius <= c * radius <= radius;
  }

  /** The `projects.map` that builds the graph: one node per project, in order. */
  function BuildNodes(width: real, height: real, cos: real -> real, sin: real -> real,
                      rand: nat -> real): (ns: seq<ProjectNode>)
    requires IsUnitWave(cos) && IsUnitWave(sin) && IsUnitStream(rand)
    requires 0.0 <= width && 0.0 <= height
    ensures |ns| == |Projects| == 7
    ensures forall i :: 0 <= i < |ns| ==> ns[i].id == i && ns[i].radius == NodeRadius
    ensures forall i :: 0 <= i < |ns| ==>
              ns[i].title == Projects[i].title && ns[i].technologies == Projects[i].technologies
    ensures forall n <- ns :: 0.0 <= n.x <= width && 0.0 <= n.y <= height
  {
    seq(|Projects|, i requires 0 <= i < |Projects| => NewNode(i, width, height, cos, sin, rand))
  }

  /** `node.technologies.filter(tech => otherNode.technologies.includes(tech))`. */
  function SharedTech(a: seq<string>, b: seq<string>): (r: seq<string>)
    ensures forall t :: t in r <==> t in a && t in b
    ensures |r| <= |a|
    ensures (forall t <- a :: t in b) ==> r == a
  {
    if a == [] then []
    else if a[0] in b then [a[0]] + SharedTech(a[1..], b)
    else SharedTech(a[1..], b)
  }

  /** The first entry of the shared list is the first entry of `a` that `b` also lists. */
  lemma {:induction false} SharedTechHead(a: seq<string>, b: seq<string>, k: nat)
    requires k < |a| && a[k] in b && forall m :: 0 <= m < k ==> a[m] !in b
    ensures |SharedTech(a, b)| > 0 && SharedTech(a, b)[0] == a[k]
  {
    if k > 0 {
      SharedTechHead(a[1..], b, k - 1);
    }
  }

  /** Two technology lists are joined exactly when they have a technology in common, so the
      relation is symmetric. */
  lemma LinkedIff(a: seq<string>, b: seq<string>)
    ensures |SharedTech(a, b)| > 0 <==> exists t :: t in a && t in b
    ensures |SharedTech(a, b)| > 0 <==> |SharedTech(b, a)| > 0
  {
    if |SharedTech(a, b)| > 0 {
      assert SharedTech(a, b)[0] in SharedTech(a, b);
    }
    if |SharedTech(b, a)| > 0 {
      assert SharedTech(b, a)[0] in SharedTech(b, a);
    }
  }

  /** With the shipped project list every project lists Python first, so every pair of nodes
      is joined and the label on every edge is "Python". */
  lemma AllProjectsLinked(i: nat, j: nat)
    requires i < |Projects| && j < |Projects|
    ensures |SharedTech(Projects[i].technologies, Projects[j].technologies)| > 0
    ensures SharedTech(Projects[i].technologies, Projects[j].technologies)[0] == "Python"
  {
    assert Projects[i].technologies[0] == "Python";
    assert "Python" in Projects[j].technologies;
    SharedTechHead(Projects[i].technologies, Projects[j].technologies, 0);
  }

  /** A line drawn between nodes `from < to`: its opacity factor, its width, and the label
      shown at its midpoint, if any. */
  datatype Link = Link(from: nat, to: nat, strength: real, width: real, caption: Option<string>)

  /** `sharedTech.length / 5`, the factor by which the stroke alpha 0.4 is scaled. */
  function Strength(shared: seq<string>): real
  {
    |shared| as real / 5.0
  }

  /** The line for the pair `i < j`, if they share a technology. The line is thicker and
      labelled with the first shared technology when either end is hovered. */
  function LinkFor(ns: seq<ProjectNode>, i: nat, j: nat, hovered: Option<nat>): (l: Option<Link>)
    requires i < j < |ns|
    ensures l.Some? <==> |SharedTech(ns[i].technologies, ns[j].technologies)| > 0
    ensures l.Some? ==> l.value.from == i && l.value.to == j
    ensures l.Some? ==> l.value.strength * 5.0 == |SharedTech(ns[i].technologies, ns[j].technologies)| as real
    ensures l.Some? ==> l.value.width == (if hovered == Some(i) || hovered == Some(j) then 3.0 else 1.5)
    ensures l.Some? ==> (l.value.caption.Some? <==> hovered == Some(i) || hovered == Some(j))
    ensures l.Some? && l.value.caption.Some? ==>
              l.value.caption.value == SharedTech(ns[i].technologies, ns[j].technologies)[0]
  {
    var shared := SharedTech(ns[i].technologies, ns[j].technologies);
    if |shared| > 0 then
      var isHovered := hovered == Some(i) || hovered == Some(j);
      Some(Link(i, j, Strength(shared), if isHovered then 3.0 else 1.5,
                if isHovered then Some(shared[0]) else None))
    else None
  }

  /** The lines drawn for node `i` against nodes `j` in `(i, hi)`, in order. */
  function LinksFrom(ns: seq<ProjectNode>, i: nat, hi: nat, hovered: Option<nat>): (ls: seq<Link>)
    requires hi <= |ns|
    ensures forall l <- ls :: l.from == i && i < l.to < hi
    decreases hi
  {
    if hi <= i + 1 then []
    else
      var rest := LinksFrom(ns, i, hi - 1, hovered);
      var l := LinkFor(ns, i, hi - 1, hovered);
      if l.Some? then rest + [l.value] else rest
  }

  /** All lines of a frame, in drawing order: only pairs `i < j` are considered, so no node is
      linked to itself and each pair is drawn at most once. */
  function Links(ns: seq<ProjectNode>, k: nat, hovered: Option<nat>): (ls: seq<Link>)
    requires k <= |ns|
    ensures forall l <- ls :: l.from < l.to < |ns| && l.from < k
  {
    if k == 0 then [] else Links(ns, k - 1, hovered) + LinksFrom(ns, k - 1, |ns|, hovered)
  }

  /** The pair `i < j` is drawn exactly when the two nodes share a technology. */
  lemma {:induction false} LinksFromIff(ns: seq<ProjectNode>, i: nat, hi: nat, hovered: Option<nat>, j: nat)
    requires hi <= |ns| && i < j < hi
    ensures (exists l <- LinksFrom(ns, i, hi, hovered) :: l.to == j) <==>
            |SharedTech(ns[i].technologies, ns[j].technologies)| > 0
    decreases hi
  {
    var ls := LinksFrom(ns, i, hi, hovered);
    var rest := LinksFrom(ns, i, hi - 1, hovered);
    var l := LinkFor(ns, i, hi - 1, hovered);
    if j < hi - 1 {
      LinksFromIff(ns, i, hi - 1, hovered, j);
      if exists m <- ls :: m.to == j {
        var m :| m in ls && m.to == j;
        assert m in rest;
      }
      if exists m <- rest :: m.to == j {
        var m :| m in rest && m.to == j;
        assert m in ls;
      }
    } else {
      if l.Some? {
        assert ls[|ls| - 1] == l.value;
      } else {
        assert forall m <- ls :: m.to < hi - 1;
      }
    }
  }

  /** Over a whole frame, the pair `i < j` is drawn exactly when the two nodes share a
      technology. */
  lemma {:induction false} LinksIff(ns: seq<ProjectNode>, k: nat, hovered: Option<nat>, i: nat, j: nat)
    requires k <= |ns| && i < k && i < j < |ns|
    ensures (exists l <- Links(ns, k, hovered) :: l.from == i && l.to == j) <==>
            |SharedTech(ns[i].technologies, ns[j].technologies)| > 0
  {
    var before := Links(ns, k - 1, hovered);
    var last := LinksFrom(ns, k - 1, |ns|, hovered);
    assert Links(ns, k, hovered) == before + last;
    if i == k - 1 {
      LinksFromIff(ns, i, |ns|, hovered, j);
      assert forall l <- before :: l.from != i;
      if exists l <- last :: l.to == j {
        var l :| l in last && l.to == j;
        assert l in Links(ns, k, hovered) && l.from == i;
      }
    } else {
      LinksIff(ns, k - 1, hovered, i, j);
      assert forall l <- last :: l.from != i;
      if exists l <- before :: l.from == i && l.to == j {
        var l :| l in before && l.from == i && l.to == j;
        assert l in Links(ns, k, hovered);
      }
    }
  }

  /** The filter keeps `a`'s order: filtering `a` followed by one more tag is filtering `a`,
      followed by that tag when `b` lists it. */
  lemma {:induction false} SharedTechSnoc(a: seq<string>, t: string, b: seq<string>)
    ensures SharedTech(a + [t], b) == SharedTech(a, b) + (if t in b then [t] else [])
  {
    if a == [] {
      assert a + [t] == [t];
    } else {
      assert (a + [t])[1..] == a[1..] + [t];
      SharedTechSnoc(a[1..], t, b);
    }
  }

  /** `hoveredNode === node.id ? node.radius * 1.3 : node.radius`. */
  function DrawRadius(n: ProjectNode, hovered: Option<nat>): (r: real)
    ensures hovered == Some(n.id) ==> r == n.radius * HoverScale
    ensures hovered != Some(n.id) ==> r == n.radius
  {
    if hovered == Some(n.id) then n.radius * HoverScale else n.radius
  }

  /** Whether the pointer is strictly inside node `n`'s circle, decided as the source does,
      through the square root of the squared distance. */
  predicate UnderPointer(n: ProjectNode, x: real, y: real, sqrt: real -> real)
  {
    sqrt(DistSq(x, y, n.x, n.y)) < n.radius
  }

  /** The id of the highest-indexed node among the first `k` under the pointer, if any. */
  function LastHover(ns: seq<ProjectNode>, k: nat, x: real, y: real, sqrt: real -> real): (h: Option<nat>)
    requires k <= |ns|
    ensures h.None? <==> forall m :: 0 <= m < k ==> !UnderPointer(ns[m], x, y, sqrt)
    ensures h.Some? ==> exists m :: 0 <= m < k && UnderPointer(ns[m], x, y, sqrt) && ns[m].id == h.value &&
                          forall m' :: m < m' < k ==> !UnderPointer(ns[m'], x, y, sqrt)
  {
    if k == 0 then None
    else if UnderPointer(ns[k - 1], x, y, sqrt) then Some(ns[k - 1].id)
    else LastHover(ns, k - 1, x, y, sqrt)
  }

  /** With a real square root, "under the pointer" is "squared distance below radius squared". */
  lemma UnderPointerIff(n: ProjectNode, x: real, y: real, sqrt: real -> real)
    requires IsSqrt(sqrt) && 0.0 <= n.radius
    ensures UnderPointer(n, x, y, sqrt) <==> DistSq(x, y, n.x, n.y) < n.radius * n.radius
  {
    SqrtBelow(sqrt, DistSq(x, y, n.x, n.y), n.radius);
  }

  /** One frame of motion for one node: add the velocity, then reverse each component whose
      coordinate is outside the padded band. Nothing is clamped. */
  function Float(n: ProjectNode, width: real, height: real): (r: ProjectNode)
    ensures r == n.(x := r.x, y := r.y, vx := r.vx, vy := r.vy)
    ensures r.x == n.x + n.vx && r.y == n.y + n.vy
    ensures Abs(r.vx) == Abs(n.vx) && Abs(r.vy) == Abs(n.vy)
    ensures r.vx == (if r.x < Padding || r.x > width - Padding then -n.vx else n.vx)
    ensures r.vy == (if r.y < Padding || r.y > height - Padding then -n.vy else n.vy)
  {
    var x := n.x + n.vx;
    var y := n.y + n.vy;
    n.(x := x, y := y,
       vx := if x < Padding || x > width - Padding then -n.vx else n.vx,
       vy := if y < Padding || y > height - Padding then -n.vy else n.vy)
  }

  /** A node that crossed below the band while moving toward it heads back up, and one that
      crossed above it heads back down. */
  lemma FloatTurnsBack(n: ProjectNode, width: real, height: real)
    ensures var r := Float(n, width, height);
      && (r.x < Padding && n.vx < 0.0 ==> r.vx > 0.0)
      && (r.x > width - Padding && n.vx > 0.0 ==> r.vx < 0.0)
      && (r.y < Padding && n.vy < 0.0 ==> r.vy > 0.0)
      && (r.y > height - Padding && n.vy > 0.0 ==> r.vy < 0.0)
  {
  }

  class ProjectsGraph {
    var width: nat
    var height: nat
    var nodes: seq<ProjectNode>
    var hovered: Option<nat>
    var mouseX: real
    var mouseY: real

    /** Seven nodes, node `i` with id `i`, radius 30 and the technologies of project `i`. */
    ghost predicate Valid()
      reads this
    {
      && |nodes| == |Projects|
      && forall i :: 0 <= i < |nodes| ==>
           nodes[i].id == i && nodes[i].radius == NodeRadius &&
           nodes[i].technologies == Projects[i].technologies
    }

    /** Mounting: size the canvas and lay the projects out on a circle around its centre. */
    constructor (canvasWidth: nat, canvasHeight: nat, cos: real -> real, sin: real -> real, rand: nat -> real)
      requires IsUnitWave(cos) && IsUnitWave(sin) && IsUnitStream(rand)
      ensures Valid()
      ensures width == canvasWidth && height == canvasHeight
      ensures nodes == BuildNodes(canvasWidth as real, canvasHeight as real, cos, sin, rand)
      ensures hovered == None && mouseX == 0.0 && mouseY == 0.0
    {
      width := canvasWidth;
      height := canvasHeight;
      nodes := BuildNodes(canvasWidth as real, canvasHeight as real, cos, sin, rand);
      hovered := None;
      mouseX := 0.0;
      mouseY := 0.0;
    }

    /** `handleMouseMove`: record the pointer and hover the last node under it, or none. */
    method OnMouseMove(x: real, y: real, sqrt: real -> real)
      requires Valid()
      modifies this
      ensures Valid()
      ensures mouseX == x && mouseY == y
      ensures hovered == LastHover(nodes, |nodes|, x, y, sqrt)
      ensures nodes == old(nodes) && width == old(width) && height == old(height)
    {
      mouseX := x;
      mouseY := y;
      hovered := FindHover(nodes, x, y, sqrt);
    }

    /** The `forEach` with its `foundHover` flag: every node under the pointer overwrites the
        hovered id, so the last one wins. */
    static method FindHover(ns: seq<ProjectNode>, x: real, y: real, sqrt: real -> real) returns (h: Option<nat>)
      ensures h == LastHover(ns, |ns|, x, y, sqrt)
    {
      var found := false;
      h := None;
      var i := 0;
      while i < |ns|
        invariant 0 <= i <= |ns|
        invariant h == LastHover(ns, i, x, y, sqrt)
        invariant found <==> h.Some?
      {
        var distance := sqrt(DistSq(x, y, ns[i].x, ns[i].y));
        if distance < ns[i].radius {
          h := Some(ns[i].id);
          found := true;
        }
        i := i + 1;
      }
      if !found {
        h := None;
      }
    }

    /** The motion part of a frame: every node floats and bounces, in order. */
    method Tick()
      requires Valid()
      modifies this
      ensures Valid()
      ensures |nodes| == |old(nodes)|
      ensures forall i :: 0 <= i < |nodes| ==> nodes[i] == Float(old(nodes)[i], width as real, height as real)
      ensures width == old(width) && height == old(height) && hovered == old(hovered)
      ensures mouseX == old(mouseX) && mouseY == old(mouseY)
    {
      var ns := nodes;
      var w := width as real;
      var h := height as real;
      var i := 0;
      while i < |ns|
        invariant 0 <= i <= |ns| == |old(nodes)|
        invariant forall k :: 0 <= k < i ==> ns[k] == Float(old(nodes)[k], w, h)
        invariant forall k :: i <= k < |ns| ==> ns[k] == old(nodes)[k]
      {
        ns := ns[i := Float(ns[i], w, h)];
        i := i + 1;
      }
      nodes := ns;
    }
  }
}
