# Canvas animations of a portfolio site, modelled in Dafny

The site's backgrounds are canvas animations driven by small pieces of state that change every
frame. This project models that state and the rules that change it, and proves what those rules
promise. Drawing is not modelled.

- **Particle field.** Two copies run the same tick: the particle worker and the page's own
  fallback. Each tick a particle pushes its position onto a bounded trail, moves, and is
  pushed away from the pointer. It then bounces off the canvas edges, and its trail fades.
  The worker's message handler (`init`, `mousemove`, `animate`) guards the field. The page
  throttles pointer messages, and the fallback gates its steps to 60 per second.
- **Node graphs.**
  - Worker graph: nodes ease toward random targets and sizes. Each node rebuilds the list of
    higher-numbered nodes close enough to join.
  - On-page graph: fifty nodes drift toward targets redrawn every eight seconds. Each node
    draws a line to every other node closer than 150.
- **Project graph.** Seven project nodes sit on a circle. Two nodes are joined when their
  technology lists overlap. The last node under the pointer is hovered. Nodes bounce inside a
  padded band.
- **Small rules:**
  - the falling-code list (at most eight lines);
  - the scan line's position modulo 100;
  - the clamped parallax offsets and their scales;
  - the welcome dialog's twelve-hour rule.

Modules, one per source file:

| Module | Models |
|---|---|
| `Numeric` | Shared arithmetic: `Option`, `Clamp`, easing, squared distance, and the contracts of the square root and of the random stream. |
| `Particle` | The per-particle tick, shared by both particle paths. |
| `ParticlesWorker` | The particle worker. |
| `AIParticles` | The page side of the particle field. |
| `NeuralNetworkWorker` | The worker graph. |
| `NeuralNetwork` | The on-page graph. |
| `ProjectsNetwork` | The project graph. |
| `FloatingCode` | The falling-code list. |
| `HolographicOverlay` | The scan line. |
| `BackgroundLayers` | The parallax layers. |
| `WelcomeDialog` | The welcome dialog. |

State that the source keeps in module globals or closure variables becomes a class with those
fields, and event handlers become methods. Loops that update arrays in place become `while`
loops. Each loop is proved equal to a function over sequences, and the properties are proved
about that function. The falling-code list and the layer arithmetic are pure in the source, so
they are plain functions here.

Outside inputs are parameters with their documented ranges as preconditions:
- `Math.random` is a stream `rand: nat -> real` of values in [0, 1). Each constructor states
  which draws it reads.
- `Math.sqrt` is a function `sqrt` that returns the non-negative root.
- `Math.sin` and `Math.cos` are functions into [-1, 1].
- Clock readings, window sizes and the device class are method arguments.
- Coordinates are `real`.

## Model

| member | source | states |
|---|---|---|
| Numeric.Clamp | src/components/BackgroundLayers.tsx:14 | `Math.max(min, Math.min(max, v))` lies in [min, max] and is `v` itself when `v` is already in range. |
| Numeric.ClampIdempotent | src/components/BackgroundLayers.tsx:14 | Clamping a clamped value changes nothing. |
| Numeric.ClampNegate | src/components/BackgroundLayers.tsx:14-17 | Clamping to a symmetric range commutes with negation. |
| Numeric.Ease | src/workers/neuralNetworkWorker.ts:76-86 | `v + (target - v) * rate` leaves the fraction `1 - rate` of the gap to the target and lies between `v` and the target. |
| Numeric.EaseInside | src/workers/neuralNetworkWorker.ts:81-86 | Easing from inside an interval toward a target inside it stays inside it. |
| Numeric.Spread | src/workers/particlesWorker.ts:47-48 | `Math.random() * extent` lies in [0, extent], and in [0, extent) when the extent is positive. |
| Particle.ColorIndex | src/workers/particlesWorker.ts:53 | `Math.floor(Math.random() * colors.length)` is a valid index into the three colours. |
| Particle.NewParticle | src/workers/particlesWorker.ts:46-55 | A new particle lies on the canvas, with size in [1, 3), opacity in [0.2, 0.7), speeds in [-0.15, 0.15), a valid colour and an empty trail. |
| Particle.Population | src/workers/particlesWorker.ts:44-56 | `init` builds exactly `count` particles, all with empty trails and all on the canvas. |
| Particle.PopulationSnoc | src/workers/particlesWorker.ts:45-56 | Each loop iteration appends the next particle, built from the next seven draws. |
| Particle.PushTrail | src/workers/particlesWorker.ts:68-73 | The pre-move position, with opacity 0.8, becomes the newest trail point. The oldest point is dropped once the trail exceeds 5 (mobile) or 10, so a trail within the cap stays within it. |
| Particle.RepelAsWritten | src/workers/particlesWorker.ts:78-87 | The push as written yields NaN coordinates exactly when the particle sits on the pointer. |
| Particle.Repel | src/workers/particlesWorker.ts:78-87 | The guarded push changes only the position. It does nothing at squared distance 22500 or more, and nothing on the pointer. |
| Particle.RepelAgreesOffPointer | src/workers/particlesWorker.ts:78-87 | Off the pointer, the guarded push and the written push agree. |
| Particle.RepelPushesAway | src/workers/particlesWorker.ts:82-86 | Inside the radius, the offset from the pointer is scaled by `1 + 3(150 - d)/(150 d)` on both axes, so the particle moves straight away from the pointer. |
| Particle.RepelMovesFarther | src/workers/particlesWorker.ts:82-86 | Inside the radius, the push leaves the particle strictly farther from the pointer. |
| Particle.PointerOnParticleGivesNaN | src/workers/particlesWorker.ts:83-86 | On the pointer the written push gives NaN, while the guarded push leaves the particle in place. |
| Particle.Reflect | src/workers/particlesWorker.ts:89-96 | An axis that left [0, width] or [0, height] has its speed negated and its coordinate clamped to the edge it crossed: 0 below the range, the width or height above it. Other axes are untouched. The result lies on the canvas, and speed magnitudes are kept. |
| Particle.Decay | src/workers/particlesWorker.ts:115-118 | Every trail point keeps its place and position, and its opacity is multiplied by 0.95. |
| Particle.StepKeepsInvariants | src/workers/particlesWorker.ts:67-118 | After a tick the trail is within its cap, the particle is on the canvas, the newest trail point is the pre-move position at opacity 0.8 × 0.95, and only the signs of the speeds changed. |
| Particle.StepAllKeepsInvariants | src/workers/particlesWorker.ts:67-119 | The same holds for every particle of the field. |
| Particle.StepEach | src/workers/particlesWorker.ts:67-119 | The `forEach` over the field ticks each particle once, in order. |
| ParticlesWorker.ParticleCount | src/workers/particlesWorker.ts:41 | The population is 20 exactly when the mobile flag is true, and 50 otherwise. |
| ParticlesWorker.MobileFlag | src/workers/particlesWorker.ts:42 | `mobile \|\| false` is true exactly when the flag is true. |
| ParticlesWorker.ParticleWorker.constructor | src/workers/particlesWorker.ts:21-27 | The globals start empty: no surface, 50 particles planned, desktop, pointer at the origin. |
| ParticlesWorker.ParticleWorker.Init | src/workers/particlesWorker.ts:38-56 | `init` creates the surface and replaces the population with the 20 or 50 particles drawn from the stream. The pointer is left alone. |
| ParticlesWorker.ParticleWorker.Animate | src/workers/particlesWorker.ts:64-122 | `animate` ticks every particle against the stored pointer and keeps the field's invariant. |
| ParticlesWorker.ParticleWorker.HandleMessage | src/workers/particlesWorker.ts:35-124 | `init` acts only with both dimensions non-zero. `mousemove` acts only with both coordinates present, and changes only the pointer. `animate` acts only after a successful `init`, and a frame is posted exactly then. Every other message changes nothing. |
| AIParticles.ThrottleGap | src/components/AIParticles.tsx:52 | The throttle gap is 50 ms on mobile and 16 ms otherwise. |
| AIParticles.FallbackCount | src/components/AIParticles.tsx:103 | The fallback population is 30 on mobile and 80 otherwise. |
| AIParticles.WorkerHost.constructor | src/components/AIParticles.tsx:22-70 | Mounting posts `init` with the window size, then the first `animate`. |
| AIParticles.WorkerHost.OnResize | src/components/AIParticles.tsx:22-34 | Every resize re-posts `init` with the new size. |
| AIParticles.WorkerHost.OnMouseMove | src/components/AIParticles.tsx:48-60 | The pointer ref always follows the pointer. A message is posted, and the timestamp moved, exactly when more than the gap has passed since the last post, so forwarded messages are more than the gap apart. |
| AIParticles.WorkerHost.OnAnimationFrame | src/components/AIParticles.tsx:65-68 | Each display frame posts one `animate`. |
| AIParticles.WorkerHost.OnWorkerMessage | src/components/AIParticles.tsx:41-45 | Only `frame` replies are shown, and only when the bitmap renderer exists. |
| AIParticles.FallbackAnimation.constructor | src/components/AIParticles.tsx:83-120 | The fallback sizes the canvas and scatters 30 or 80 particles over it. |
| AIParticles.FallbackAnimation.OnResize | src/components/AIParticles.tsx:83-86 | A resize changes only the canvas size. |
| AIParticles.FallbackAnimation.OnMouseMove | src/components/AIParticles.tsx:122-125 | A pointer move changes only the pointer. |
| AIParticles.FallbackAnimation.Animate | src/components/AIParticles.tsx:129-192 | A step runs exactly when at least 1000/60 ms have passed since the last step, and only then does `lastTime` move. A step ticks every particle and keeps them on the canvas. The population size never changes. |
| NeuralNetworkWorker.NodeCount | src/workers/neuralNetworkWorker.ts:35 | The graph has 20 nodes on mobile and 50 otherwise. |
| NeuralNetworkWorker.MaxDistance | src/workers/neuralNetworkWorker.ts:36 | The join distance is 100 exactly when the graph has 20 nodes, and 150 otherwise. |
| NeuralNetworkWorker.MobileNoLarger | src/workers/neuralNetworkWorker.ts:35-36 | A mobile graph has no more nodes, and no longer joins, than any other. |
| NeuralNetworkWorker.NewNode | src/workers/neuralNetworkWorker.ts:41-54 | A new node sits on its own target at rest, with size in [1, 3), target size in [1, 4), phase in [0, 2π), no connections, and inside the field. |
| NeuralNetworkWorker.NodePopulation | src/workers/neuralNetworkWorker.ts:39-55 | `init` builds exactly `count` well-formed nodes inside the field. |
| NeuralNetworkWorker.NodePopulationSnoc | src/workers/neuralNetworkWorker.ts:40-55 | Each loop iteration appends the next node, built from the next five draws. |
| NeuralNetworkWorker.Advance | src/workers/neuralNetworkWorker.ts:76-89 | Per tick, the gap to the target becomes 0.995 of what it was. The velocity is the step taken. The size gap becomes 0.98 of what it was. The phase grows by exactly 0.02. |
| NeuralNetworkWorker.AdvanceKeepsBounds | src/workers/neuralNetworkWorker.ts:76-86 | A tick keeps sizes in [1, 4) and keeps a node that was inside the field inside it. |
| NeuralNetworkWorker.Near | src/workers/neuralNetworkWorker.ts:95-106 | The connection list holds exactly the indices in range within squared distance `maxDistance²`, in strictly increasing order. |
| NeuralNetworkWorker.NearReadsRange | src/workers/neuralNetworkWorker.ts:96-97 | The scan reads only the nodes after `i`. |
| NeuralNetworkWorker.ConnectionsIff | src/workers/neuralNetworkWorker.ts:74-106 | After a tick, `j` is a connection of `i` exactly when `i < j` and the pre-tick node `j` is within `maxDistance` of the moved node `i`. |
| NeuralNetworkWorker.NoSelfOrDoubleEdge | src/workers/neuralNetworkWorker.ts:95-106 | No node joins itself, and each unordered pair is listed at most once. |
| NeuralNetworkWorker.TickAllKeepsInvariants | src/workers/neuralNetworkWorker.ts:74-106 | A tick keeps every node well formed, and keeps nodes that were inside the field inside it. |
| NeuralNetworkWorker.RetargetNode | src/workers/neuralNetworkWorker.ts:59-63 | A retarget changes only the targets. They land inside the size the interval captured, and the target size lands in [1, 4). |
| NeuralNetworkWorker.RetargetAllKeepsInvariants | src/workers/neuralNetworkWorker.ts:58-64 | A retarget keeps every node well formed. With the current size it keeps every node inside the field. |
| NeuralNetworkWorker.Pulse | src/workers/neuralNetworkWorker.ts:90 | The pulse factor lies in [0.5, 1.5]. |
| NeuralNetworkWorker.Breathe | src/workers/neuralNetworkWorker.ts:91 | The breathe factor lies in [0.7, 1.3]. |
| NeuralNetworkWorker.Time | src/workers/neuralNetworkWorker.ts:71 | A missing timestamp is time zero. Otherwise time is the timestamp in seconds. |
| NeuralNetworkWorker.FinalSizeBounds | src/workers/neuralNetworkWorker.ts:92 | The drawn radius lies within [0.35, 1.95] times the size. |
| NeuralNetworkWorker.BaseOpacity | src/workers/neuralNetworkWorker.ts:113-116 | A connected pair's base opacity lies in (0, 0.7]. |
| NeuralNetworkWorker.SizeInfluence | src/workers/neuralNetworkWorker.ts:117 | For well-formed sizes, the size influence lies in [1/3, 4/3). |
| NeuralNetworkWorker.NetworkWorker.constructor | src/workers/neuralNetworkWorker.ts:22-27 | The globals start with no nodes, no surface, 50 nodes planned and distance 150. |
| NeuralNetworkWorker.NetworkWorker.Init | src/workers/neuralNetworkWorker.ts:32-65 | `init` creates the surface, sets count and distance, replaces the nodes, and starts one more retarget interval capturing this size. |
| NeuralNetworkWorker.NetworkWorker.Animate | src/workers/neuralNetworkWorker.ts:67-106 | `animate` ticks every node in place and keeps nodes inside the field. |
| NeuralNetworkWorker.NetworkWorker.TickEach | src/workers/neuralNetworkWorker.ts:74-106 | The `forEach` ticks node `i` while the later nodes still hold their pre-tick state. |
| NeuralNetworkWorker.NetworkWorker.TickOne | src/workers/neuralNetworkWorker.ts:76-106 | One iteration moves node `i`, then collects its connections. |
| NeuralNetworkWorker.NetworkWorker.Neighbours | src/workers/neuralNetworkWorker.ts:95-106 | The inner loop collects the close later nodes, in order. |
| NeuralNetworkWorker.NetworkWorker.Retarget | src/workers/neuralNetworkWorker.ts:58-64 | One firing of an interval retargets every node within the size that interval captured. |
| NeuralNetworkWorker.NetworkWorker.HandleMessage | src/workers/neuralNetworkWorker.ts:29-166 | `init` acts only with both dimensions non-zero. `animate` acts only after it, and posts a frame exactly then. Every other message changes nothing. |
| NeuralNetwork.NewNode | src/components/NeuralNetwork.tsx:36-45 | A new node sits at rest on its own target, inside the canvas. |
| NeuralNetwork.Population | src/components/NeuralNetwork.tsx:35-46 | Mounting builds the given number of nodes, all at rest and inside the canvas. |
| NeuralNetwork.PopulationSnoc | src/components/NeuralNetwork.tsx:35-46 | Each loop iteration appends the next node, built from the next two draws. |
| NeuralNetwork.Approach | src/components/NeuralNetwork.tsx:65-71 | Per frame, the gap to the target becomes 0.995 of what it was, and the velocity is the step taken. |
| NeuralNetwork.ApproachAtRest | src/components/NeuralNetwork.tsx:65-71 | A node on its target stays where it is. |
| NeuralNetwork.ApproachKeepsInField | src/components/NeuralNetwork.tsx:65-71 | A node inside the canvas stays inside it. |
| NeuralNetwork.MovedUpToStep | src/components/NeuralNetwork.tsx:63-71 | Moving node `k` extends the moved prefix of the array by one. |
| NeuralNetwork.MovedAllKeepsInField | src/components/NeuralNetwork.tsx:63-71 | A whole frame keeps every node inside the canvas. |
| NeuralNetwork.OpacityBounds | src/components/NeuralNetwork.tsx:91-92 | A drawn line's opacity `(1 - d/150) * 0.3` lies in (0, 0.3]. |
| NeuralNetwork.EdgesFromShape | src/components/NeuralNetwork.tsx:84-92 | Every line starts at `i`, ends at a node that `i` joins, and carries the opacity of its own distance. |
| NeuralNetwork.EdgesFromTargets | src/components/NeuralNetwork.tsx:84-91 | Node `i` draws to exactly the other nodes closer than 150. |
| NeuralNetwork.EdgesFromIncreasing | src/components/NeuralNetwork.tsx:84 | The lines come in increasing order of end node, so no node gets two lines from `i`. |
| NeuralNetwork.EdgesFromIff | src/components/NeuralNetwork.tsx:84-91 | With a true square root, `i` draws to `j` exactly when `j ≠ i` and their squared distance is below 150². |
| NeuralNetwork.EdgesFromOpacity | src/components/NeuralNetwork.tsx:89-92 | Every drawn line has opacity in (0, 0.3]. |
| NeuralNetwork.DrawnIff | src/components/NeuralNetwork.tsx:63-91 | In a frame, `i` draws to `j` exactly when the moved node `i` is within 150 of `j`. Node `j` counts as already moved if `j < i` and not yet moved if `j > i`. |
| NeuralNetwork.AtRestDrawnBothWays | src/components/NeuralNetwork.tsx:84-91 | When nothing moves, each close unordered pair is drawn twice, once from each end. |
| NeuralNetwork.PulseRadius | src/components/NeuralNetwork.tsx:74 | The pulsing radius lies in [1, 2]. |
| NeuralNetwork.RetargetNode | src/components/NeuralNetwork.tsx:50-53 | A retarget changes only the target, which lands inside the canvas as it is now. |
| NeuralNetwork.NetworkCanvas.constructor | src/components/NeuralNetwork.tsx:22-46 | Mounting sizes the canvas and places fifty nodes at rest inside it. |
| NeuralNetwork.NetworkCanvas.OnResize | src/components/NeuralNetwork.tsx:22-25 | A resize changes only the canvas size. |
| NeuralNetwork.NetworkCanvas.ChangeTargets | src/components/NeuralNetwork.tsx:49-54 | `changeTargets` retargets every node inside the current canvas, so nodes that were inside stay inside. |
| NeuralNetwork.NetworkCanvas.Animate | src/components/NeuralNetwork.tsx:58-102 | A frame moves every node and returns every line drawn, in order. It keeps nodes inside the canvas. |
| NeuralNetwork.NetworkCanvas.FrameEach | src/components/NeuralNetwork.tsx:63-102 | The outer `forEach` moves node `i`, then draws its lines, in index order. |
| NeuralNetwork.NetworkCanvas.FrameStep | src/components/NeuralNetwork.tsx:65-101 | One iteration moves node `i`, then draws from it. |
| NeuralNetwork.NetworkCanvas.DrawFrom | src/components/NeuralNetwork.tsx:84-101 | The inner `forEach` draws a line to every other node closer than 150. |
| ProjectsNetwork.NewNode | src/components/ProjectsNetwork.tsx:46-63 | Node `i` carries project `i`'s title, colour and technologies, with id `i` and radius 30. It starts inside the canvas with speeds in [-0.1, 0.1). |
| ProjectsNetwork.OnCircle | src/components/ProjectsNetwork.tsx:48-56 | A point on the circle of radius 0.3 × the smaller side lies inside the canvas. |
| ProjectsNetwork.BuildNodes | src/components/ProjectsNetwork.tsx:16-63 | Exactly seven nodes, in project order, with id = index, radius 30 and the project's technologies, all inside the canvas. |
| ProjectsNetwork.SharedTech | src/components/ProjectsNetwork.tsx:94-96 | The filter keeps exactly the tags of the first list that the second also has, and is the whole first list when all of them are shared. |
| ProjectsNetwork.SharedTechSnoc | src/components/ProjectsNetwork.tsx:94-96 | The filter keeps the first list's order. |
| ProjectsNetwork.SharedTechHead | src/components/ProjectsNetwork.tsx:94-117 | The first shared tag is the first tag of the first list that the second list has. |
| ProjectsNetwork.LinkedIff | src/components/ProjectsNetwork.tsx:94-98 | Two nodes are joined exactly when their lists have a tag in common, so joining is symmetric. |
| ProjectsNetwork.AllProjectsLinked | src/components/ProjectsNetwork.tsx:17-98 | With the shipped projects every pair is joined, and the label is always "Python". |
| ProjectsNetwork.LinkFor | src/components/ProjectsNetwork.tsx:92-118 | A line exists exactly when the pair shares a tag. Its strength is the shared count / 5. Its width is 3 when an end is hovered and 1.5 otherwise. It has a caption, the first shared tag, exactly when an end is hovered. |
| ProjectsNetwork.LinksFrom | src/components/ProjectsNetwork.tsx:91-92 | Node `i` draws lines only to nodes after it. |
| ProjectsNetwork.Links | src/components/ProjectsNetwork.tsx:90-121 | Only pairs `i < j` are drawn, so there are no self-pairs. |
| ProjectsNetwork.LinksFromIff | src/components/ProjectsNetwork.tsx:91-98 | Node `i` draws to a later `j` exactly when they share a tag. |
| ProjectsNetwork.LinksIff | src/components/ProjectsNetwork.tsx:90-98 | Over a frame, the pair `i < j` is drawn exactly when the nodes share a tag. |
| ProjectsNetwork.DrawRadius | src/components/ProjectsNetwork.tsx:134-135 | The hovered node is drawn at 1.3 × its radius and the others at their radius. |
| ProjectsNetwork.LastHover | src/components/ProjectsNetwork.tsx:72-80 | The hovered node is the highest-index node under the pointer, or none when no node is under it. |
| ProjectsNetwork.UnderPointerIff | src/components/ProjectsNetwork.tsx:74-75 | With a true square root, a node is under the pointer exactly when the squared distance is below its radius squared. |
| ProjectsNetwork.Float | src/components/ProjectsNetwork.tsx:126-132 | The node moves by its velocity. A component is negated whenever the coordinate is outside [50, dim − 50], magnitudes are kept, nothing is clamped, and the other fields are untouched. |
| ProjectsNetwork.FloatTurnsBack | src/components/ProjectsNetwork.tsx:131-132 | A node that crosses out of the band while heading out turns back. |
| ProjectsNetwork.ProjectsGraph.constructor | src/components/ProjectsNetwork.tsx:38-63 | Mounting sizes the canvas and builds the seven nodes, with no hover. |
| ProjectsNetwork.ProjectsGraph.OnMouseMove | src/components/ProjectsNetwork.tsx:65-81 | A pointer move records the pointer and hovers the last node under it, or none. |
| ProjectsNetwork.ProjectsGraph.FindHover | src/components/ProjectsNetwork.tsx:72-80 | The `forEach` with its `foundHover` flag yields the last node under the pointer, or none. |
| ProjectsNetwork.ProjectsGraph.Tick | src/components/ProjectsNetwork.tsx:124-132 | The motion part of a frame floats every node in place, in order. |
| FloatingCode.Text | src/components/FloatingCode.tsx:51 | A line shows one of the thirty snippets. |
| FloatingCode.SnippetIndex | src/components/FloatingCode.tsx:51 | The snippet draw selects a valid index. |
| FloatingCode.CreateCodeLine | src/components/FloatingCode.tsx:49-56 | A new line starts at y = −10, with speed in [0.05, 0.15), opacity in [0.2, 0.5) and x in [0, 100). |
| FloatingCode.Initial | src/components/FloatingCode.tsx:58 | The list starts with eight new lines at the top. |
| FloatingCode.Fall | src/components/FloatingCode.tsx:64-67 | A line moves down by its own speed, and nothing else changes. |
| FloatingCode.Survive | src/components/FloatingCode.tsx:63-68 | The survivors are exactly the fallen lines above 110, and there are no more of them than before. |
| FloatingCode.SurviveAppend | src/components/FloatingCode.tsx:68 | The filter keeps relative order. |
| FloatingCode.Tick | src/components/FloatingCode.tsx:61-76 | The survivors stay in front. One new line is appended exactly when fewer than eight survive and the draw exceeds 0.8. The list never exceeds eight. |
| FloatingCode.TickKeepsGood | src/components/FloatingCode.tsx:61-76 | A tick keeps every line within its creation ranges. |
| FloatingCode.TickSplit | src/components/FloatingCode.tsx:63-72 | After a tick, a kept prefix's survivors stay in front, followed only by fallen later lines or the new line. |
| FloatingCode.TicksSplit | src/components/FloatingCode.tsx:61-76 | After `n` ticks the list is the surviving old lines, in order, followed only by lines the ticks created. |
| FloatingCode.AgedStep | src/components/FloatingCode.tsx:64-72 | A line created by a tick falls once per later tick. |
| FloatingCode.FallsBound | src/components/FloatingCode.tsx:65-68 | After `k` ticks every surviving line has fallen at least 0.05·k. |
| FloatingCode.SurviveNone | src/components/FloatingCode.tsx:68 | Nothing survives a tick that takes every line to 110 or below. |
| FloatingCode.LinesLeave | src/components/FloatingCode.tsx:54-68 | Since speeds are positive, no line survives 2400 ticks, after which every line was created by a tick. |
| FloatingCode.TicksKeepInvariants | src/components/FloatingCode.tsx:58-76 | From the mounted list on, the list never holds more than eight lines, and every line stays well formed. |
| HolographicOverlay.Trunc | src/components/HolographicOverlay.tsx:11 | Truncation rounds toward zero. |
| HolographicOverlay.Rem100 | src/components/HolographicOverlay.tsx:11 | JavaScript's `% 100` keeps the dividend's sign and is the identity on [0, 100). |
| HolographicOverlay.Step | src/components/HolographicOverlay.tsx:11 | Each frame raises the position by 0.5, except that 99.5 wraps to 0, and the position stays in [0, 100). |
| HolographicOverlay.Position | src/components/HolographicOverlay.tsx:7-11 | The closed form of the position lies in [0, 100). |
| HolographicOverlay.StepPosition | src/components/HolographicOverlay.tsx:11 | One frame takes the closed form from `n` frames to `n + 1` frames. |
| HolographicOverlay.FramesPosition | src/components/HolographicOverlay.tsx:7-11 | Frame by frame, starting at 0, the position follows the closed form. |
| HolographicOverlay.FramesPeriodic | src/components/HolographicOverlay.tsx:7-11 | The position repeats every 200 frames and stays in [0, 100). |
| HolographicOverlay.ScanLine.constructor | src/components/HolographicOverlay.tsx:7 | The position starts at 0. |
| HolographicOverlay.ScanLine.Animate | src/components/HolographicOverlay.tsx:10-11 | Each frame applies one step and keeps the position in [0, 100). |
| BackgroundLayers.Scale | src/components/BackgroundLayers.tsx:20-22 | A scale is at least 1, and exactly 1 only for a zero offset. |
| BackgroundLayers.LayerFor | src/components/BackgroundLayers.tsx:14-22 | A layer's offset is the parallax clamped to ±bound, and its scale lies in [1, 1 + bound/divisor]. |
| BackgroundLayers.Background | src/components/BackgroundLayers.tsx:15-22 | The offsets are bounded by 80, 120 and 160. The scales lie in [1, 1.04], [1, 1.048] and [1, 1 + 160/3000]. |
| BackgroundLayers.BackgroundSymmetric | src/components/BackgroundLayers.tsx:15-22 | Negating the parallax mirrors every offset and keeps every scale. |
| BackgroundLayers.ScaleMonotone | src/components/BackgroundLayers.tsx:20-22 | A larger shift never gives a smaller scale. |
| BackgroundLayers.LayerStable | src/components/BackgroundLayers.tsx:14-17 | Feeding a layer its own offset gives the same layer. |
| WelcomeDialog.TrimStart | src/components/WelcomeDialog.tsx:22 | `parseInt` skips exactly the leading white space. |
| WelcomeDialog.DigitRun | src/components/WelcomeDialog.tsx:22 | `parseInt` reads exactly the longest prefix of digits. |
| WelcomeDialog.ToDecimal | src/components/WelcomeDialog.tsx:28 | `toString` of a timestamp is non-empty and starts with no white space. |
| WelcomeDialog.ValueDigits | src/components/WelcomeDialog.tsx:28 | Reading the decimal digits back gives the number. |
| WelcomeDialog.ParseToDecimal | src/components/WelcomeDialog.tsx:22-28 | `parseInt` undoes `toString`. |
| WelcomeDialog.ShouldOpen | src/components/WelcomeDialog.tsx:19-23 | An absent or empty entry opens the dialog, and an unparsable one never does. Otherwise the dialog opens exactly when more than twelve hours have passed. |
| WelcomeDialog.ReopenAfterClose | src/components/WelcomeDialog.tsx:13-28 | After a close at time `t`, a later mount opens the dialog exactly when more than 43,200,000 ms have passed. Exactly twelve hours does not reopen it. |
| WelcomeDialog.GetItem | src/components/WelcomeDialog.tsx:19 | `getItem` gives null exactly for a missing key. |
| WelcomeDialog.Dialog.constructor | src/components/WelcomeDialog.tsx:16 | The dialog starts closed. |
| WelcomeDialog.Dialog.OnMount | src/components/WelcomeDialog.tsx:18-25 | Mounting opens the dialog exactly when the test passes. Storage is only read. |
| WelcomeDialog.Dialog.HandleClose | src/components/WelcomeDialog.tsx:27-30 | Closing stores the current time and closes the dialog. Any mount within twelve hours keeps it closed, and any later mount opens it. |

## Left out

- Canvas drawing is not modelled: arcs, gradients, text, colour strings, clearing, bitmaps and shadows have no effect on state. The per-frame pulse, breathe, opacity and width values that only feed drawing are modelled as functions with their ranges, not as drawn output.
- The worker message channel, `OffscreenCanvas`, `requestAnimationFrame`, `setInterval` and DOM listeners are not modelled. A frame, a timer firing or an event is a method call; a message is a method argument.
- `getContext` is assumed to succeed. The offscreen surface and its 2-D context are one `Option<Canvas>`.
- `Math.random`, `Math.sqrt`, `Math.sin`, `Math.cos` and `Date.now` are parameters constrained only by their documented ranges. No particular generator or clock is assumed.
- Floating point is idealised as real arithmetic. Rounding, overflow to infinity and NaN are not modelled, except for the zero-distance NaN under "## Findings".
- WelcomeDialog.ParseInt: timestamps are exact integers, so `parseInt` precision above 2^53 and `toString`'s exponent form above 10^21 are not modelled. Its behaviour is stated through ShouldOpen and ParseToDecimal rather than an ensures of its own.
- `useIsMobile` and `useParallax` are inputs: the device class and the three parallax offsets.
- AIParticles.WorkerHost and AIParticles.FallbackAnimation: the device class is fixed for a mount. The effect at `AIParticles.tsx:204` depends on `isMobile`, so a device-class change ends the worker or the fallback loop and starts a new one. The model treats that as a fresh mount: a new `WorkerHost` or `FallbackAnimation` with the new flag.
- FloatingCode.CreateCodeLine: a line stores the index of its snippet, not the text. `Text` recovers the text, and `id` is the raw draw as in the source.
- FloatingCode.Ticks: each tick is given its own block of six draws, one for the append test and five for the new line. In the source, a tick that appends nothing consumes one draw, and none at all when eight lines survive. Only the draws' ranges matter to the properties proved.
- The worker graph's `timestamp` feeds only the breathe factor of the drawing. `Time` is modelled, but it does not enter the state.
- Leaks are recorded but no property is proved about them:
  - `neuralNetworkWorker.ts:58-64` starts a new, never-cleared interval on every `init`. Each one retargets the shared nodes inside the size it captured, so after a resize nodes can be sent outside the new canvas. `NetworkWorker.timers` records the captured sizes. `Retarget` promises to keep nodes inside the canvas only for an interval whose size is the current one.
  - `ProjectsNetwork.tsx:173, 182` rebuilds the nodes and starts another never-cancelled loop on every hover change. The model keeps one graph and one loop.
  - `AIParticles.tsx:194, 199-202` and `NeuralNetwork.tsx:104, 109-112` never cancel their animation frames.
- Particle.Step, Particle.StepKeepsInvariants, Particle.StepAllKeepsInvariants, ParticlesWorker.ParticleWorker.Animate and AIParticles.FallbackAnimation.Animate use the guarded push described under "## Findings". As written, a particle that lands exactly on the pointer gets NaN coordinates and leaves the canvas for good, so the on-canvas invariant these members prove holds only for the corrected push.
- `AIParticles.FallbackAnimation.Animate` takes a clock reading per call. The first call, `animate(0)`, is an ordinary call with time 0: with `lastTime` at 0 it runs no step.

## Findings

| source | as written | input that shows it | evidently intended | confidence | as-written member | corrected member |
|---|---|---|---|---|---|---|
| src/workers/particlesWorker.ts:82-86 (and src/components/AIParticles.tsx:154-158) | Inside the radius the push divides `dx` and `dy` by `distance` without checking for zero. | A particle whose moved position equals the pointer, e.g. at (100, 100) with the pointer at (100, 100): `0 / 0` makes both coordinates NaN, and the particle never returns to the canvas. | A particle exactly on the pointer has no direction to be pushed in and is left where it is. | not executed | Particle.RepelAsWritten (with Particle.PointerOnParticleGivesNaN) | Particle.Repel (with Particle.RepelAgreesOffPointer and Particle.RepelMovesFarther) |
