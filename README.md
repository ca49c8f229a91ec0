# antpalace trail pipeline, in Dafny

This project models the trail pipeline of antpalace. antpalace is a browser
page that plays a live video of an ant colony. It draws, over the video,
the trails of the ants that a detection feed reports.

The pipeline has four parts:

- **Mask update.** Each batch of detections `(x, y)` is written into a
  row-major float mask. There are two policies:
  - app.js keeps a persistent mask. It is bounds-checked and never cleared.
  - modules/simulationManager.js clears the mask for every batch and
    writes it without a bounds check.
- **Ping-pong accumulation.** The shader `simFrag` computes
  `max(previous, mask)` per texel. It writes the result into the
  non-leading one of two render targets, and the `ping` bit flips.
- **Trail shading.** The shader `trailFrag` computes a density: the mean of
  the eight neighbouring texels, clamped to [0, 1]. In heat mode a texel
  gets the colour map at its density; in flat mode it is black. Its alpha
  is the state value.
- **Letterbox scale.** The video plane and the trail quad get scale factors
  that fit the video into the window without distorting it.

Modules:

- `Viewport` (viewport.dfy): the letterbox rule, and what a letterbox scale
  is, independently of how it is computed.
- `Mask` (mask.dfy): detections, Float32Array stores, and both marking
  policies as functions on `seq<real>`.
- `PingPong` (pingpong.dfy): the resources that `initPingPong` allocates
  (a class), textures with an explicit edge mode, and the two shaders as
  pure per-texel functions.
- `Simulation` (simulation.dfy):
  - the `SimulationManager` class, with its two target arrays, the mask
    array and `ping`;
  - the accumulation over a history of batches;
  - `handleData` as the code stands, a value model used for the finding
    below.
- `App` (app.dfy): the page state of app.js as a class, with the
  marking loop over the mask array and `onResize`.
- `Renderer` (renderer.dfy): `RendererManager` and its resize.

### Modelling choices

- **Sizes.** The pixel ratio `pr` is a natural number. The mask and the
  targets hold `(width*pr) * (height*pr)` floats.
- **Row stride.** The code strides rows by the logical `width`, while the
  mask texture is `width*pr` texels wide. At `pr = 1` a detection lands on
  texel `(x, y)` (`App.DetectionTexelAtUnitRatio`). At `pr = 2` it does
  not (`App.DetectionTexelAtRatioTwo`). Either way the index stays inside
  the buffer.
- **Typed-array stores.** A store into a Float32Array outside its bounds
  does nothing (`Mask.Store`). So the unchecked loop of `handleData` needs
  no precondition: a stray detection is either dropped or lands on another
  cell (`Mask.UncheckedColumnWrapsToNextRow`).
- **Edge sampling.** The shaders leave edge sampling to the GPU's wrap
  mode. The model makes it a parameter, `EdgeMode`: `ClampToEdge`, the
  Three.js default, or `Repeat`. The two give different densities at the
  edges (`PingPong.ClampedCornerSeesCentre`).
- **Colour map.** The colour map is an arbitrary function parameter
  `cmap: real -> Rgb`.
- **Letterbox value.** The letterbox rule follows the code: a 16:9 video in
  a 4:3 window gets `(1, 0.75)` (`Viewport.LetterboxScaleExamples`).
- **Division by zero.** Zero dimensions are excluded by preconditions on
  the resize methods. The code does not guard those divisions.

## Model

| member | source | states |
|---|---|---|
| Viewport.LetterboxScale | app.js:128-133 | The result is a letterbox scale: both factors in (0, 1], one of them exactly 1, and `sa*sx == va*sy` (the video's aspect ratio is kept). A window wider than the video gives `sy = 1, sx < 1`; otherwise `sx = 1`. |
| Viewport.LetterboxScaleUnique | app.js:128-133 | Any scale satisfying the letterbox conditions is the one the rule computes. |
| Viewport.LetterboxScaleExamples | app.js:128-133 | A square video in a 2:1 window gets (0.5, 1); a 16:9 video in a 4:3 window gets (1, 0.75). |
| Mask.IndexInjective | app.js:190-191 | Two detections whose columns lie in [0, width) and that share a cell index are the same point. |
| Mask.IndexBelowArea | app.js:190-191 | An in-bounds detection's index `y*width+x` lies in [0, width*height). |
| Mask.Zeros | modules/pingpong.js:27 | A fresh Float32Array of n cells: length n, every cell 0. |
| Mask.Store | modules/simulationManager.js:17 | A typed-array store: the length is unchanged, the cell at the index becomes v if it exists, and every other cell keeps its value. An index out of range changes nothing. |
| Mask.ApplyDetections | app.js:187-193 | After the marking loop, a cell is 1.0 exactly when an in-bounds detection of the batch names it; every other cell keeps its old value, so nothing is cleared. |
| Mask.OutOfRangeWritesNothing | app.js:190 | A detection with x or y outside the grid leaves the mask as it was. |
| Mask.Coalescing | app.js:186-195 | Two batches marked one after the other give the mask of their concatenation: no batch is lost between uploads. |
| Mask.ApplyDetectionsIdempotent | app.js:187-193 | Marking the same batch twice gives the mask of marking it once. |
| Mask.FillMask | modules/simulationManager.js:15-18 | After `fill(0)` and the unchecked loop, a cell is 1.0 exactly when some detection of this batch has index i, and 0.0 otherwise. |
| Mask.UncheckedColumnWrapsToNextRow | modules/simulationManager.js:16-18 | A detection at column `width`, which the grid does not contain, marks the first cell of the next row. |
| PingPong.MaskSize | modules/pingpong.js:26-28 | The buffer length is `(width*pr)*(height*pr)`, which is at least `width*height` whenever pr >= 1. |
| PingPong.EdgeCoord | modules/pingpong.js:78-85 | The texel a sample coordinate resolves to lies on the axis and is the coordinate itself inside it. Under ClampToEdge it is the nearest edge texel; under Repeat it wraps around by one axis length. |
| PingPong.TextureOf | modules/pingpong.js:26-29 | Uploading a buffer of w*h floats gives a well-formed w x h texture. |
| PingPong.TextureOfAt | modules/pingpong.js:26-29 | Texel (x, y) of the uploaded texture is buffer cell `y*w+x`. |
| PingPong.SimPixel | modules/pingpong.js:55-57 | The output texel is at least the previous value, at least the mask value, and equals one of them: `max(a, m)`. |
| PingPong.MaxStep | modules/pingpong.js:53-58 | The whole pass: the same length, and every texel is at least both inputs and equal to one of them. |
| PingPong.Clamp01 | modules/pingpong.js:86 | GLSL `clamp(v, 0, 1)`: the result lies in [0, 1]; v inside the range is kept, and v below or above it maps to the bound. |
| PingPong.Density | modules/pingpong.js:75-87 | The density lies in [0, 1], and when the sum of the 8 neighbours lies in [0, 8] it is exactly that sum divided by 8. |
| PingPong.TrailPixel | modules/pingpong.js:88-97 | The alpha is the raw state value. In heat mode the colour is `cmap(density)`; in flat mode it is black. |
| PingPong.DensityIgnoresCentre | modules/pingpong.js:76-85 | The centre texel is not one of the samples: changing it leaves the density unchanged whenever no one-texel step resolves back onto it. |
| PingPong.ClampedCornerSeesCentre | modules/pingpong.js:78-86 | Edge handling matters. A lone hit in a corner of a 2x2 texture has density 3/8 under clamp-to-edge, because three samples fall back onto the centre, and 0 under wrapping. |
| PingPong.ZeroStateTransparent | modules/pingpong.js:88-97 | An all-zero state gives alpha 0 and density 0 at every texel, in both modes. |
| PingPong.FullStateOpaque | modules/pingpong.js:75-97 | An all-ones state gives alpha 1 and density 1. |
| PingPong.IsolatedHitVisible | modules/pingpong.js:78-97 | A lone hit away from the edges (or on a wrapping axis of at least 2 texels) with no hit around it has density 0, and in heat mode it is drawn as `(cmap(0), 1)`. |
| PingPong.PingPongResources.constructor | modules/pingpong.js:22-31 | Both targets and the mask have `(width*pr)*(height*pr)` cells and are cleared; the mask has dimensions `width*pr` x `height*pr`; the three arrays are distinct; the mask is flagged for upload; `uHeat` starts false. |
| PingPong.PingPongResources.OnHeatToggle | modules/pingpong.js:124-126 | After the checkbox changes, `uHeat` equals its checked state, and nothing else changes. |
| Simulation.Accumulate | modules/simulationManager.js:22-34 | The leading state after one call per batch has the length of the initial state. |
| Simulation.AccumulateMonotone | modules/simulationManager.js:22-34 | Over any sequence of calls a cell never decreases and stays in [0, 1]; once it is 1 it stays 1. |
| Simulation.AccumulateFromZeros | modules/simulationManager.js:13-34 | From cleared targets, a cell of the leading state is 1 exactly when some batch so far named it, and 0 otherwise. |
| Simulation.PoliciesAgree | modules/simulationManager.js:13-34 | When every detection is inside the grid, the accumulated ephemeral masks equal the persistent mask of all detections. |
| Simulation.SimulationManager.constructor | modules/simulationManager.js:4-11 | Both targets and the mask come from initPingPong and are cleared, and the mask is flagged for upload; `ping` starts true; the quad starts on simMat; `uPrev` and `uState` are bound to rtA. |
| Simulation.SimulationManager.HandleData | modules/simulationManager.js:13-35 | The mask holds exactly this batch and is flagged. `prev` is rtA when `ping` holds and rtB otherwise, and it is left unchanged. `next` receives `max(prev, mask)` and becomes the leading target that the draw pass reads. `ping` flips. The class invariant ties the leading state to `Accumulate` over the history. |
| Simulation.ResetAndMark | modules/simulationManager.js:15-18 | After the clear and the unchecked loop, the mask array equals `FillMask` of the batch. |
| Simulation.MaxPass | modules/simulationManager.js:22-26 | The target `next`, distinct from `prev` and the mask, receives `max(prev, mask)` texel by texel; nothing else is written. |
| Simulation.HandleTwice | modules/simulationManager.js:34 | Two calls restore `ping` and the leading slot. |
| Simulation.TrailPass | modules/simulationManager.js:30-32 | The trail shader drawn into a float target keeps the target's length. |
| Simulation.HandleDataAsWritten | modules/simulationManager.js:21-34 | As written: `ping` flips, the quad is left on trailMat, and `uState` names `next`. Only while the quad is still on simMat is the new leading state `max(prev, mask)`. |
| Simulation.AsWrittenFirstCall | modules/simulationManager.js:21-34 | As written, the first call still uses simMat: the hit is merged into rtB, and the quad is left on trailMat. |
| Simulation.AsWrittenCallOverA | modules/simulationManager.js:22-34 | As written, with ping clear and the trail shader bound to rtB, the sim pass blends an opaque black fragment over rtA, whatever the mask: rtA stays 0 and becomes leading. |
| Simulation.AsWrittenCallOverB | modules/simulationManager.js:22-34 | As written, with ping set and the trail shader bound to rtA, the sim pass blends a transparent fragment over rtB: the state is unchanged except that ping flips. |
| Simulation.AsWrittenLosesHit | modules/simulationManager.js:31 | As written, on a 1x1 grid in flat mode, a hit is in the leading target after the first call, gone after a second, empty call, and back after a third: the leading value goes 1, 0, 1. |
| App.DetectionIndexInBuffer | app.js:190-191 | An accepted detection's index is below `width*height`, which is at most the buffer length `width*height*pr*pr` for pr >= 1. |
| App.DetectionTexelAtUnitRatio | app.js:191 | At pr = 1, the cell of detection (x, y) is texel (x, y) of the width-wide texture: `index % width == x` and `index / width == y`. |
| App.DetectionTexelAtRatioTwo | app.js:191 | At pr = 2 on a 2x2 video, marking detection (0, 1) lights texel (2, 0) of the uploaded 4x4 mask texture and leaves texel (0, 1) dark. |
| App.TrailApp.constructor | app.js:33-37 | Before initThree, no resources and no meshes exist, and no detection has been received. |
| App.TrailApp.InitThree | app.js:69-104 | The video mesh and cleared resources sized to the video exist; the mask is flagged; a first resize has set the renderer size, the uniforms and the letterbox scales. |
| App.TrailApp.OnResize | app.js:112-138 | The renderer size is always (w, h). Once the materials exist, both `uRes` uniforms are `(w*pr, h*pr)`. Once the meshes exist, the video gets `(sx, sy, 1)` and the quad `(sx, -sy, 1)` from the letterbox rule; before that the scales are untouched. |
| App.ResizeTwice | app.js:112-138 | Two resizes to the same window: the uniforms and scales after the first are those `onResize` fixes for (w, h) (`(w*pr, h*pr)` once the materials exist; `(sx, sy, 1)` and `(sx, -sy, 1)` from the letterbox rule once the meshes exist; otherwise the old values), and the second leaves them exactly there. |
| App.TrailApp.OnDetections | app.js:182-197 | The mask becomes `ApplyDetections` of its old contents and the batch, and it is flagged for upload even for an empty batch. The invariant keeps the mask equal to the marking of everything received so far. |
| App.MarkDetections | app.js:187-193 | The marking loop over the mask array computes `ApplyDetections`, and the bounds test keeps every store inside the buffer. |
| Renderer.RendererManager.constructor | modules/rendererManager.js:2-13 | The constructor keeps the meshes and runs a first resize. With both meshes present the scales come from the letterbox rule; otherwise they stay at the mesh default (1, 1, 1). |
| Renderer.RendererManager.OnResize | modules/rendererManager.js:15-26 | The renderer size is (w, h). With both meshes present, the video and the quad get the identical scale `(sx, sy, 1)` of the letterbox rule, with no flip. If either mesh is missing, the scales are untouched. |

## Left out

- modules/janusClient.js is not part of this model. It is WebRTC signalling through a foreign library.
- modules/websocket.js is not part of this model. It is a WebSocket transport and `JSON.parse`; a batch is given as a `seq<Detection>`.
- modules/utils.js is not part of this model. It is a `fetch` loader, which is network I/O.
- The `requestAnimationFrame` loops of app.js and rendererManager.js are left out. They hold frame scheduling, render calls and debug drawing.
- The Viridis canvas gradient is left out because it uses a browser canvas API. The colour map is a function parameter.
- GPU sampling is reduced to nearest-texel reads at integer texel offsets. The shaders divide by `uRes`, which onResize sets to the canvas size rather than the texture size; that mismatch is not modelled.
- float32 and float64 precision are left out; values are `real`. The shaders compute in float32. The letterbox rule computes in JS doubles, so its `sa > va` comparison is made on rounded values.
- Fractional device pixel ratios are left out, including pr < 1 in a zoomed-out browser; `pr` is a natural number. With pr < 1, the test in app.js:190 accepts indices up to `width*height`, which can lie past the end of the `width*height*pr*pr` buffer. The Float32Array silently drops those hits.
- The NaN and Infinity results of a zero window or video dimension are left out, since preconditions exclude them.
- DOM wiring, `console.log` and the construction of Three.js objects are left out.
- `this.camera` is never assigned in modules/simulationManager.js:7-10. The model treats the two render calls as the passes they are meant to be. How Three.js handles an undefined camera is not part of this model.
- Simulation.SimulationManager.HandleData: it models the sim pass as the max-step pass on every call, not the code as written; see Findings.
- Simulation.HandleDataAsWritten: the as-written blend assumes `renderer.autoClear` is false, as the animate loops of app.js:149 and modules/rendererManager.js:32 set it; simulationManager.js does not set it, and a cleared target is not modelled.
- Simulation.TrailPass: its contract states only the length of the result. Its texel values are used only in `Simulation.AsWrittenLosesHit`.
- Simulation.ResetAndMark: it has no precondition that detections fall inside the buffer. A Float32Array ignores stores out of range, so the model drops them as the code does rather than excluding them.

## Findings

| source | as written | input that shows it | evidently intended | confidence | as-written member | corrected member |
|---|---|---|---|---|---|---|
| modules/simulationManager.js:31 | The draw pass sets `quad.material = trailMat` and nothing sets it back to simMat. From the second call on, the sim pass renders the trail shader into `next` and ignores the mask. | A 1x1 grid in flat mode with a hit in the first batch and an empty second batch: the leading value drops from 1 to 0 at the second call, so monotonicity fails; later calls alternate between 1 and 0. This assumes the render call at line 26 runs, although `this.camera` is never assigned (lines 7-10). The alternation also assumes `renderer.autoClear` is false, so the sim pass blends over the old contents of `next`; with clearing, later calls stay at 0. The drop from 1 to 0 holds either way, because the target it is blended over already holds 0. | Every sim pass uses simMat, so the leading state is `max(prev, mask)` and never decreases. | not executed | Simulation.HandleDataAsWritten, Simulation.AsWrittenLosesHit | Simulation.SimulationManager.HandleData, Simulation.AccumulateMonotone |
