/** The ephemeral-mask pipeline of simulationManager.js: every batch clears
    the mask, marks it, and one accumulation pass merges it into the
    ping-pong state with max(previous, mask). */
module Simulation {
  import opened Mask
  import opened PingPong

  /** The two render targets. */
  datatype Slot = A | B

  /** The material the shared quad is drawn with. */
  datatype Material = SimMaterial | TrailMaterial

  // ---------------------------------------------------------------------
  // Accumulation over a history of batches
  // ---------------------------------------------------------------------

  /** The leading state after one handleData call per batch, in order,
      starting from `state`. */
  function Accumulate(state: seq<real>, width: int, batches: seq<seq<Detection>>): (r: seq<real>)
    ensures |r| == |state|
    decreases |batches|
  {
    if batches == [] then state
    else
      MaxStep(Accumulate(state, width, batches[..|batches| - 1]),
              FillMask(|state|, width, batches[|batches| - 1]))
  }

  /** Some batch of the history names cell `i`. */
  ghost predicate NamedInHistory(batches: seq<seq<Detection>>, width: int, i: int)
  {
    exists j :: 0 <= j < |batches| && NamedBy(batches[j], width, i)
  }

  /** Accumulation never lowers a cell, and keeps cells in [0, 1]: once a
      cell reaches 1.0 it stays at 1.0 for every later batch. */
  lemma {:induction false} AccumulateMonotone(state: seq<real>, width: int, batches: seq<seq<Detection>>, i: int)
    requires 0 <= i < |state|
    requires forall j :: 0 <= j < |state| ==> 0.0 <= state[j] <= 1.0
    ensures state[i] <= Accumulate(state, width, batches)[i] <= 1.0
    ensures state[i] == 1.0 ==> Accumulate(state, width, batches)[i] == 1.0
    decreases |batches|
  {
    if batches != [] {
      AccumulateMonotone(state, width, batches[..|batches| - 1], i);
    }
  }

  /** From cleared targets, a cell of the leading state is 1.0 exactly when
      some batch so far named it, and 0.0 otherwise. */
  lemma {:induction false} AccumulateFromZeros(n: nat, width: int, batches: seq<seq<Detection>>, i: int)
    requires 0 <= i < n
    ensures Accumulate(Zeros(n), width, batches)[i] == if NamedInHistory(batches, width, i) then 1.0 else 0.0
    decreases |batches|
  {
    if batches != [] {
      var front, last := batches[..|batches| - 1], batches[|batches| - 1];
      AccumulateFromZeros(n, width, front, i);
      if NamedInHistory(batches, width, i) && !NamedInHistory(front, width, i) {
        var j :| 0 <= j < |batches| && NamedBy(batches[j], width, i);
        if j < |front| {
          assert false;
        }
      }
      if NamedInHistory(front, width, i) {
        var j :| 0 <= j < |front| && NamedBy(front[j], width, i);
        assert batches[j] == front[j];
      }
      if NamedBy(last, width, i) {
        assert batches[|batches| - 1] == last;
      }
    }
  }

  /** All detections of a history, in arrival order. */
  function Flatten(batches: seq<seq<Detection>>): (r: seq<Detection>)
    ensures forall j, k :: 0 <= j < |batches| && 0 <= k < |batches[j]| ==> batches[j][k] in r
    ensures forall d :: d in r ==> exists j :: 0 <= j < |batches| && d in batches[j]
    decreases |batches|
  {
    if batches == [] then []
    else Flatten(batches[..|batches| - 1]) + batches[|batches| - 1]
  }

  /** Every detection of every batch lies inside the grid. */
  ghost predicate AllInBounds(batches: seq<seq<Detection>>, width: int, height: int)
  {
    forall j, k :: 0 <= j < |batches| && 0 <= k < |batches[j]| ==> InBounds(batches[j][k], width, height)
  }

  /** The two persistence policies agree: when every detection is in the
      grid, accumulating ephemeral masks from cleared targets gives the same
      state as marking every detection into one persistent mask. */
  lemma PoliciesAgree(n: nat, width: int, height: int, batches: seq<seq<Detection>>)
    requires AllInBounds(batches, width, height)
    ensures Accumulate(Zeros(n), width, batches) == ApplyDetections(Zeros(n), width, height, Flatten(batches))
  {
    var acc := Accumulate(Zeros(n), width, batches);
    var all := Flatten(batches);
    var persistent := ApplyDetections(Zeros(n), width, height, all);
    forall i | 0 <= i < n ensures acc[i] == persistent[i] {
      AccumulateFromZeros(n, width, batches, i);
      if NamedInHistory(batches, width, i) {
        var j :| 0 <= j < |batches| && NamedBy(batches[j], width, i);
        var k :| 0 <= k < |batches[j]| && Index(batches[j][k], width) == i;
        var d := batches[j][k];
        assert d in all;
        var m :| 0 <= m < |all| && all[m] == d;
        assert InBounds(all[m], width, height);
        assert MarkedBy(all, width, height, i);
      }
      if MarkedBy(all, width, height, i) {
        var m :| 0 <= m < |all| && InBounds(all[m], width, height) && Index(all[m], width) == i;
        assert all[m] in all;
        var j :| 0 <= j < |batches| && all[m] in batches[j];
        var k :| 0 <= k < |batches[j]| && batches[j][k] == all[m];
        assert NamedBy(batches[j], width, i);
      }
    }
  }

  // ---------------------------------------------------------------------
  // SimulationManager
  // ---------------------------------------------------------------------

  /** The simulation manager: the resources of initPingPong (the render
      targets and the mask are shared with them, as Object.assign copies
      references), the `ping` orientation bit, and the uniform and material
      bindings that handleData sets. */
  class SimulationManager {
    const width: nat
    const height: nat
    const rtA: array<real>
    const rtB: array<real>
    const mask: array<real>
    var ping: bool
    var maskNeedsUpdate: bool
    /** simMat.uniforms.uPrev */
    var uPrev: Slot
    /** trailMat.uniforms.uState */
    var uState: Slot
    /** quad.material */
    var quadMaterial: Material
    /** The batches handled so far. */
    ghost var history: seq<seq<Detection>>

    ghost predicate Valid()
      reads this, rtA, rtB
    {
      && rtA != rtB && mask != rtA && mask != rtB
      && rtA.Length == rtB.Length == mask.Length
      && Current() == Accumulate(Zeros(mask.Length), width, history)
    }

    /** The slot the latest accumulated state is in, and that the next call
        reads as `prev`. */
    function CurrentSlot(): Slot
      reads this
    {
      if ping then A else B
    }

    ghost function Current(): seq<real>
      reads this, rtA, rtB
    {
      if ping then rtA[..] else rtB[..]
    }

    ghost function Stale(): seq<real>
      reads this, rtA, rtB
    {
      if ping then rtB[..] else rtA[..]
    }

    constructor (width: nat, height: nat, pr: nat)
      ensures Valid() && history == []
      ensures this.width == width && this.height == height
      ensures mask.Length == MaskSize(width, height, pr)
      ensures fresh(rtA) && fresh(rtB) && fresh(mask)
      ensures ping && uPrev == A && uState == A && quadMaterial == SimMaterial
      ensures rtA[..] == Zeros(mask.Length) && rtB[..] == Zeros(mask.Length)
      ensures mask[..] == Zeros(mask.Length) && maskNeedsUpdate
    {
      var res := new PingPongResources(width, height, pr);
      this.width, this.height := res.width, res.height;
      rtA, rtB, mask := res.rtA, res.rtB, res.mask;
      maskNeedsUpdate := res.maskNeedsUpdate;
      ping := true;
      uPrev, uState := A, A;
      quadMaterial := SimMaterial;
      history := [];
    }

    /** One batch: clear and fill the mask, write max(prev, mask) into the
        non-leading target, point the draw pass at it and flip `ping`. For
        the material binding this is the intended step; see
        HandleDataAsWritten for the code as it stands. */
    method HandleData(objects: seq<Detection>)
      requires Valid()
      modifies mask, rtA, rtB, this`ping, this`maskNeedsUpdate, this`uPrev, this`uState, this`quadMaterial, this`history
      ensures Valid() && history == old(history) + [objects]
      ensures mask[..] == FillMask(mask.Length, width, objects)
      ensures maskNeedsUpdate
      ensures ping == !old(ping)
      ensures uPrev == old(CurrentSlot())
      ensures Current() == MaxStep(old(Current()), mask[..])
      ensures Stale() == old(Current())
      ensures uState == CurrentSlot() && quadMaterial == TrailMaterial
    {
      ResetAndMark(mask, width, objects);
      maskNeedsUpdate := true;

      // sim pass
      var prev, next := if ping then rtA else rtB, if ping then rtB else rtA;
      uPrev := CurrentSlot();
      quadMaterial := SimMaterial;
      MaxPass(prev, mask, next);

      // draw pass
      uState := if ping then B else A;
      quadMaterial := TrailMaterial;

      ping := !ping;
      history := history + [objects];
      assert history[..|history| - 1] == old(history);
    }
  }

  /** `fill(0)` and the marking loop of handleData, which writes every
      detection without a bounds check. */
  method ResetAndMark(mask: array<real>, width: int, objects: seq<Detection>)
    modifies mask
    ensures mask[..] == FillMask(mask.Length, width, objects)
  {
    forall i | 0 <= i < mask.Length {
      mask[i] := 0.0;
    }
    assert mask[..] == FillMask(mask.Length, width, objects[..0]);
    for k := 0 to |objects|
      invariant mask[..] == FillMask(mask.Length, width, objects[..k])
    {
      var i := objects[k].y * width + objects[k].x;
      assert objects[..k + 1][..k] == objects[..k];
      // a Float32Array ignores a store outside its bounds
      if 0 <= i < mask.Length {
        mask[i] := 1.0;
      }
    }
    assert objects[..|objects|] == objects;
  }

  /** The accumulation pass: every texel of `next` gets max(prev, mask). */
  method MaxPass(prev: array<real>, mask: array<real>, next: array<real>)
    requires next != prev && next != mask
    requires prev.Length == mask.Length == next.Length
    modifies next
    ensures next[..] == MaxStep(prev[..], mask[..])
  {
    forall i | 0 <= i < next.Length {
      next[i] := SimPixel(prev[i], mask[i]);
    }
  }

  /** Two calls restore the orientation: the roles of the targets alternate. */
  method HandleTwice(s: SimulationManager, b1: seq<Detection>, b2: seq<Detection>)
    requires s.Valid()
    modifies s.mask, s.rtA, s.rtB, s
    ensures s.Valid() && s.ping == old(s.ping) && s.CurrentSlot() == old(s.CurrentSlot())
    ensures s.history == old(s.history) + [b1, b2]
  {
    s.HandleData(b1);
    s.HandleData(b2);
  }

  // ---------------------------------------------------------------------
  // The code as written: quad.material is left on the trail shader
  // ---------------------------------------------------------------------

  /** The observable ping-pong state of the code as written. */
  datatype Targets = Targets(a: seq<real>, b: seq<real>, ping: bool, material: Material, uState: Slot)

  function Leading(t: Targets): seq<real>
  {
    if t.ping then t.a else t.b
  }

  /** Red channel of a fragment drawn with normal blending over `dst`. */
  function BlendRed(src: Rgba, dst: real): real
  {
    src.rgb.r * src.a + dst * (1.0 - src.a)
  }

  lemma CellRowBound(i: nat, w: nat, h: nat)
    requires i < w * h
    ensures w > 0 && i / w < h && (i / w) * w + i % w == i
  {
  }

  /** Texel coordinates of buffer cell i of a w-wide texture. */
  function CellCoords(i: nat, w: nat, h: nat): (p: (nat, nat))
    requires i < w * h
    ensures p.0 < w && p.1 < h && p.1 * w + p.0 == i
  {
    CellRowBound(i, w, h);
    (i % w, i / w)
  }

  /** The trail shader drawn into a float render target over `dst`, reading
      the state `src` of w x h texels. */
  function TrailPass(src: seq<real>, dst: seq<real>, w: nat, h: nat, heat: bool, cmap: real -> Rgb, mode: EdgeMode): (r: seq<real>)
    requires |src| == w * h && |dst| == w * h
    ensures |r| == |dst|
  {
    var t := TextureOf(src, w, h);
    seq(|dst|, i requires 0 <= i < |dst| =>
      var p := CellCoords(i, w, h);
      BlendRed(TrailPixel(t, mode, heat, cmap, p.0, p.1), dst[i]))
  }

  /** handleData as the code stands. The sim pass draws the quad with
      whatever material it has: simMat only until the draw pass of the
      first call binds trailMat, which nothing changes back. From then on
      the sim pass renders the trail shader of the last drawn target into
      `next` and ignores the mask. */
  function HandleDataAsWritten(t: Targets, mask: seq<real>, w: nat, h: nat, heat: bool, cmap: real -> Rgb, mode: EdgeMode): (r: Targets)
    requires |t.a| == w * h && |t.b| == w * h && |mask| == w * h
    ensures |r.a| == w * h && |r.b| == w * h
    ensures r.ping == !t.ping && r.material == TrailMaterial
    ensures r.uState == (if t.ping then B else A)
    ensures t.material == SimMaterial ==> Leading(r) == MaxStep(Leading(t), mask)
  {
    var prev, next := Leading(t), if t.ping then t.b else t.a;
    var written :=
      match t.material
      case SimMaterial => MaxStep(prev, mask)
      case TrailMaterial => TrailPass(if t.uState == A then t.a else t.b, next, w, h, heat, cmap, mode);
    Targets(if t.ping then t.a else written, if t.ping then written else t.b,
            !t.ping, TrailMaterial, if t.ping then B else A)
  }

  /** The initial state: cleared targets, ping set, quad on simMat, the
      trail shader bound to rtA. */
  function FreshTargets(n: nat): Targets
  {
    Targets(Zeros(n), Zeros(n), true, SimMaterial, A)
  }

  /** The first call of the example below: the quad is still on simMat, so
      the hit is merged into rtB. */
  lemma AsWrittenFirstCall(cmap: real -> Rgb, mode: EdgeMode)
    ensures HandleDataAsWritten(FreshTargets(1), [1.0], 1, 1, false, cmap, mode)
         == Targets([0.0], [1.0], false, TrailMaterial, B)
  {
  }

  /** A later call with ping clear: the trail shader reads rtB (state 1.0,
      drawn opaque black) and blends it over rtA, which stays 0.0. */
  lemma AsWrittenCallOverA(cmap: real -> Rgb, mode: EdgeMode, m: seq<real>)
    requires |m| == 1
    ensures HandleDataAsWritten(Targets([0.0], [1.0], false, TrailMaterial, B), m, 1, 1, false, cmap, mode)
         == Targets([0.0], [1.0], true, TrailMaterial, A)
  {
    var src := TextureOf([1.0], 1, 1);
    assert src.At(0, 0) == 1.0 by { TextureOfAt([1.0], 1, 1, 0, 0); }
    var p := TrailPixel(src, mode, false, cmap, 0, 0);
    assert p == Rgba(Black, 1.0);
    assert BlendRed(p, 0.0) == 0.0;
    assert TrailPass([1.0], [0.0], 1, 1, false, cmap, mode) == [0.0];
  }

  /** A later call with ping set: the trail shader reads rtA (state 0.0,
      fully transparent) and blends it over rtB, which keeps its 1.0. */
  lemma AsWrittenCallOverB(cmap: real -> Rgb, mode: EdgeMode, m: seq<real>)
    requires |m| == 1
    ensures HandleDataAsWritten(Targets([0.0], [1.0], true, TrailMaterial, A), m, 1, 1, false, cmap, mode)
         == Targets([0.0], [1.0], false, TrailMaterial, B)
  {
    var src := TextureOf([0.0], 1, 1);
    assert src.At(0, 0) == 0.0 by { TextureOfAt([0.0], 1, 1, 0, 0); }
    var p := TrailPixel(src, mode, false, cmap, 0, 0);
    assert p == Rgba(Black, 0.0);
    assert BlendRed(p, 1.0) == 1.0;
    assert TrailPass([0.0], [1.0], 1, 1, false, cmap, mode) == [1.0];
  }

  /** As written, the leading state is not monotone: on a 1x1 grid in flat
      mode, a hit in the first batch is in the leading target after the
      first call, gone after a second, empty, batch, and back after a
      third: later calls alternate. */
  lemma AsWrittenLosesHit(cmap: real -> Rgb, mode: EdgeMode)
    ensures Leading(HandleDataAsWritten(FreshTargets(1), [1.0], 1, 1, false, cmap, mode)) == [1.0]
    ensures Leading(HandleDataAsWritten(HandleDataAsWritten(FreshTargets(1), [1.0], 1, 1, false, cmap, mode),
                                        [0.0], 1, 1, false, cmap, mode)) == [0.0]
    ensures Leading(HandleDataAsWritten(HandleDataAsWritten(HandleDataAsWritten(FreshTargets(1), [1.0], 1, 1, false, cmap, mode),
                                        [0.0], 1, 1, false, cmap, mode), [0.0], 1, 1, false, cmap, mode)) == [1.0]
  {
    AsWrittenFirstCall(cmap, mode);
    AsWrittenCallOverA(cmap, mode, [0.0]);
    AsWrittenCallOverB(cmap, mode, [0.0]);
  }
}
