/** app.js: the persistent-mask page. Detections are marked into the mask,
    which is never cleared and is drawn directly; resizes update the
    resolution uniforms and letterbox the video plane and the trail quad. */
module App {
  import opened Mask
  import opened Viewport
  import PingPong

  /** A shader vec2 uniform. */
  datatype Vec2 = Vec2(x: real, y: real)

  /** An in-bounds detection names a cell of the buffer: its index is below
      width * height, which the buffer of width * height * pr * pr floats
      covers for any pixel ratio pr >= 1. */
  lemma DetectionIndexInBuffer(width: nat, height: nat, pr: nat, d: Detection)
    requires InBounds(d, width, height) && pr >= 1
    ensures 0 <= Index(d, width) < width * height <= PingPong.MaskSize(width, height, pr)
  {
    IndexBelowArea(d, width, height);
    assert PingPong.MaskSize(width, height, pr) >= width * height;
  }

  /** At pixel ratio 1 a detection's cell is the texel at (x, y) of the
      width-wide mask texture. */
  lemma DetectionTexelAtUnitRatio(width: nat, height: nat, d: Detection)
    requires InBounds(d, width, height)
    ensures Index(d, width) % width == d.x && Index(d, width) / width == d.y
  {
    var i := Index(d, width);
    IndexInjective(Detection(i % width, i / width), d, width);
  }

  /** The row stride is the logical width, while the mask texture is
      width * pr texels wide: at pixel ratio 2 on a 2x2 video, marking
      detection (0, 1) lights texel (2, 0) of the uploaded 4x4 texture and
      leaves texel (0, 1) dark. */
  lemma DetectionTexelAtRatioTwo()
    ensures var tex := PingPong.TextureOf(ApplyDetections(Zeros(16), 2, 2, [Detection(0, 1)]), 4, 4);
      tex.At(2, 0) == 1.0 && tex.At(0, 1) == 0.0
  {
    var d := Detection(0, 1);
    var data := ApplyDetections(Zeros(16), 2, 2, [d]);
    assert MarkedBy([d], 2, 2, 2) by { assert [d][0] == d; }
    PingPong.TextureOfAt(data, 4, 4, 2, 0);
    PingPong.TextureOfAt(data, 4, 4, 0, 1);
  }

  /** The page state app.js keeps in module-level variables. Before initThree
      runs, neither the resources nor the meshes exist. */
  class TrailApp {
    /** renderer.getPixelRatio() */
    const pr: nat
    /** initPingPong has run: maskTex, width, height, simMat, trailMat and
        quad are set. */
    var initialised: bool
    /** videoMesh is set. */
    var hasVideoMesh: bool
    /** maskTex.image.data */
    var mask: array<real>
    var maskNeedsUpdate: bool
    /** The simulation grid size that initPingPong returns. */
    var width: nat
    var height: nat
    /** simMat.uniforms.uRes and trailMat.uniforms.uRes */
    var simRes: Vec2
    var trailRes: Vec2
    /** renderer.setSize */
    var rendererSize: (int, int)
    /** videoMesh.scale and quad.scale */
    var videoScale: Vec3
    var quadScale: Vec3
    /** Every detection received so far, in arrival order. */
    ghost var received: seq<Detection>

    /** The mask is always the all-time trail of what was received. */
    ghost predicate Valid()
      reads this, mask
    {
      && pr >= 1
      && (initialised ==>
            && mask.Length == PingPong.MaskSize(width, height, pr)
            && mask[..] == ApplyDetections(Zeros(mask.Length), width, height, received))
    }

    constructor (pr: nat)
      requires pr >= 1
      ensures Valid() && this.pr == pr
      ensures !initialised && !hasVideoMesh && received == []
      ensures videoScale == Vec3(1.0, 1.0, 1.0) && quadScale == Vec3(1.0, 1.0, 1.0)
    {
      this.pr := pr;
      initialised, hasVideoMesh := false, false;
      mask := new real[0];
      maskNeedsUpdate := false;
      width, height := 0, 0;
      simRes, trailRes := Vec2(0.0, 0.0), Vec2(0.0, 0.0);
      rendererSize := (0, 0);
      videoScale, quadScale := Vec3(1.0, 1.0, 1.0), Vec3(1.0, 1.0, 1.0);
      received := [];
    }

    /** initThree once the video plays: the video mesh, the ping-pong
        resources sized to the video, then a first resize. */
    method InitThree(videoWidth: nat, videoHeight: nat, windowWidth: int, windowHeight: int)
      requires Valid() && !initialised
      requires videoWidth > 0 && videoHeight > 0 && windowWidth > 0 && windowHeight > 0
      modifies this
      ensures Valid() && initialised && hasVideoMesh && fresh(mask)
      ensures width == videoWidth && height == videoHeight && received == []
      ensures mask[..] == Zeros(mask.Length) && maskNeedsUpdate
      ensures rendererSize == (windowWidth, windowHeight)
      ensures simRes == trailRes == Vec2((windowWidth * pr) as real, (windowHeight * pr) as real)
      ensures var s := LetterboxScale(videoWidth as real / videoHeight as real, windowWidth as real / windowHeight as real);
        videoScale == Vec3(s.sx, s.sy, 1.0) && quadScale == Vec3(s.sx, -s.sy, 1.0)
    {
      hasVideoMesh := true;
      var res := new PingPong.PingPongResources(videoWidth, videoHeight, pr);
      mask := res.mask;
      maskNeedsUpdate := res.maskNeedsUpdate;
      width, height := res.width, res.height;
      simRes := Vec2((res.maskWidth) as real, (res.maskHeight) as real);
      trailRes := simRes;
      initialised := true;
      received := [];
      OnResize(windowWidth, windowHeight, videoWidth, videoHeight);
    }

    /** onResize. The uniforms get the canvas size in device pixels; once
        both meshes exist the video plane is letterboxed and the trail quad
        gets the same scale with y flipped. */
    method OnResize(w: int, h: int, videoWidth: int, videoHeight: int)
      requires Valid()
      requires initialised && hasVideoMesh ==> w > 0 && h > 0 && videoWidth > 0 && videoHeight > 0
      modifies this`rendererSize, this`simRes, this`trailRes, this`videoScale, this`quadScale
      ensures Valid()
      ensures rendererSize == (w, h)
      ensures initialised ==> simRes == trailRes == Vec2((w * pr) as real, (h * pr) as real)
      ensures !initialised ==> simRes == old(simRes) && trailRes == old(trailRes)
      ensures initialised && hasVideoMesh ==>
        var s := LetterboxScale(videoWidth as real / videoHeight as real, w as real / h as real);
        videoScale == Vec3(s.sx, s.sy, 1.0) && quadScale == Vec3(s.sx, -s.sy, 1.0)
      ensures !(initialised && hasVideoMesh) ==> videoScale == old(videoScale) && quadScale == old(quadScale)
    {
      rendererSize := (w, h);
      if initialised {
        simRes := Vec2((w * pr) as real, (h * pr) as real);
        trailRes := Vec2((w * pr) as real, (h * pr) as real);
      }
      if !hasVideoMesh || !initialised {
        return;
      }
      var va := videoWidth as real / videoHeight as real;
      var sa := w as real / h as real;
      var s := LetterboxScale(va, sa);
      videoScale := Vec3(s.sx, s.sy, 1.0);
      quadScale := Vec3(s.sx, -s.sy, 1.0);
    }

    /** The feed's message handler: mark each in-bounds detection, drop the
        rest, never clear, and flag the mask for upload (also for an empty
        batch). */
    method OnDetections(objects: seq<Detection>)
      requires Valid() && initialised
      modifies mask, this`maskNeedsUpdate, this`received
      ensures Valid() && received == old(received) + objects
      ensures mask[..] == ApplyDetections(old(mask[..]), width, height, objects)
      ensures maskNeedsUpdate
    {
      MarkDetections(mask, width, height, pr, objects);
      maskNeedsUpdate := true;
      received := received + objects;
      Coalescing(Zeros(mask.Length), width, height, old(received), objects);
    }
  }

  /** Resizing is idempotent: a second resize to the same window leaves the
      mesh scales and the uniforms where the first one put them. The values
      after the first resize are returned. */
  method ResizeTwice(app: TrailApp, w: int, h: int, videoWidth: int, videoHeight: int)
    returns (video: Vec3, quad: Vec3, sim: Vec2, trail: Vec2)
    requires app.Valid()
    requires app.initialised && app.hasVideoMesh ==> w > 0 && h > 0 && videoWidth > 0 && videoHeight > 0
    modifies app`rendererSize, app`simRes, app`trailRes, app`videoScale, app`quadScale
    ensures app.Valid() && app.rendererSize == (w, h)
    ensures app.videoScale == video && app.quadScale == quad
    ensures app.simRes == sim && app.trailRes == trail
    ensures app.initialised ==> sim == trail == Vec2((w * app.pr) as real, (h * app.pr) as real)
    ensures !app.initialised ==> sim == old(app.simRes) && trail == old(app.trailRes)
    ensures app.initialised && app.hasVideoMesh ==>
      var s := LetterboxScale(videoWidth as real / videoHeight as real, w as real / h as real);
      video == Vec3(s.sx, s.sy, 1.0) && quad == Vec3(s.sx, -s.sy, 1.0)
    ensures !(app.initialised && app.hasVideoMesh) ==> video == old(app.videoScale) && quad == old(app.quadScale)
  {
    app.OnResize(w, h, videoWidth, videoHeight);
    video, quad, sim, trail := app.videoScale, app.quadScale, app.simRes, app.trailRes;
    app.OnResize(w, h, videoWidth, videoHeight);
  }

  /** The marking loop over maskTex.image.data. The bounds test keeps every
      store inside the buffer. */
  method MarkDetections(mask: array<real>, width: nat, height: nat, pr: nat, objects: seq<Detection>)
    requires pr >= 1 && mask.Length == PingPong.MaskSize(width, height, pr)
    modifies mask
    ensures mask[..] == ApplyDetections(old(mask[..]), width, height, objects)
  {
    for k := 0 to |objects|
      invariant mask[..] == ApplyDetections(old(mask[..]), width, height, objects[..k])
    {
      var d := objects[k];
      assert objects[..k + 1][..k] == objects[..k];
      if d.x >= 0 && d.x < width && d.y >= 0 && d.y < height {
        DetectionIndexInBuffer(width, height, pr, d);
        mask[d.y * width + d.x] := 1.0;
      }
    }
    assert objects[..|objects|] == objects;
  }
}
