/** The ping-pong resources and the two fragment shaders: the accumulation
    step (simFrag) and the density/colour rule (trailFrag), stated per
    texel on a row-major grid of floats. */
module PingPong {
  import opened Mask

  // ---------------------------------------------------------------------
  // Sizing
  // ---------------------------------------------------------------------

  /** Length of the mask's Float32Array: width * height * pr * pr. It is the
      cell count of the (width * pr) x (height * pr) texture it backs, which
      is also the size of both render targets. */
  function MaskSize(width: nat, height: nat, pr: nat): (n: nat)
    ensures n == (width * pr) * (height * pr)
    ensures pr >= 1 ==> width * height <= n
  {
    MulMonotone(width * height, pr * pr);
    width * height * pr * pr
  }

  /** k * m >= k whenever m >= 1. */
  lemma MulMonotone(k: nat, m: nat)
    ensures m >= 1 ==> k <= k * m
  {
  }

  // ---------------------------------------------------------------------
  // Textures and edge sampling
  // ---------------------------------------------------------------------

  /** What a sample outside [0, 1] reads: the nearest edge texel (the
      Three.js default) or the texel of the wrapped coordinate. */
  datatype EdgeMode = ClampToEdge | Repeat

  /** The texel column (or row) a coordinate `i` resolves to on an axis of
      `n` texels. A coordinate up to one axis length outside the texture
      goes to the nearest edge texel, or around to the other side. */
  function EdgeCoord(mode: EdgeMode, i: int, n: nat): (r: nat)
    requires n > 0
    ensures r < n
    ensures 0 <= i < n ==> r == i
    ensures mode == ClampToEdge && i < 0 ==> r == 0
    ensures mode == ClampToEdge && i >= n ==> r == n - 1
    ensures mode == Repeat && i < 0 && 0 <= i + n ==> r == i + n
    ensures mode == Repeat && n <= i < 2 * n ==> r == i - n
  {
    match mode
    case ClampToEdge => if i < 0 then 0 else if i >= n then n - 1 else i
    case Repeat => WrapOnce(i, n); i % n
  }

  /** Euclidean remainder of a coordinate at most one period outside. */
  lemma WrapOnce(i: int, n: nat)
    requires n > 0
    ensures 0 <= i < n ==> i % n == i
    ensures i < 0 && 0 <= i + n ==> i % n == i + n
    ensures n <= i < 2 * n ==> i % n == i - n
  {
    if 0 <= i < n {
      assert i == 0 * n + i;
    } else if i < 0 && 0 <= i + n {
      assert i == -1 * n + (i + n);
    } else if n <= i < 2 * n {
      assert i == 1 * n + (i - n);
    }
  }

  /** A one-channel float texture: `height` rows of `width` texels, row 0
      first, as the texture is laid out in its buffer. */
  datatype Texture = Texture(width: nat, height: nat, rows: seq<seq<real>>)
  {
    predicate Valid()
    {
      |rows| == height && forall y :: 0 <= y < height ==> |rows[y]| == width
    }

    /** The texel at column x, row y. */
    function At(x: nat, y: nat): real
      requires Valid() && x < width && y < height
    {
      rows[y][x]
    }

    /** A nearest-filtered sample at texel coordinates (x, y), which may
        fall outside the texture. */
    function Sample(mode: EdgeMode, x: int, y: int): real
      requires Valid() && width > 0 && height > 0
    {
      At(EdgeCoord(mode, x, width), EdgeCoord(mode, y, height))
    }

    /** The same texture with texel (x, y) replaced by v. */
    function Set(x: nat, y: nat, v: real): (t: Texture)
      requires Valid() && x < width && y < height
      ensures t.Valid() && t.width == width && t.height == height
      ensures forall x', y' :: 0 <= x' < width && 0 <= y' < height ==>
        t.At(x', y') == if x' == x && y' == y then v else At(x', y')
    {
      Texture(width, height, rows[y := rows[y][x := v]])
    }
  }

  /** A texture with every texel equal to v (a cleared target is v = 0). */
  function Uniform(w: nat, h: nat, v: real): (t: Texture)
    ensures t.Valid() && t.width == w && t.height == h
    ensures forall x, y :: 0 <= x < w && 0 <= y < h ==> t.At(x, y) == v
  {
    Texture(w, h, seq(h, _ => seq(w, _ => v)))
  }

  /** Row y of a row-major buffer of h rows of w floats. */
  function Row(data: seq<real>, w: nat, h: nat, y: nat): (r: seq<real>)
    requires |data| == w * h && y < h
    ensures |r| == w
    ensures y * w + w <= |data|
    ensures r == data[y * w .. y * w + w]
  {
    assert y * w + w == (y + 1) * w;
    assert (y + 1) * w <= h * w;
    data[y * w .. y * w + w]
  }

  /** The texture a row-major buffer of w * h floats is uploaded as. */
  function TextureOf(data: seq<real>, w: nat, h: nat): (t: Texture)
    requires |data| == w * h
    ensures t.Valid() && t.width == w && t.height == h
  {
    Texture(w, h, seq(h, y requires 0 <= y < h => Row(data, w, h, y)))
  }

  /** Texel (x, y) of an uploaded buffer is cell y * w + x. */
  lemma TextureOfAt(data: seq<real>, w: nat, h: nat, x: nat, y: nat)
    requires |data| == w * h && x < w && y < h
    ensures y * w + x < |data|
    ensures TextureOf(data, w, h).At(x, y) == data[y * w + x]
  {
    assert TextureOf(data, w, h).rows[y] == Row(data, w, h, y);
  }

  // ---------------------------------------------------------------------
  // simFrag: the accumulation step
  // ---------------------------------------------------------------------

  /** One output texel of the accumulation pass: max(previous, mask). */
  function SimPixel(a: real, m: real): (r: real)
    ensures r >= a && r >= m
    ensures r == a || r == m
  {
    if a >= m then a else m
  }

  /** The whole accumulation pass over equally sized state and mask. */
  function MaxStep(prev: seq<real>, mask: seq<real>): (r: seq<real>)
    requires |prev| == |mask|
    ensures |r| == |prev|
    ensures forall i :: 0 <= i < |r| ==> r[i] >= prev[i] && r[i] >= mask[i]
    ensures forall i :: 0 <= i < |r| ==> r[i] == prev[i] || r[i] == mask[i]
  {
    seq(|prev|, i requires 0 <= i < |prev| => SimPixel(prev[i], mask[i]))
  }

  // ---------------------------------------------------------------------
  // trailFrag: density and colour
  // ---------------------------------------------------------------------

  datatype Rgb = Rgb(r: real, g: real, b: real)
  datatype Rgba = Rgba(rgb: Rgb, a: real)

  const Black := Rgb(0.0, 0.0, 0.0)

  /** GLSL clamp(v, 0.0, 1.0). */
  function Clamp01(v: real): (r: real)
    ensures 0.0 <= r <= 1.0
    ensures 0.0 <= v <= 1.0 ==> r == v
    ensures v < 0.0 ==> r == 0.0
    ensures v > 1.0 ==> r == 1.0
  {
    if v < 0.0 then 0.0 else if v > 1.0 then 1.0 else v
  }

  /** The eight samples of `dens`, one texel away in each principal
      direction, in the order the shader adds them. */
  function NeighbourSum(t: Texture, mode: EdgeMode, x: int, y: int): real
    requires t.Valid() && t.width > 0 && t.height > 0
  {
    t.Sample(mode, x + 1, y) + t.Sample(mode, x - 1, y)
    + t.Sample(mode, x, y + 1) + t.Sample(mode, x, y - 1)
    + t.Sample(mode, x + 1, y + 1) + t.Sample(mode, x - 1, y + 1)
    + t.Sample(mode, x + 1, y - 1) + t.Sample(mode, x - 1, y - 1)
  }

  /** Local density: the mean of the eight neighbours, clamped to [0, 1]. */
  function Density(t: Texture, mode: EdgeMode, x: nat, y: nat): (d: real)
    requires t.Valid() && x < t.width && y < t.height
    ensures 0.0 <= d <= 1.0
    ensures 0.0 <= NeighbourSum(t, mode, x, y) <= 8.0 ==> 8.0 * d == NeighbourSum(t, mode, x, y)
  {
    Clamp01(NeighbourSum(t, mode, x, y) / 8.0)
  }

  /** The fragment the trail shader emits at texel (x, y). The alpha is the
      raw state value; the colour is the colour map at the density in heat
      mode and black in flat mode. */
  function TrailPixel(t: Texture, mode: EdgeMode, heat: bool, cmap: real -> Rgb, x: nat, y: nat): (p: Rgba)
    requires t.Valid() && x < t.width && y < t.height
    ensures p.a == t.At(x, y)
    ensures heat ==> p.rgb == cmap(Density(t, mode, x, y))
    ensures !heat ==> p.rgb == Black
  {
    var v := t.At(x, y);
    if heat then Rgba(cmap(Density(t, mode, x, y)), v) else Rgba(Black, v)
  }

  /** On this axis no one-texel step from `x` resolves back to `x`: the
      coordinate is interior, or the axis wraps and has two texels or more. */
  predicate AwayFromEdge(mode: EdgeMode, x: nat, n: nat)
  {
    (1 <= x && x + 1 < n) || (mode == Repeat && 2 <= n && x < n)
  }

  lemma StepLeavesTexel(mode: EdgeMode, x: nat, n: nat)
    requires AwayFromEdge(mode, x, n)
    ensures EdgeCoord(mode, x + 1, n) != x
    ensures EdgeCoord(mode, x - 1, n) != x
  {
  }

  /** The centre texel is not one of the samples: changing it leaves the
      density unchanged, as long as no neighbour resolves back onto it. */
  lemma DensityIgnoresCentre(t: Texture, mode: EdgeMode, x: nat, y: nat, v: real)
    requires t.Valid() && x < t.width && y < t.height
    requires AwayFromEdge(mode, x, t.width) && AwayFromEdge(mode, y, t.height)
    ensures Density(t.Set(x, y, v), mode, x, y) == Density(t, mode, x, y)
  {
    StepLeavesTexel(mode, x, t.width);
    StepLeavesTexel(mode, y, t.height);
  }

  /** With clamp-to-edge sampling, at a corner three of the eight samples
      resolve to the centre texel itself: a lone hit in the corner of a 2x2
      texture has density 3/8, where wrapping gives 0. Edge handling
      therefore decides the colour of edge texels. */
  lemma ClampedCornerSeesCentre()
    ensures Density(Uniform(2, 2, 0.0).Set(0, 0, 1.0), ClampToEdge, 0, 0) == 0.375
    ensures Density(Uniform(2, 2, 0.0).Set(0, 0, 1.0), Repeat, 0, 0) == 0.0
  {
    var t := Uniform(2, 2, 0.0).Set(0, 0, 1.0);
    assert NeighbourSum(t, ClampToEdge, 0, 0) == 3.0;
    assert NeighbourSum(t, Repeat, 0, 0) == 0.0;
  }

  /** No detection ever: every output fragment is fully transparent in both
      modes, and the density is 0. */
  lemma ZeroStateTransparent(t: Texture, mode: EdgeMode, heat: bool, cmap: real -> Rgb, x: nat, y: nat)
    requires t.Valid() && x < t.width && y < t.height
    requires forall x', y' :: 0 <= x' < t.width && 0 <= y' < t.height ==> t.At(x', y') == 0.0
    ensures TrailPixel(t, mode, heat, cmap, x, y).a == 0.0
    ensures Density(t, mode, x, y) == 0.0
  {
  }

  /** A state that is 1.0 everywhere shows full density and full opacity. */
  lemma FullStateOpaque(t: Texture, mode: EdgeMode, heat: bool, cmap: real -> Rgb, x: nat, y: nat)
    requires t.Valid() && x < t.width && y < t.height
    requires forall x', y' :: 0 <= x' < t.width && 0 <= y' < t.height ==> t.At(x', y') == 1.0
    ensures TrailPixel(t, mode, heat, cmap, x, y).a == 1.0
    ensures Density(t, mode, x, y) == 1.0
  {
  }

  /** A single hit with no hit around it stays visible: its density is 0,
      so in heat mode it takes the colour at 0, but its alpha is 1. */
  lemma IsolatedHitVisible(w: nat, h: nat, mode: EdgeMode, cmap: real -> Rgb, x: nat, y: nat)
    requires x < w && y < h
    requires AwayFromEdge(mode, x, w) && AwayFromEdge(mode, y, h)
    ensures Density(Uniform(w, h, 0.0).Set(x, y, 1.0), mode, x, y) == 0.0
    ensures TrailPixel(Uniform(w, h, 0.0).Set(x, y, 1.0), mode, true, cmap, x, y) == Rgba(cmap(0.0), 1.0)
  {
    var zero := Uniform(w, h, 0.0);
    ZeroStateTransparent(zero, mode, true, cmap, x, y);
    DensityIgnoresCentre(zero, mode, x, y, 1.0);
  }

  // ---------------------------------------------------------------------
  // initPingPong: the resources
  // ---------------------------------------------------------------------

  /** What initPingPong allocates and returns: two cleared render targets
      and the mask, all of (width * pr) x (height * pr) texels, and the
      trail material's heat flag. `width` and `height` are the logical
      video size, returned as given. */
  class PingPongResources {
    const width: nat
    const height: nat
    const pr: nat
    const maskWidth: nat
    const maskHeight: nat
    const rtA: array<real>
    const rtB: array<real>
    const mask: array<real>
    var maskNeedsUpdate: bool
    /** trailMat.uniforms.uHeat */
    var heat: bool

    constructor (width: nat, height: nat, pr: nat)
      ensures this.width == width && this.height == height && this.pr == pr
      ensures maskWidth == width * pr && maskHeight == height * pr
      ensures mask.Length == MaskSize(width, height, pr) == maskWidth * maskHeight
      ensures rtA.Length == maskWidth * maskHeight && rtB.Length == maskWidth * maskHeight
      ensures fresh(rtA) && fresh(rtB) && fresh(mask)
      ensures rtA != rtB && mask != rtA && mask != rtB
      ensures rtA[..] == Zeros(rtA.Length) && rtB[..] == Zeros(rtB.Length)
      ensures mask[..] == Zeros(mask.Length)
      ensures maskNeedsUpdate && !heat
    {
      this.width, this.height, this.pr := width, height, pr;
      maskWidth, maskHeight := width * pr, height * pr;
      var n := MaskSize(width, height, pr);
      rtA := new real[(width * pr) * (height * pr)](_ => 0.0);
      rtB := new real[(width * pr) * (height * pr)](_ => 0.0);
      mask := new real[n](_ => 0.0);
      maskNeedsUpdate := true;
      heat := false;
    }

    /** The heat checkbox's change listener. */
    method OnHeatToggle(checked: bool)
      modifies this`heat
      ensures heat == checked
    {
      heat := checked;
    }
  }
}
