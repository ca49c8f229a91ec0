/** The viewport mapper: the scale factors that letterbox the video plane
    (and the trail overlay drawn over it) inside the window without
    distorting the video's aspect ratio. */
module Viewport {

  /** The (x, y) scale applied to a 2x2 full-screen plane. */
  datatype Scale = Scale(sx: real, sy: real)

  /** A mesh scale as Three.js stores it. */
  datatype Vec3 = Vec3(x: real, y: real, z: real)

  /** What a letterbox scale is, independently of how it is computed:
      both factors in (0, 1], at least one of them exactly 1, and the
      scaled plane has the video's aspect ratio on the screen
      (sa * sx / sy == va). */
  ghost predicate IsLetterbox(va: real, sa: real, s: Scale)
  {
    && 0.0 < s.sx <= 1.0
    && 0.0 < s.sy <= 1.0
    && (s.sx == 1.0 || s.sy == 1.0)
    && sa * s.sx == va * s.sy
  }

  /** Video aspect `va`, screen aspect `sa`. A screen wider than the video
      shrinks x; otherwise y shrinks. */
  function LetterboxScale(va: real, sa: real): (s: Scale)
    requires va > 0.0 && sa > 0.0
    ensures IsLetterbox(va, sa, s)
    ensures sa > va ==> s.sy == 1.0 && s.sx < 1.0
    ensures sa <= va ==> s.sx == 1.0
  {
    if sa > va then Scale(va / sa, 1.0) else Scale(1.0, sa / va)
  }

  /** The letterbox conditions determine the scale: the rule above is the
      only scale that keeps the aspect ratio and fills one axis. */
  lemma LetterboxScaleUnique(va: real, sa: real, s: Scale)
    requires va > 0.0 && sa > 0.0
    requires IsLetterbox(va, sa, s)
    ensures s == LetterboxScale(va, sa)
  {
    if s.sx == 1.0 {
      assert sa == va * s.sy;
      assert sa <= va;
      assert s.sy == sa / va;
    } else {
      assert s.sy == 1.0;
      assert va == sa * s.sx;
      assert s.sx < 1.0;
      assert sa > va;
      assert s.sx == va / sa;
    }
  }

  /** Two sample points: a square video on a 2:1 screen is halved in x, and
      a 16:9 video on a 4:3 screen keeps x and is scaled to 3/4 in y. */
  lemma LetterboxScaleExamples()
    ensures LetterboxScale(1.0, 2.0) == Scale(0.5, 1.0)
    ensures LetterboxScale(16.0 / 9.0, 4.0 / 3.0) == Scale(1.0, 0.75)
  {
    var va, sa := 16.0 / 9.0, 4.0 / 3.0;
    assert sa <= va;
    assert 0.75 * va == sa;
    assert LetterboxScale(va, sa) == Scale(1.0, sa / va);
  }
}
