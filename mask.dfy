/** The mask buffer: a row-major grid of float cells into which batches of
    detections are written. Two policies exist in the program: the
    persistent mask of app.js (bounds-checked, never cleared) and the
    ephemeral mask of simulationManager.js (cleared at every batch, written
    without a bounds check). */
module Mask {

  /** A detection reported by the feed, in grid pixel coordinates. */
  datatype Detection = Detection(x: int, y: int)

  /** The bounds test that app.js applies before writing a detection. */
  predicate InBounds(d: Detection, width: int, height: int)
  {
    0 <= d.x < width && 0 <= d.y < height
  }

  /** The row-major cell a detection names, with `width` as row stride. */
  function Index(d: Detection, width: int): int
  {
    d.y * width + d.x
  }

  /** A non-zero multiple of a positive width is at least that width away
      from zero. */
  lemma MultipleOfWidth(k: int, width: int)
    requires width > 0
    ensures k >= 1 ==> k * width >= width
    ensures k <= -1 ==> k * width <= -width
  {
    if k >= 1 {
      assert k * width == (k - 1) * width + width;
    } else if k <= -1 {
      assert k * width == (k + 1) * width - width;
    }
  }

  /** Two detections with columns inside the grid name the same cell only
      when they are the same point. */
  lemma IndexInjective(a: Detection, b: Detection, width: int)
    requires 0 <= a.x < width && 0 <= b.x < width
    requires Index(a, width) == Index(b, width)
    ensures a == b
  {
    var k := a.y - b.y;
    assert k * width == a.y * width - b.y * width;
    MultipleOfWidth(k, width);
  }

  /** A cell of a row below `height` lies inside the first height * width
      cells. */
  lemma IndexBelowArea(d: Detection, width: int, height: int)
    requires InBounds(d, width, height)
    ensures 0 <= Index(d, width) < width * height
  {
    assert (d.y + 1) * width == d.y * width + width;
    assert height * width == (height - (d.y + 1)) * width + (d.y + 1) * width;
    assert d.y * width >= 0;
    assert (height - (d.y + 1)) * width >= 0;
  }

  /** All-zero buffer, the content of a fresh Float32Array or of one after
      `fill(0)`. */
  function Zeros(n: nat): (r: seq<real>)
    ensures |r| == n
    ensures forall i :: 0 <= i < n ==> r[i] == 0.0
  {
    seq(n, _ => 0.0)
  }

  /** A store into a Float32Array: an index outside the buffer (negative or
      past the end) is silently ignored; every other cell keeps its value. */
  function Store(data: seq<real>, i: int, v: real): (r: seq<real>)
    ensures |r| == |data|
    ensures forall j :: 0 <= j < |r| ==> r[j] == if j == i then v else data[j]
  {
    if 0 <= i < |data| then data[i := v] else data
  }

  // ---------------------------------------------------------------------
  // Persistent-mask policy (app.js)
  // ---------------------------------------------------------------------

  /** Some in-bounds detection of the batch names cell `i`. */
  ghost predicate MarkedBy(objects: seq<Detection>, width: int, height: int, i: int)
  {
    exists k :: 0 <= k < |objects| && InBounds(objects[k], width, height) && Index(objects[k], width) == i
  }

  /** One iteration of the marking loop: an in-bounds detection sets its
      cell to 1.0, an out-of-range one is dropped. */
  function Mark(data: seq<real>, width: int, height: int, d: Detection): seq<real>
  {
    if InBounds(d, width, height) then Store(data, Index(d, width), 1.0) else data
  }

  /** The mask after the marking loop has run over a batch, in order. A cell
      becomes 1.0 exactly when an in-bounds detection names it; every other
      cell, including one already at 1.0, keeps its value: nothing is ever
      cleared. */
  function ApplyDetections(data: seq<real>, width: int, height: int, objects: seq<Detection>): (r: seq<real>)
    ensures |r| == |data|
    ensures forall i :: 0 <= i < |r| ==>
      r[i] == if MarkedBy(objects, width, height, i) then 1.0 else data[i]
    decreases |objects|
  {
    if objects == [] then data
    else
      var front, last := objects[..|objects| - 1], objects[|objects| - 1];
      var before := ApplyDetections(data, width, height, front);
      var r := Mark(before, width, height, last);
      assert forall i :: MarkedBy(objects, width, height, i) <==>
        MarkedBy(front, width, height, i) || (InBounds(last, width, height) && Index(last, width) == i)
      by {
        forall i ensures MarkedBy(objects, width, height, i) ==>
          MarkedBy(front, width, height, i) || (InBounds(last, width, height) && Index(last, width) == i)
        {
          if MarkedBy(objects, width, height, i) {
            var k :| 0 <= k < |objects| && InBounds(objects[k], width, height) && Index(objects[k], width) == i;
            if k < |front| { assert front[k] == objects[k]; }
          }
        }
        forall i | MarkedBy(front, width, height, i)
          ensures MarkedBy(objects, width, height, i)
        {
          var k :| 0 <= k < |front| && InBounds(front[k], width, height) && Index(front[k], width) == i;
          assert objects[k] == front[k];
        }
        forall i | InBounds(last, width, height) && Index(last, width) == i
          ensures MarkedBy(objects, width, height, i)
        {
          assert objects[|objects| - 1] == last;
        }
      }
      r
  }

  /** A detection with a coordinate outside the grid writes nothing. */
  lemma OutOfRangeWritesNothing(data: seq<real>, width: int, height: int, objects: seq<Detection>, d: Detection)
    requires !InBounds(d, width, height)
    ensures ApplyDetections(data, width, height, objects + [d]) == ApplyDetections(data, width, height, objects)
  {
    assert (objects + [d])[..|objects|] == objects;
  }

  /** Two batches applied one after the other leave the same mask as the
      single batch made of both: batches that arrive between two frames
      coalesce and neither is lost. */
  lemma {:induction false} Coalescing(data: seq<real>, width: int, height: int, b1: seq<Detection>, b2: seq<Detection>)
    ensures ApplyDetections(ApplyDetections(data, width, height, b1), width, height, b2)
         == ApplyDetections(data, width, height, b1 + b2)
    decreases |b2|
  {
    if b2 == [] {
      assert b1 + b2 == b1;
    } else {
      var front, last := b2[..|b2| - 1], b2[|b2| - 1];
      Coalescing(data, width, height, b1, front);
      assert (b1 + b2)[..|b1 + b2| - 1] == b1 + front;
      assert (b1 + b2)[|b1 + b2| - 1] == last;
    }
  }

  /** Replaying a batch changes nothing: duplicate deliveries are harmless. */
  lemma ApplyDetectionsIdempotent(data: seq<real>, width: int, height: int, objects: seq<Detection>)
    ensures ApplyDetections(ApplyDetections(data, width, height, objects), width, height, objects)
         == ApplyDetections(data, width, height, objects)
  {
    var once := ApplyDetections(data, width, height, objects);
    var twice := ApplyDetections(once, width, height, objects);
    assert forall i :: 0 <= i < |twice| ==> twice[i] == once[i];
  }

  // ---------------------------------------------------------------------
  // Ephemeral-mask policy (simulationManager.js)
  // ---------------------------------------------------------------------

  /** Some detection of the batch, in bounds or not, names cell `i`. */
  ghost predicate NamedBy(objects: seq<Detection>, width: int, i: int)
  {
    exists k :: 0 <= k < |objects| && Index(objects[k], width) == i
  }

  /** The mask of `n` cells after `fill(0)` and the unchecked marking loop:
      a cell is 1.0 exactly when some detection of this batch names it, and
      0.0 otherwise; past batches leave no trace. */
  function FillMask(n: nat, width: int, objects: seq<Detection>): (r: seq<real>)
    ensures |r| == n
    ensures forall i :: 0 <= i < n ==> r[i] == if NamedBy(objects, width, i) then 1.0 else 0.0
    decreases |objects|
  {
    if objects == [] then Zeros(n)
    else
      var front, last := objects[..|objects| - 1], objects[|objects| - 1];
      var r := Store(FillMask(n, width, front), Index(last, width), 1.0);
      assert forall i :: NamedBy(objects, width, i) <==> NamedBy(front, width, i) || Index(last, width) == i
      by {
        forall i ensures NamedBy(objects, width, i) ==> NamedBy(front, width, i) || Index(last, width) == i
        {
          if NamedBy(objects, width, i) {
            var k :| 0 <= k < |objects| && Index(objects[k], width) == i;
            if k < |front| { assert front[k] == objects[k]; }
          }
        }
        forall i | NamedBy(front, width, i) ensures NamedBy(objects, width, i)
        {
          var k :| 0 <= k < |front| && Index(front[k], width) == i;
          assert objects[k] == front[k];
        }
        forall i | Index(last, width) == i ensures NamedBy(objects, width, i)
        {
          assert objects[|objects| - 1] == last;
        }
      }
      r
  }

  /** Without the bounds check, a detection one column past the right edge
      lands on the first cell of the next row instead of being dropped. */
  lemma UncheckedColumnWrapsToNextRow(n: nat, width: nat, y: nat)
    requires (y + 1) * width < n
    ensures FillMask(n, width, [Detection(width, y)])[(y + 1) * width] == 1.0
    ensures !InBounds(Detection(width, y), width, y + 1)
  {
    var d := Detection(width, y);
    assert Index([d][0], width) == (y + 1) * width;
  }
}
