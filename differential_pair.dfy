/** The differential-pair generator: two meandering traces on the signal
    layer "L03_SIG1", one per net, whose centre lines are the same zig-zag
    started at heights +(w + gap) / 2 and -(w + gap) / 2. Coordinates are
    exact reals: the model states the geometry the recurrence means, not
    the rounding of Python floats. */
module DifferentialPair {
  import opened EdbApi

  const SignalLayer := "L03_SIG1"
  const PositiveNet := "diff_p"
  const NegativeNet := "diff_n"
  const StartX: real := 0.0
  const StartY: real := 0.0

  /** The command-line values the generator reads: trace width, gap between
      the traces, meander height and the number of meanders. */
  datatype PairParams = PairParams(width: real, gap: real, intraHeight: real, intraCount: int)

  /** How many times Python's `range(n)` runs: never when n <= 0. */
  function Repeats(n: int): nat {
    if n < 0 then 0 else n
  }

  /** Point `j` of a meander started at height `offset` with step `h`, in
      closed form: after the start point, meander k contributes the four
      corners (2kh + h, offset), (2kh + h, offset + h), (2kh + 2h, offset + h)
      and (2kh + 2h, offset). */
  function MeanderPoint(offset: real, h: real, j: nat): Point {
    if j == 0 then Point(StartX, StartY + offset)
    else
      var k := (j - 1) / 4;
      var x0 := StartX + 2.0 * (k as real) * h;
      var corner := (j - 1) % 4;
      if corner == 0 then Point(x0 + h, StartY + offset)
      else if corner == 1 then Point(x0 + h, StartY + offset + h)
      else if corner == 2 then Point(x0 + 2.0 * h, StartY + offset + h)
      else Point(x0 + 2.0 * h, StartY + offset)
  }

  /** The whole centre line for `n` meanders. */
  function Meander(offset: real, h: real, n: int): seq<Point> {
    seq(4 * Repeats(n) + 1, (j: int) requires 0 <= j => MeanderPoint(offset, h, j))
  }

  /** The four corners of meander k. */
  lemma Corners(offset: real, h: real, k: nat)
    ensures var x0 := StartX + 2.0 * (k as real) * h;
      && MeanderPoint(offset, h, 4 * k + 1) == Point(x0 + h, StartY + offset)
      && MeanderPoint(offset, h, 4 * k + 2) == Point(x0 + h, StartY + offset + h)
      && MeanderPoint(offset, h, 4 * k + 3) == Point(x0 + 2.0 * h, StartY + offset + h)
      && MeanderPoint(offset, h, 4 * k + 4) == Point(x0 + 2.0 * h, StartY + offset)
  {
    assert (4 * k + 1 - 1) / 4 == k && (4 * k + 1 - 1) % 4 == 0;
    assert (4 * k + 2 - 1) / 4 == k && (4 * k + 2 - 1) % 4 == 1;
    assert (4 * k + 3 - 1) / 4 == k && (4 * k + 3 - 1) % 4 == 2;
    assert (4 * k + 4 - 1) / 4 == k && (4 * k + 4 - 1) % 4 == 3;
  }

  /** create_trace(offset): starting at (StartX, StartY + offset), each of
      the n meanders steps right, up, right and down by h, and every point
      reached is appended. */
  method CreateTrace(offset: real, h: real, n: int) returns (pts: seq<Point>)
    ensures pts == Meander(offset, h, n)
  {
    var x := StartX;
    var y := StartY + offset;
    pts := [Point(x, y)];
    var i := 0;
    while i < n
      invariant 0 <= i <= Repeats(n)
      invariant |pts| == 4 * i + 1
      invariant x == StartX + 2.0 * (i as real) * h && y == StartY + offset
      invariant forall j :: 0 <= j < |pts| ==> pts[j] == MeanderPoint(offset, h, j)
    {
      Corners(offset, h, i);
      x := x + h;
      pts := pts + [Point(x, y)];
      y := y + h;
      pts := pts + [Point(x, y)];
      x := x + h;
      pts := pts + [Point(x, y)];
      y := y - h;
      pts := pts + [Point(x, y)];
      i := i + 1;
    }
  }

  /** The trace at height +(w + gap) / 2, for net "diff_p". */
  function PositivePath(p: PairParams): seq<Point> {
    Meander((p.width + p.gap) / 2.0, p.intraHeight, p.intraCount)
  }

  /** The trace at height -(w + gap) / 2, for net "diff_n". */
  function NegativePath(p: PairParams): seq<Point> {
    Meander(-(p.width + p.gap) / 2.0, p.intraHeight, p.intraCount)
  }

  /** The two create_trace calls, positive net first, both of width w. */
  function PairTraces(p: PairParams): seq<Trace> {
    [Trace(PositivePath(p), SignalLayer, p.width, PositiveNet),
     Trace(NegativePath(p), SignalLayer, p.width, NegativeNet)]
  }

  /** add_differential_pair: without the library it returns at once;
      otherwise it draws the two traces, positive net first. */
  method AddDifferentialPair(edb: Edb, edbAvailable: bool, p: PairParams)
    modifies edb
    ensures !edbAvailable ==> edb.Snapshot() == old(edb.Snapshot())
    ensures edbAvailable ==> edb.Snapshot() == old(edb.Snapshot()).(traces := old(edb.traces) + PairTraces(p))
  {
    if !edbAvailable {
      return;
    }
    var w := p.width;
    var gap := p.gap;
    var posPts := CreateTrace((w + gap) / 2.0, p.intraHeight, p.intraCount);
    var negPts := CreateTrace(-(w + gap) / 2.0, p.intraHeight, p.intraCount);
    edb.CreateTrace(posPts, SignalLayer, w, PositiveNet);
    edb.CreateTrace(negPts, SignalLayer, w, NegativeNet);
  }

  /** One step of the zig-zag from point j: right, up, right, down by h
      for j mod 4 = 0, 1, 2, 3. */
  function Move(pt: Point, j: nat, h: real): Point {
    match j % 4
    case 0 => Point(pt.x + h, pt.y)
    case 1 => Point(pt.x, pt.y + h)
    case 2 => Point(pt.x + h, pt.y)
    case _ => Point(pt.x, pt.y - h)
  }

  /** The closed form is the recurrence of create_trace: each point is the
      previous one moved by the step its position calls for. */
  lemma MeanderSteps(offset: real, h: real, n: int, j: nat)
    requires j < 4 * Repeats(n)
    ensures Meander(offset, h, n)[j + 1] == Move(Meander(offset, h, n)[j], j, h)
  {
    assert Meander(offset, h, n)[j] == MeanderPoint(offset, h, j);
    assert Meander(offset, h, n)[j + 1] == MeanderPoint(offset, h, j + 1);
    PointStep(offset, h, j);
  }

  /** The recurrence on the closed form, point by point. */
  lemma PointStep(offset: real, h: real, j: nat)
    ensures MeanderPoint(offset, h, j + 1) == Move(MeanderPoint(offset, h, j), j, h)
  {
    var k := j / 4;
    var r := j % 4;
    assert j == 4 * k + r;
    if r == 0 {
      RightFromBase(offset, h, k);
    } else {
      WithinMeander(offset, h, k, r);
    }
  }

  /** From the start, or from the last corner of meander k - 1, the trace
      steps right to the first corner of meander k. */
  lemma RightFromBase(offset: real, h: real, k: nat)
    ensures MeanderPoint(offset, h, 4 * k + 1) == Move(MeanderPoint(offset, h, 4 * k), 4 * k, h)
  {
    var x := StartX + 2.0 * (k as real) * h;
    Corners(offset, h, k);
    assert (4 * k) % 4 == 0;
    if k > 0 {
      Corners(offset, h, k - 1);
      assert 4 * (k - 1) + 4 == 4 * k;
      AcrossNext(h, k - 1);
    }
    assert MeanderPoint(offset, h, 4 * k) == Point(x, StartY + offset);
  }

  /** Inside meander k the trace steps up, right, then down. */
  lemma WithinMeander(offset: real, h: real, k: nat, r: nat)
    requires 1 <= r <= 3
    ensures MeanderPoint(offset, h, 4 * k + r + 1) == Move(MeanderPoint(offset, h, 4 * k + r), 4 * k + r, h)
  {
    Corners(offset, h, k);
    assert (4 * k + r) % 4 == r;
  }

  /** Meander k starts 2h to the right of meander k - 1. */
  lemma AcrossNext(h: real, k: nat)
    ensures StartX + 2.0 * (k as real) * h + 2.0 * h == StartX + 2.0 * ((k + 1) as real) * h
  {
  }

  /** The trace has 4n + 1 points (one when n <= 0), starts at
      (StartX, StartY + offset) and ends back at that height, 2nh further right. */
  lemma MeanderEnds(offset: real, h: real, n: int)
    ensures |Meander(offset, h, n)| == 4 * Repeats(n) + 1
    ensures Meander(offset, h, n)[0] == Point(StartX, StartY + offset)
    ensures Meander(offset, h, n)[4 * Repeats(n)] ==
      Point(StartX + 2.0 * (Repeats(n) as real) * h, StartY + offset)
  {
    if n > 0 {
      Corners(offset, h, Repeats(n) - 1);
    }
  }

  /** Every point lies on the base line or one meander height above it. */
  lemma MeanderHeights(offset: real, h: real, n: int, j: nat)
    requires j < |Meander(offset, h, n)|
    ensures Meander(offset, h, n)[j].y in {StartY + offset, StartY + offset + h}
  {
    if j > 0 {
      var k := (j - 1) / 4;
      assert j == 4 * k + (j - 1) % 4 + 1;
      Corners(offset, h, k);
    }
  }

  /** With a non-negative height the trace never runs left: x never
      decreases along it. */
  lemma {:induction false} MeanderRightward(offset: real, h: real, n: int, i: nat, j: nat)
    requires h >= 0.0
    requires i <= j < |Meander(offset, h, n)|
    ensures Meander(offset, h, n)[i].x <= Meander(offset, h, n)[j].x
    decreases j - i
  {
    if i < j {
      MeanderSteps(offset, h, n, j - 1);
      MeanderRightward(offset, h, n, i, j - 1);
    }
  }

  /** The two traces of the pair have as many points, share every x, and
      are w + gap apart vertically at every point: the negative trace is the
      positive one moved down by w + gap. */
  lemma PairTranslated(p: PairParams, j: nat)
    requires j < |PositivePath(p)|
    ensures |PositivePath(p)| == |NegativePath(p)|
    ensures PositivePath(p)[j].x == NegativePath(p)[j].x
    ensures PositivePath(p)[j].y - NegativePath(p)[j].y == p.width + p.gap
  {
    var a := (p.width + p.gap) / 2.0;
    var b := -(p.width + p.gap) / 2.0;
    if j > 0 {
      var k := (j - 1) / 4;
      assert j == 4 * k + (j - 1) % 4 + 1;
      Corners(a, p.intraHeight, k);
      Corners(b, p.intraHeight, k);
    }
  }

  /** The traces start mirrored about y = StartY, at +(w + gap) / 2 and
      -(w + gap) / 2 ... */
  lemma PairStartsMirrored(p: PairParams)
    ensures PositivePath(p)[0].y - StartY == -(NegativePath(p)[0].y - StartY) == (p.width + p.gap) / 2.0
  {
  }

  /** ... but, the meander going up in both, the second corner is not
      mirrored once the height is not zero: the pair is a translated copy,
      not a reflection. With w = 0.2, gap = 0.1, height 0.5 and two meanders
      the corners are at heights 0.65 and 0.35. */
  lemma PairNotReflected(p: PairParams)
    requires p.intraHeight != 0.0 && p.intraCount >= 1
    ensures PositivePath(p)[2].y - StartY != -(NegativePath(p)[2].y - StartY)
  {
    Corners((p.width + p.gap) / 2.0, p.intraHeight, 0);
    Corners(-(p.width + p.gap) / 2.0, p.intraHeight, 0);
  }
}
