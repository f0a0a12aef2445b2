/** The scanning line of the holographic overlay (src/components/HolographicOverlay.tsx): one
    closure variable, `position`, a percentage of the height, moved down half a percent per
    display frame and wrapped with the remainder operator. */
module HolographicOverlay {

  /** `Math.trunc`: the integer part, rounded toward zero. */
  function Trunc(q: real): (k: int)
    ensures 0.0 <= q ==> k as real <= q < k as real + 1.0
    ensures q < 0.0 ==> k as real - 1.0 < q <= k as real
  {
    if 0.0 <= q then q.Floor else -((-q).Floor)
  }

  /** JavaScript's `v % 100`: the remainder of truncating division by 100, carrying the sign
      of the dividend. */
  function Rem100(v: real): (r: real)
    ensures 0.0 <= v ==> 0.0 <= r < 100.0
    ensures v < 0.0 ==> -100.0 < r <= 0.0
    ensures 0.0 <= v < 100.0 ==> r == v
    ensures 100.0 <= v < 200.0 ==> r == v - 100.0
  {
    v - 100.0 * Trunc(v / 100.0) as real
  }

  /** One frame: `position = (position + 0.5) % 100`. */
  function Step(p: real): (r: real)
    ensures 0.0 <= p < 99.5 ==> r == p + 0.5
    ensures 99.5 <= p < 100.0 ==> r == p - 99.5
    ensures 0.0 <= p < 100.0 ==> 0.0 <= r < 100.0
  {
    Rem100(p + 0.5)
  }

  /** Where the line is after `n` frames from the start at 0: half a percent per frame, modulo
      two hundred frames. */
  function Position(n: nat): (r: real)
    ensures 0.0 <= r < 100.0
  {
    (n % 200) as real * 0.5
  }

  /** One frame moves the line from where `n` frames put it to where `n + 1` frames put it. */
  lemma StepPosition(n: nat)
    ensures Step(Position(n)) == Position(n + 1)
  {
    if n % 200 == 199 {
      assert (n + 1) % 200 == 0;
    } else {
      assert (n + 1) % 200 == n % 200 + 1;
    }
  }

  /** The position after `n` frames, computed frame by frame. */
  function Frames(n: nat): real
  {
    if n == 0 then 0.0 else Step(Frames(n - 1))
  }

  /** Frame by frame, the line follows the closed form: it stays in [0, 100), rises half a
      percent per frame, and wraps from 99.5 back to 0. */
  lemma {:induction false} FramesPosition(n: nat)
    ensures Frames(n) == Position(n)
  {
    if n > 0 {
      FramesPosition(n - 1);
      StepPosition(n - 1);
    }
  }

  /** The animation repeats every 200 frames. */
  lemma FramesPeriodic(n: nat)
    ensures Frames(n + 200) == Frames(n)
    ensures 0.0 <= Frames(n) < 100.0
  {
    FramesPosition(n);
    FramesPosition(n + 200);
    PositionPeriodic(n);
  }

  lemma PositionPeriodic(n: nat)
    ensures Position(n + 200) == Position(n)
  {
    assert (n + 200) % 200 == n % 200;
  }

  class ScanLine {
    var position: real
    ghost var frames: nat  // how many frames have run since the effect started

    ghost predicate Valid()
      reads this
    {
      position == Position(frames)
    }

    /** The effect starts with `let position = 0`. */
    constructor ()
      ensures Valid() && position == 0.0 && frames == 0
    {
      position := 0.0;
      frames := 0;
    }

    /** `animate`: one display frame. */
    method Animate()
      requires Valid()
      modifies this
      ensures Valid()
      ensures frames == old(frames) + 1
      ensures position == Step(old(position))
      ensures 0.0 <= position < 100.0
    {
      StepPosition(frames);
      position := Step(position);
      frames := frames + 1;
    }
  }
}
