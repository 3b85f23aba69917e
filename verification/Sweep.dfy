// The frame loop and the sweep of the Control-room probe (perf/fixtures/controlRoom/probe.ts): the mosaic scrolls back
// and forth a step a frame, and the times between frames are collected.
module Sweep {
  import opened Options

  // ---- One step of the sweep ----

  datatype Direction = Right | Left

  datatype Scroll = Scroll(left: real, direction: Direction)

  function Min(a: real, b: real): real { if a < b then a else b }

  function Max(a: real, b: real): real { if a > b then a else b }

  // `direction * px` and `-direction`, the direction being 1 or -1 in the source.
  function Signed(direction: Direction, px: real): real {
    match direction
    case Right => px
    case Left => -px
  }

  function Flip(direction: Direction): Direction {
    match direction
    case Right => Left
    case Left => Right
  }

  // The scroll after one more frame, `max` being the furthest position and `px` the step.
  function Step(s: Scroll, max: real, px: real): Scroll {
    var next := s.left + Signed(s.direction, px);
    if next >= max || next <= 0.0 then Scroll(Min(max, Max(0.0, next)), Flip(s.direction)) else Scroll(next, s.direction)
  }

  function Steps(s: Scroll, max: real, px: real, k: nat): Scroll {
    if k == 0 then s else Step(Steps(s, max, px, k - 1), max, px)
  }

  // From wherever it is, the scroll stays in range and moves at most one step.
  lemma {:induction false} StepsStayInRange(s: Scroll, max: real, px: real, k: nat)
    requires max > 0.0 && px > 0.0
    requires 0.0 <= s.left <= max
    ensures var r, after := Steps(s, max, px, k), Steps(s, max, px, k + 1);
            && 0.0 <= r.left <= max
            && 0.0 <= after.left <= max
            && -px <= after.left - r.left <= px
  {
    if k > 0 {
      StepsStayInRange(s, max, px, k - 1);
    }
    StepStaysInRange(Steps(s, max, px, k), max, px);
  }

  lemma StepStaysInRange(s: Scroll, max: real, px: real)
    requires max > 0.0 && px > 0.0
    requires 0.0 <= s.left <= max
    ensures var r := Step(s, max, px);
            && 0.0 <= r.left <= max
            && -px <= r.left - s.left <= px
  {
  }

  // The way `i` steps go, which is `i * px`.
  function Way(i: nat, px: real): real {
    if i == 0 then 0.0 else Way(i - 1, px) + px
  }

  lemma {:induction false} WayIsProduct(i: nat, px: real)
    ensures Way(i, px) == i as real * px
  {
    if i > 0 {
      WayIsProduct(i - 1, px);
      var before := (i - 1) as real;
      assert i as real == before + 1.0;
      assert (before + 1.0) * px == before * px + px;
    } else {
      assert 0 as real * px == 0.0;
    }
  }

  lemma {:induction false} WayGrows(i: nat, j: nat, px: real)
    requires i <= j && px > 0.0
    ensures Way(i, px) <= Way(j, px)
  {
    if i < j {
      WayGrows(i, j - 1, px);
    }
  }

  // How many steps reach the far edge: `ceil(max / px)`.
  function Reach(max: real, px: real): (n: nat)
    requires max > 0.0 && px > 0.0
    ensures n > 0 && Way(n - 1, px) < max <= Way(n, px)
    ensures (n - 1) as real < max / px <= n as real
  {
    var r := max / px;
    var q := r.Floor;
    assert q as real <= r < q as real + 1.0;
    var n := if q as real == r then q else q + 1;
    Quotient(max, px);
    assert n > 0;
    ScaleUp(n, r, max, px);
    n
  }

  lemma Quotient(max: real, px: real)
    requires max > 0.0 && px > 0.0
    ensures max / px > 0.0 && (max / px) * px == max
  {
    var r := max / px;
    assert r * px == max;
    Scale(r, 0.0, px);
    assert 0.0 * px == 0.0;
  }

  lemma ScaleUp(n: nat, r: real, max: real, px: real)
    requires px > 0.0 && n > 0 && r * px == max
    requires (n - 1) as real < r <= n as real
    ensures Way(n - 1, px) < max <= Way(n, px)
  {
    var low, high := (n - 1) as real, n as real;
    WayIsProduct(n - 1, px);
    WayIsProduct(n, px);
    Scale(low, r, px);
    Scale(r, high, px);
    assert Way(n - 1, px) == low * px && Way(n, px) == high * px;
    assert low * px < r * px <= high * px;
  }

  lemma Scale(a: real, b: real, px: real)
    requires px > 0.0
    ensures a <= b ==> a * px <= b * px
    ensures a < b ==> a * px < b * px
  {
  }

  // The scroll at a phase of the wave that reaches the far edge in `n` steps.
  function AtPhase(max: real, px: real, n: nat, phase: nat): Scroll {
    if phase < n then Scroll(Way(phase, px), Right) else Scroll(Max(0.0, max - Way(phase - n, px)), Left)
  }

  // The triangle wave: up in steps of `px` to the far edge, and down again, clamped at both edges, over and over.
  function Wave(max: real, px: real, k: nat): Scroll
    requires max > 0.0 && px > 0.0
  {
    var n := Reach(max, px);
    AtPhase(max, px, n, k % (2 * n))
  }

  lemma Multiples(a: int, b: int, m: nat)
    requires a <= b
    ensures m * a <= m * b
  {
  }

  lemma ModUnique(k: nat, m: nat, q: int, r: nat)
    requires m > 0 && r < m && k == m * q + r
    ensures k % m == r
  {
    var e := k / m;
    assert k == m * e + k % m;
    assert m * (q + 1) == m * q + m && m * (e + 1) == m * e + m;
    if q < e {
      Multiples(q + 1, e, m);
    } else if q > e {
      Multiples(e + 1, q, m);
    }
  }

  lemma NextPhase(k: nat, m: nat)
    requires m > 0
    ensures (k + 1) % m == if k % m == m - 1 then 0 else k % m + 1
  {
    assert k == m * (k / m) + k % m;
    if k % m == m - 1 {
      assert k + 1 == m * (k / m + 1);
      ModUnique(k + 1, m, k / m + 1, 0);
    } else {
      ModUnique(k + 1, m, k / m, k % m + 1);
    }
  }

  lemma StepUp(max: real, px: real, n: nat, phase: nat)
    requires max > 0.0 && px > 0.0 && phase < n
    requires Way(n - 1, px) < max <= Way(n, px)
    ensures Step(AtPhase(max, px, n, phase), max, px) == AtPhase(max, px, n, phase + 1)
  {
    WayGrows(0, phase, px);
    if phase + 1 < n {
      WayGrows(phase + 1, n - 1, px);
    }
  }

  lemma StepDown(max: real, px: real, n: nat, phase: nat)
    requires max > 0.0 && px > 0.0 && n <= phase < 2 * n
    requires Way(n - 1, px) < max <= Way(n, px)
    ensures Step(AtPhase(max, px, n, phase), max, px) == AtPhase(max, px, n, if phase + 1 == 2 * n then 0 else phase + 1)
  {
    var down := phase - n;
    WayGrows(0, down, px);
    WayGrows(down, n - 1, px);
    assert phase + 1 - n == down + 1;
    if down + 1 < n {
      WayGrows(down + 1, n - 1, px);
    }
  }

  lemma WaveStep(max: real, px: real, k: nat)
    requires max > 0.0 && px > 0.0
    ensures Step(Wave(max, px, k), max, px) == Wave(max, px, k + 1)
  {
    var n := Reach(max, px);
    NextPhase(k, 2 * n);
    if k % (2 * n) < n {
      StepUp(max, px, n, k % (2 * n));
    } else {
      StepDown(max, px, n, k % (2 * n));
    }
  }

  // From the left edge the sweep is the triangle wave.
  lemma {:induction false} SweepIsTriangleWave(max: real, px: real, k: nat)
    requires max > 0.0 && px > 0.0
    ensures Steps(Scroll(0.0, Right), max, px, k) == Wave(max, px, k)
  {
    if k > 0 {
      SweepIsTriangleWave(max, px, k - 1);
      WaveStep(max, px, k - 1);
    } else {
      WaveStarts(max, px);
    }
  }

  lemma WaveStarts(max: real, px: real)
    requires max > 0.0 && px > 0.0
    ensures Wave(max, px, 0) == Scroll(0.0, Right)
  {
    ModUnique(0, 2 * Reach(max, px), 0, 0);
  }

  // Its period is twice the steps the far edge takes, and half way through it is at that edge.
  lemma WaveIsPeriodic(max: real, px: real, k: nat)
    requires max > 0.0 && px > 0.0
    ensures Wave(max, px, k + 2 * Reach(max, px)) == Wave(max, px, k)
    ensures Wave(max, px, Reach(max, px)) == Scroll(max, Left)
  {
    var m := 2 * Reach(max, px);
    assert k == m * (k / m) + k % m;
    assert m * (k / m + 1) == m * (k / m) + m;
    ModUnique(k + m, m, k / m + 1, k % m);
    ModUnique(Reach(max, px), m, 0, Reach(max, px));
  }

  // ---- The frame loop ----

  // The time from each frame to the next.
  function Differences(times: seq<real>): (r: seq<real>)
    ensures |r| == if times == [] then 0 else |times| - 1
    ensures forall i {:trigger r[i]} | 0 <= i < |r| :: r[i] == times[i + 1] - times[i]
  {
    if times == [] then [] else seq(|times| - 1, i requires 0 <= i < |times| - 1 => times[i + 1] - times[i])
  }

  lemma NextDifference(times: seq<real>, now: real)
    ensures Differences(times + [now]) ==
            if times == [] then [] else Differences(times) + [now - times[|times| - 1]]
  {
  }

  function Sum(deltas: seq<real>): real {
    if deltas == [] then 0.0 else Sum(deltas[..|deltas| - 1]) + deltas[|deltas| - 1]
  }

  // The times between frames add up to the time from the first frame to the last.
  lemma {:induction false} DeltasTelescope(times: seq<real>)
    requires times != []
    ensures Sum(Differences(times)) == times[|times| - 1] - times[0]
  {
    if |times| > 1 {
      var n := |times| - 1;
      DeltasTelescope(times[..n]);
      assert Differences(times)[..n - 1] == Differences(times[..n]);
    }
  }

  // No frame is `ms` past the first yet.
  ghost predicate Running(times: seq<real>, ms: real) {
    forall i | 0 <= i < |times| :: times[i] < times[0] + ms
  }

  // A sweep under way: the loop's own variables, and the scroll its step moves.
  class SweepLoop {
    const ms: real
    const max: real
    const px: real
    var animationFrames: nat
    var last: Option<real>
    var end: Option<real>
    var deltas: seq<real>
    var scroll: Scroll
    var settled: bool
    // The times of the frames so far, and how often `step` ran.
    ghost var times: seq<real>
    ghost var steps: nat
    ghost const start: Scroll
    ghost const before: nat

    // What the frames so far left in the loop's variables.
    ghost predicate Measured()
      reads this
    {
      && deltas == Differences(times)
      && animationFrames == before + |times|
      && last == (if times == [] then None else Some(times[|times| - 1]))
      && end == if times == [] then None else Some(times[0] + ms)
    }

    // Whether the last frame is `ms` past the first, which no frame before it was; and the steps taken.
    ghost predicate Valid()
      reads this
    {
      && Measured()
      && scroll == Steps(start, max, px, steps)
      && steps == (if settled then |times| - 1 else |times|)
      && if settled then
           times != [] && times[steps] >= times[0] + ms && Running(times[..steps], ms)
         else Running(times, ms)
    }

    constructor (ms: real, max: real, px: real, left: real, animationFrames: nat)
      ensures Valid() && times == [] && start == Scroll(left, Right) && before == animationFrames
      ensures this.ms == ms && this.max == max && this.px == px
    {
      this.ms, this.max, this.px := ms, max, px;
      this.animationFrames := animationFrames;
      last, end, deltas, settled := None, None, [], false;
      scroll := Scroll(left, Right);
      times, steps := [], 0;
      start, before := Scroll(left, Right), animationFrames;
    }

    // One animation frame. The loop settles at the first frame that is `ms` past the first, with as many steps as
    // deltas.
    method Frame(now: real)
      requires Valid() && !settled
      modifies this
      ensures Valid() && times == old(times) + [now]
      ensures settled ==> |deltas| == steps && Sum(deltas) == now - times[0] >= ms
    {
      ghost var was := times;
      Measure(now);
      assert times[..|was|] == was;
      if now >= end.value {
        settled := true;
        DeltasTelescope(times);
        return;
      }
      Move();
    }

    // The sweep's `step`.
    method Move()
      requires scroll == Steps(start, max, px, steps)
      modifies this`scroll, this`steps
      ensures scroll == Steps(start, max, px, steps) && steps == old(steps) + 1
    {
      scroll := Step(scroll, max, px);
      steps := steps + 1;
    }

    // The part of the frame that keeps the times.
    method Measure(now: real)
      requires Measured()
      modifies this`animationFrames, this`last, this`end, this`deltas, this`times
      ensures Measured() && times == old(times) + [now]
    {
      NextDifference(times, now);
      ghost var more := times + [now];
      assert more[|more| - 1] == now && more[0] == if times == [] then now else times[0];
      animationFrames := animationFrames + 1;
      if last.Some? {
        deltas := deltas + [now - last.value];
      }
      last := Some(now);
      if end.None? {
        end := Some(now + ms);
      }
      times := more;
    }
  }
}
