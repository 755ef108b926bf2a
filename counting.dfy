/** Tick arithmetic of the refresh interrupt: the two counters it keeps,
    `refresh_stage` (1..18 once running, 0 at start-up) and the uint8
    `frames_count`, and closed forms for where they stand after n ticks. */
module Counting {

  /** The interrupt's counting rule on (stage, frames): step to the next
      stage, and on leaving stage 18 go back to 1 and count one frame down,
      as a uint8 (0 goes to 255). */
  function NextCounters(c: (int, int)): (r: (int, int))
    ensures 0 <= c.0 <= 18 ==> 1 <= r.0 <= 18
    ensures 0 <= c.1 < 256 ==> 0 <= r.1 < 256
  {
    if c.0 == 18 then (1, if c.1 == 0 then 255 else c.1 - 1) else (c.0 + 1, c.1)
  }

  /** The counters after n ticks from c. */
  function CountersAfter(c: (int, int), n: nat): (r: (int, int))
    ensures 0 <= c.0 <= 18 ==> 0 <= r.0 <= 18
    ensures 0 <= c.1 < 256 ==> 0 <= r.1 < 256
  {
    if n == 0 then c else NextCounters(CountersAfter(c, n - 1))
  }

  /** The stage reached after n ticks from stage s0 in 0..18 (n >= 1 when s0
      is the start-up value 0). */
  function StageAfter(s0: int, n: nat): (t: int)
  {
    (s0 - 1 + n) % 18 + 1
  }

  /** The number of 18 -> 1 wraps among n ticks from stage s0. */
  function WrapsAfter(s0: int, n: nat): (wraps: int)
  {
    (s0 - 1 + n) / 18
  }

  /** The stage that tick j (counted from 0) of a run from stage s0 moves to. */
  function Visited(s0: int, j: nat): (t: int)
    ensures 1 <= t <= 18
  {
    StageAfter(s0, j + 1)
  }

  /** The tick (counted from 0) at which a run from stage s0 first reaches
      stage t. */
  function TickOf(s0: int, t: int): (j: int)
    ensures 0 <= j < 18
  {
    (t - 1 - s0) % 18
  }

  /** Where the counters stand after n ticks from (s0, f), in closed form:
      at StageAfter(s0, n), with `frames` counted down once per wrap,
      modulo 256. */
  function ClosedForm(s0: int, f: int, n: nat): (c: (int, int))
  {
    (StageAfter(s0, n), (f - WrapsAfter(s0, n)) % 256)
  }

  lemma OneMoreTick(s0: int, m: nat)
    requires 0 <= s0 <= 18 && (1 <= s0 || 1 <= m)
    ensures 1 <= StageAfter(s0, m) <= 18
    ensures StageAfter(s0, m + 1) == (if StageAfter(s0, m) == 18 then 1 else StageAfter(s0, m) + 1)
    ensures WrapsAfter(s0, m + 1) == WrapsAfter(s0, m) + (if StageAfter(s0, m) == 18 then 1 else 0)
  {
  }

  /** Counting a frame down as a uint8 is subtracting one modulo 256. */
  lemma Decrement(f: int, w: int)
    requires 0 <= (f - w) % 256 < 256
    ensures (if (f - w) % 256 == 0 then 255 else (f - w) % 256 - 1) == (f - (w + 1)) % 256
  {
  }

  /** One application of the counting rule moves the closed form for m
      ticks to the closed form for m + 1. */
  lemma NextClosed(s0: int, f: int, m: nat)
    requires 0 <= s0 <= 18 && (1 <= s0 || 1 <= m)
    ensures NextCounters(ClosedForm(s0, f, m)) == ClosedForm(s0, f, m + 1)
  {
    OneMoreTick(s0, m);
    Decrement(f, WrapsAfter(s0, m));
  }

  /** The closed form of the counting rule: after n ticks from stage s0 in
      0..18 the stage is StageAfter(s0, n), and `frames` has been counted
      down once per wrap, modulo 256. */
  lemma {:induction false} CountersClosedForm(s0: int, f: int, n: nat)
    requires 0 <= s0 <= 18 && 0 <= f < 256 && (1 <= s0 || 1 <= n)
    ensures CountersAfter((s0, f), n) == ClosedForm(s0, f, n)
  {
    if n == 0 {
      assert f % 256 == f;
    } else if n == 1 {
      assert CountersAfter((s0, f), 0) == (s0, f);
      if s0 == 18 {
        Decrement(f, 0);
      } else {
        assert f % 256 == f;
      }
    } else {
      var m := n - 1;
      CountersClosedForm(s0, f, m);
      NextClosed(s0, f, m);
    }
  }

  /** Eighteen ticks from a running stage are one full frame: back to the
      same stage, one wrap. */
  lemma FullLap(s0: int, n: nat)
    requires 1 <= s0 <= 18 && n == 18
    ensures StageAfter(s0, n) == s0 && WrapsAfter(s0, n) == 1
  {
  }

  /** A whole frame of the counting rule from a running stage: back to the
      same stage with one frame counted down. */
  lemma CountersFullFrame(s0: int, f: int, n: nat)
    requires 1 <= s0 <= 18 && 0 <= f < 256 && n == 18
    ensures CountersAfter((s0, f), n) == (s0, if f == 0 then 255 else f - 1)
  {
    CountersClosedForm(s0, f, n);
    FullLap(s0, n);
    assert f % 256 == f;
    Decrement(f, 0);
  }

  /** Within one frame, tick m reaches stage t exactly when m is TickOf(s0, t). */
  lemma TickOfIff(s0: int, m: nat, t: int)
    requires 0 <= s0 <= 18 && m < 18 && 1 <= t <= 18
    ensures Visited(s0, m) == t <==> m == TickOf(s0, t)
  {
  }

  /** The 18 ticks of a whole frame visit the 18 stages once each: stage t
      at tick TickOf(s0, t), and no stage at two different ticks. */
  lemma FrameVisitsEachStage(s0: int)
    requires 0 <= s0 <= 18
    ensures forall t :: 1 <= t <= 18 ==> Visited(s0, TickOf(s0, t)) == t
    ensures forall i: nat, j: nat :: i < j < 18 ==> Visited(s0, i) != Visited(s0, j)
  {
  }

  // ---------------------------------------------------------------------
  // The frame-counting delay.
  // ---------------------------------------------------------------------

  /** The number of ticks `sleep(frames)` waits from stage s0 in 0..18.  The
      do-while always takes a first tick.  For frames >= 1 it then waits for
      the frames-th wrap: 19 - s0 ticks to the first, 18 more for each further
      one.  For frames == 0 it stops after that first tick unless the tick
      wraps and counts 0 down to 255, in which case it waits 256 frames. */
  function SleepTicks(s0: int, frames: int): (ticks: nat)
    requires 0 <= s0 <= 18 && 0 <= frames < 256
  {
    if frames == 0 && s0 != 18 then 1
    else
      var laps := if frames == 0 then 256 else frames;
      19 - s0 + 18 * (laps - 1)
  }

  /** Within SleepTicks(s0, frames) ticks, the countdown started at `frames`
      reads 0 only at the last of them: the delay loop stops exactly there,
      at stage 1 after `frames` wraps (or right after a non-wrapping first
      tick when frames is 0). */
  lemma SleepStops(s0: int, frames: int, n: nat)
    requires 0 <= s0 <= 18 && 0 <= frames < 256 && 1 <= n <= SleepTicks(s0, frames)
    ensures CountersAfter((s0, frames), n).1 == 0 <==> n == SleepTicks(s0, frames)
    ensures n == SleepTicks(s0, frames) && 1 <= frames ==>
      CountersAfter((s0, frames), n).0 == 1 && WrapsAfter(s0, n) == frames
  {
    CountersClosedForm(s0, frames, n);
    var w := WrapsAfter(s0, n);
    if frames == 0 && s0 != 18 {
      assert w == 0;
    } else {
      var laps := if frames == 0 then 256 else frames;
      WrapsBelow(s0, n, laps);
      if frames == 0 {
        assert 1 <= w;
        assert (frames - w) % 256 == (if w == 256 then 0 else 256 - w);
      } else {
        assert (frames - w) % 256 == frames - w;
      }
    }
  }

  /** Before tick 19 - s0 + 18 * (laps - 1) fewer than laps wraps have
      happened, and at that tick exactly laps. */
  lemma WrapsBelow(s0: int, n: nat, laps: int)
    requires 0 <= s0 <= 18 && 1 <= laps && 1 <= n <= 19 - s0 + 18 * (laps - 1)
    ensures 1 <= s0 || 1 <= n
    ensures WrapsAfter(s0, n) <= laps
    ensures WrapsAfter(s0, n) == laps <==> n == 19 - s0 + 18 * (laps - 1)
    ensures n == 19 - s0 + 18 * (laps - 1) ==> StageAfter(s0, n) == 1
  {
  }
}
