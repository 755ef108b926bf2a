/** The blocking button read of the foreground, put together from the
    refresh interrupt, the edge detector and the random generator. */
module Firmware {
  import opened Refresh
  import opened Buttons
  import opened Prng
  import opened Counting

  /** How `read_buttons` ends: a new press was seen, or 15000 ticks went by
      without one and the die entered power-down (from which it only comes
      back through a restart at `main`). */
  datatype Outcome = Pressed | PoweredDown

  /** `random_seed += counter` for a uint16 counter: a sum modulo 2^16. */
  function AddCount(seed: bv16, counter: int): (sum: bv16)
    requires 0 <= counter < 0x1_0000
  {
    seed + counter as bv16
  }

  // ---------------------------------------------------------------------
  // What the wait sees, as values.
  // ---------------------------------------------------------------------

  /** A wait for a press: the interrupt's state when it starts, the bitmaps
      it shows meanwhile, the PINB value of each tick, and `prev_buttons`
      when it starts. */
  datatype Wait = Wait(start: RefreshState, reds: seq<bv8>, greens: seq<bv8>, pinb: nat -> bv8, prev0: seq<bv8>)

  predicate WaitShaped(w: Wait)
  {
    Shaped(w.start, w.reds, w.greens) && |w.prev0| == 3
  }

  /** The interrupt's state after the first n ticks of the wait. */
  function Waited(w: Wait, n: nat): (r: RefreshState)
    requires WaitShaped(w)
    ensures Shaped(r, w.reds, w.greens)
  {
    Run(w.start, w.reds, w.greens, Prefix(w.pinb, n))
  }

  /** `new_buttons` after tick j of the wait. */
  function SamplesAt(w: Wait, j: nat): (r: seq<bv8>)
    requires WaitShaped(w)
    ensures |r| == 3
  {
    Waited(w, j).newButtons
  }

  /** The row state `read_btn_row` keeps: a sample's three low bits. */
  function Masked(cur: seq<bv8>): (r: seq<bv8>)
    requires |cur| == 3
    ensures |r| == 3 && forall k :: 0 <= k < 3 ==> r[k] == cur[k] & 7
  {
    [cur[0] & 7, cur[1] & 7, cur[2] & 7]
  }

  /** `prev_buttons` at look j (j >= 1, the look after tick j): the start
      value for the first look, else the samples the previous look read. */
  function RowStateAt(w: Wait, j: nat): (r: seq<bv8>)
    requires WaitShaped(w) && 1 <= j
    ensures |r| == 3
  {
    if j == 1 then w.prev0 else Masked(SamplesAt(w, j - 1))
  }

  /** The `buttons` bitmaps `peek_buttons` computes from samples `cur` and
      row state `prev`. */
  function NewPresses(cur: seq<bv8>, prev: seq<bv8>): (r: seq<bv8>)
    requires |cur| == 3 && |prev| == 3
    ensures |r| == 3
  {
    [NewlyPressed(cur[0], prev[0]), NewlyPressed(cur[1], prev[1]), NewlyPressed(cur[2], prev[2])]
  }

  /** The `buttons` bitmaps look j computes. */
  function LookAt(w: Wait, j: nat): (r: seq<bv8>)
    requires WaitShaped(w) && 1 <= j
    ensures |r| == 3
  {
    NewPresses(SamplesAt(w, j), RowStateAt(w, j))
  }

  /** A look that found no new press: `peek_buttons` returned 0. */
  predicate Quiet(look: seq<bv8>)
    requires |look| == 3
  {
    look[0] | look[1] | look[2] == 0
  }

  /** Looks 1 .. n - 1 of the wait all found nothing. */
  predicate QuietBefore(w: Wait, n: nat)
    requires WaitShaped(w)
  {
    forall j :: 1 <= j < n ==> Quiet(LookAt(w, j))
  }

  /** Look n found a press: `buttons` holds that look and is not empty, and
      `prev_buttons` is the row state it left behind. */
  predicate Reported(w: Wait, n: nat, buttons: seq<bv8>, prev: seq<bv8>)
    requires WaitShaped(w) && 1 <= n
  {
    buttons == LookAt(w, n) && !Quiet(buttons) && prev == RowStateAt(w, n + 1)
  }

  /** The count ran out at tick n, with no look after it: `prev_buttons` is
      still the row state of look n, the one look n - 1 left.  (Stated for
      every m equal to n, so that the row state is only unfolded where a
      proof asks for it.) */
  predicate Expired(w: Wait, n: nat, prev: seq<bv8>)
    requires WaitShaped(w)
  {
    forall m :: 1 <= m == n ==> prev == RowStateAt(w, m)
  }

  /** `buttons` holds what look n reported (for n = 0, before any look,
      nothing is said).  (Stated for every m equal to n, as `Expired`.) */
  predicate LastLook(w: Wait, n: nat, buttons: seq<bv8>)
    requires WaitShaped(w)
  {
    forall m :: 1 <= m == n ==> buttons == LookAt(w, m)
  }

  /** What the wait leaves in the keypad when it stops at tick n with the
      given outcome: on a press, look n and its row state; on power-down,
      look n - 1 and the row state it left, as no look follows tick n.
      (Stated for every m equal to n, as `Expired`.) */
  predicate LeftKeypad(w: Wait, outcome: Outcome, n: nat, buttons: seq<bv8>, prev: seq<bv8>)
    requires WaitShaped(w)
  {
    forall m :: m == n ==>
      && (outcome == Pressed ==> 1 <= m && Reported(w, m, buttons, prev))
      && (outcome == PoweredDown ==> 1 <= m && Expired(w, m, prev) && LastLook(w, m - 1, buttons))
  }

  /** Tick sequence from tick n on, for the waits that follow. */
  function Shifted(pinb: nat -> bv8, n: nat): (later: nat -> bv8)
  {
    (j: nat) => pinb(n + j)
  }

  /** The interrupt's state after `sleep(2)` from state s, its ticks seeing
      PINB from tick n on: the countdown set to 2, then as many ticks as the
      delay loop waits. */
  function Debounced(s: RefreshState, reds: seq<bv8>, greens: seq<bv8>, pinb: nat -> bv8, n: nat): (r: RefreshState)
    requires Shaped(s, reds, greens) && 0 <= s.stage <= 18
    ensures Shaped(r, reds, greens)
  {
    Run(s.(frames := 2), reds, greens, Prefix(Shifted(pinb, n), SleepTicks(s.stage, 2)))
  }

  // ---------------------------------------------------------------------
  // The firmware routines.
  // ---------------------------------------------------------------------

  /** `read_buttons`: wait tick by tick, looking for new presses after each
      tick, for at most 15000 ticks.  On a press, add the remaining count to
      `random_seed` (a uint16) and wait two more frames to de-bounce.
      `pinb(j)` is the PINB value the j-th tick samples. */
  method ReadButtons(d: Display, kp: Keypad, rng: Rng, pinb: nat -> bv8)
    returns (outcome: Outcome, counter: int, ticks: nat)
    requires d.Valid() && kp.Valid()
    requires {d.newButtons, d.reds, d.greens} !! {kp.prev, kp.buttons}
    modifies d, d.newButtons, kp.prev, kp.buttons, rng
    ensures d.Valid() && kp.Valid()
    ensures d.reds[..] == old(d.reds[..]) && d.greens[..] == old(d.greens[..])
    ensures 0 <= counter <= 14999 && ticks == 15000 - counter
    ensures var w := Wait(old(d.State()), old(d.reds[..]), old(d.greens[..]), pinb, old(kp.prev[..]));
      && QuietBefore(w, ticks)
      && LeftKeypad(w, outcome, ticks, kp.buttons[..], kp.prev[..])
      && (outcome == Pressed ==>
            && 1 <= counter
            && rng.seed == AddCount(old(rng.seed), counter)
            && 0 <= Waited(w, ticks).stage <= 18
            && d.State() == Debounced(Waited(w, ticks), w.reds, w.greens, pinb, ticks)
            && d.framesCount == 0 && d.stage == 1)
      && (outcome == PoweredDown ==>
            && counter == 0
            && rng.seed == old(rng.seed)
            && d.State() == Waited(w, ticks))
  {
    outcome, counter, ticks := WaitPress(d, kp, pinb);
    if outcome == Pressed {
      ghost var buttons, prev := kp.buttons[..], kp.prev[..];
      Settle(d, rng, pinb, counter, ticks);
      assert kp.buttons[..] == buttons && kp.prev[..] == prev;
    }
  }

  /** What `read_buttons` does after a press: `random_seed += counter`,
      then the de-bounce delay, its ticks seeing PINB from tick n on. */
  method Settle(d: Display, rng: Rng, pinb: nat -> bv8, counter: int, n: nat)
    requires d.Valid() && 0 <= counter < 0x1_0000
    modifies d, d.newButtons, rng
    ensures d.Valid() && d.framesCount == 0 && d.stage == 1
    ensures d.reds[..] == old(d.reds[..]) && d.greens[..] == old(d.greens[..])
    ensures d.State() == Debounced(old(d.State()), d.reds[..], d.greens[..], pinb, n)
    ensures rng.seed == AddCount(old(rng.seed), counter)
  {
    rng.seed := AddCount(rng.seed, counter);
    Debounce(d, pinb, n);
  }

  /** `sleep(2)` after a press, its ticks seeing PINB from tick n on: two
      whole frames, ending at stage 1 with the countdown at 0. */
  method Debounce(d: Display, pinb: nat -> bv8, n: nat)
    requires d.Valid()
    modifies d, d.newButtons
    ensures d.Valid() && d.framesCount == 0 && d.stage == 1
    ensures d.reds[..] == old(d.reds[..]) && d.greens[..] == old(d.greens[..])
    ensures d.State() == Debounced(old(d.State()), d.reds[..], d.greens[..], pinb, n)
  {
    var _ := d.Sleep(2, Shifted(pinb, n));
  }

  /** The `sleep` instruction with only the timer interrupt enabled: the
      CPU halts until the next tick, which sees pinb(n) on PINB and so
      extends the wait by one tick. */
  method SleepInstruction(d: Display, ghost w: Wait, pinb: nat -> bv8, n: nat)
    requires d.Valid() && WaitShaped(w) && 0 <= w.start.stage <= 18 && w.pinb == pinb
    requires d.reds[..] == w.reds && d.greens[..] == w.greens && d.State() == Waited(w, n)
    modifies d, d.newButtons
    ensures d.Valid() && d.State() == Waited(w, n + 1)
    ensures d.reds[..] == old(d.reds[..]) && d.greens[..] == old(d.greens[..])
  {
    d.TickInRun(w.start, pinb, n);
  }

  /** The do-while of `read_buttons`: one tick, then count down, then look
      for new presses; `n` is the number of ticks taken.  Every look before
      the last found nothing; the wait stops at the first look that finds a
      press, or when the count reaches 0 after 15000 ticks. */
  method WaitPress(d: Display, kp: Keypad, pinb: nat -> bv8) returns (outcome: Outcome, counter: int, n: nat)
    requires d.Valid() && kp.Valid()
    requires {d.newButtons, d.reds, d.greens} !! {kp.prev, kp.buttons}
    modifies d, d.newButtons, kp.prev, kp.buttons
    ensures d.Valid() && kp.Valid()
    ensures d.reds[..] == old(d.reds[..]) && d.greens[..] == old(d.greens[..])
    ensures var w := Wait(old(d.State()), old(d.reds[..]), old(d.greens[..]), pinb, old(kp.prev[..]));
      && 1 <= n <= 15000 && n == 15000 - counter
      && d.State() == Waited(w, n)
      && QuietBefore(w, n)
      && LeftKeypad(w, outcome, n, kp.buttons[..], kp.prev[..])
      && (outcome == Pressed ==> n < 15000)
      && (outcome == PoweredDown ==> n == 15000)
  {
    ghost var w := Wait(d.State(), d.reds[..], d.greens[..], pinb, kp.prev[..]);
    counter, n := 15000, 0;
    WaitStarts(d, kp, w, n);
    while true
      invariant Waiting(d, kp, w, n)
      invariant 1 <= counter <= 15000 && n == 15000 - counter
      decreases counter
    {
      var stop, result;
      stop, result, n := Round(d, kp, w, pinb, n, counter);
      counter := counter - 1;
      if stop {
        return result, counter, n;
      }
    }
  }

  /** What holds between passes of the do-while after n ticks: the display
      has run n ticks of the wait, `prev_buttons` is the row state of look
      n + 1, and looks 1..n found nothing. */
  ghost predicate Waiting(d: Display, kp: Keypad, w: Wait, n: nat)
    reads d, d.newButtons, d.reds, d.greens, kp, kp.prev, kp.buttons
  {
    && d.Valid() && kp.Valid() && WaitShaped(w) && w.start.stage <= 18
    && {d.newButtons, d.reds, d.greens} !! {kp.prev, kp.buttons}
    && d.reds[..] == w.reds && d.greens[..] == w.greens
    && d.State() == Waited(w, n)
    && kp.prev[..] == RowStateAt(w, n + 1)
    && LastLook(w, n, kp.buttons[..])
    && QuietBefore(w, n + 1)
  }

  /** A wait starts from the current display and keypad state. */
  lemma WaitStarts(d: Display, kp: Keypad, w: Wait, n: nat)
    requires d.Valid() && kp.Valid() && n == 0
    requires {d.newButtons, d.reds, d.greens} !! {kp.prev, kp.buttons}
    requires w == Wait(d.State(), d.reds[..], d.greens[..], w.pinb, kp.prev[..])
    ensures Waiting(d, kp, w, n)
  {
  }

  /** One pass of the do-while, after n ticks with `counter` left: tick,
      count down, and unless the count ran out, make look n + 1.  It stops
      the wait, with the outcome, when the count runs out or the look is not
      quiet; otherwise the wait goes on from n + 1 ticks. */
  method Round(d: Display, kp: Keypad, ghost w: Wait, pinb: nat -> bv8, n: nat, counter: int)
    returns (stop: bool, outcome: Outcome, next: nat)
    requires Waiting(d, kp, w, n) && w.pinb == pinb && 1 <= counter
    modifies d, d.newButtons, kp.prev, kp.buttons
    ensures next == n + 1
    ensures !stop ==> counter != 1 && Waiting(d, kp, w, n + 1)
    ensures stop ==>
      && d.Valid() && kp.Valid()
      && d.reds[..] == w.reds && d.greens[..] == w.greens
      && d.State() == Waited(w, next)
      && QuietBefore(w, next)
    ensures stop && outcome == PoweredDown ==> counter == 1 && Expired(w, n + 1, kp.prev[..]) && LastLook(w, n, kp.buttons[..])
    ensures stop && outcome == Pressed ==>
      counter != 1 && Reported(w, next, kp.buttons[..], kp.prev[..])
  {
    next := n + 1;
    ghost var buttons, prev := kp.buttons[..], kp.prev[..];
    SleepInstruction(d, w, pinb, n);
    assert kp.buttons[..] == buttons && kp.prev[..] == prev;
    if counter - 1 == 0 {
      return true, PoweredDown, next;
    }
    var any := PollAt(d, kp, w, next);
    stop, outcome := any != 0, Pressed;
  }

  /** Look n of a wait, made after tick n: `peek_buttons` reports
      LookAt(w, n), returns non-zero exactly when that look is not quiet,
      and leaves the row state look n + 1 starts from. */
  method PollAt(d: Display, kp: Keypad, ghost w: Wait, n: nat) returns (any: bv8)
    requires d.Valid() && kp.Valid() && WaitShaped(w) && 1 <= n
    requires {d.newButtons, d.reds, d.greens} !! {kp.prev, kp.buttons}
    requires d.State() == Waited(w, n)
    requires kp.prev[..] == RowStateAt(w, n)
    modifies kp.prev, kp.buttons
    ensures d.Valid() && kp.Valid()
    ensures d.State() == old(d.State()) && d.reds[..] == old(d.reds[..]) && d.greens[..] == old(d.greens[..])
    ensures kp.buttons[..] == LookAt(w, n) && kp.prev[..] == RowStateAt(w, n + 1)
    ensures any != 0 <==> !Quiet(LookAt(w, n))
  {
    ghost var cur, before := d.newButtons[..], kp.prev[..];
    assert cur == SamplesAt(w, n);
    any := Poll(d, kp);
    LookStep(w, n, cur, before);
  }

  /** `peek_buttons` while the display rests between ticks: the display is
      not touched. */
  method Poll(d: Display, kp: Keypad) returns (any: bv8)
    requires d.Valid() && kp.Valid()
    requires {d.newButtons, d.reds, d.greens} !! {kp.prev, kp.buttons}
    modifies kp.prev, kp.buttons
    ensures d.Valid() && kp.Valid()
    ensures d.State() == old(d.State()) && d.reds[..] == old(d.reds[..]) && d.greens[..] == old(d.greens[..])
    ensures kp.buttons[..] == NewPresses(d.newButtons[..], old(kp.prev[..])) && kp.prev[..] == Masked(d.newButtons[..])
    ensures any == kp.buttons[0] | kp.buttons[1] | kp.buttons[2]
  {
    any := Look(kp, d.newButtons);
  }

  /** `peek_buttons` on the samples in `current` (`new_buttons`): the
      bitmaps it stores are the new presses against the old row state, and
      the row state becomes the samples' low bits. */
  method Look(kp: Keypad, current: array<bv8>) returns (any: bv8)
    requires kp.Valid() && current.Length == 3 && current != kp.prev && current != kp.buttons
    modifies kp.prev, kp.buttons
    ensures kp.Valid()
    ensures kp.buttons[..] == NewPresses(current[..], old(kp.prev[..]))
    ensures kp.prev[..] == Masked(current[..])
    ensures any == kp.buttons[0] | kp.buttons[1] | kp.buttons[2]
  {
    any := kp.Peek(current);
    SameRows(kp.buttons[..], NewPresses(current[..], old(kp.prev[..])));
    SameRows(kp.prev[..], Masked(current[..]));
  }

  /** Look n of a wait, on the samples tick n left and the row state it
      finds, reports LookAt(w, n) and leaves the row state of look n + 1. */
  lemma LookStep(w: Wait, n: nat, cur: seq<bv8>, prev: seq<bv8>)
    requires WaitShaped(w) && 1 <= n
    requires cur == SamplesAt(w, n) && prev == RowStateAt(w, n)
    ensures NewPresses(cur, prev) == LookAt(w, n) && Masked(cur) == RowStateAt(w, n + 1)
  {
  }

  /** Two three-row bitmaps agree when each row does. */
  lemma SameRows(a: seq<bv8>, b: seq<bv8>)
    requires |a| == 3 && |b| == 3 && a[0] == b[0] && a[1] == b[1] && a[2] == b[2]
    ensures a == b
  {
  }
}
