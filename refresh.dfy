/** The display-refresh engine: the TIMER1_COMPA interrupt that multiplexes
    18 bi-colour LEDs (3 rows x 3 columns x 2 planes) and samples the 9
    buttons, and the frame-counting delay built on it.

    One timer tick advances `stage` through 1..18.  Stages 1..9 drive the red
    plane, 10..18 the green plane; within a plane, every third stage (1, 4, 7
    or 10, 13, 16) selects a scan row and latches that row's bitmap into
    `row`, and the two stages after it reuse the latched value.  Each stage
    puts exactly one bit of the latched row on one output line.  The red
    row-select stages also sample one row of buttons from PINB.  Stage value
    19 exists only for an instant: it wraps to 1 and counts one frame down. */
module Refresh {
  import opened Counting

  /** PORTB value that selects scan row k; the same for both planes. */
  const RowSelect: seq<bv8> := [0x04, 0x02, 0x40]

  /** Idle values of the two column ports: PORTA drives 2 lines (bits 0..1),
      PORTD drives 4 lines (bits 0..3); all lines high means every LED off. */
  const IdleA: bv8 := 0x03
  const IdleD: bv8 := 0x0f

  /** An unsigned 8-bit counter. */
  type U8 = x: int | 0 <= x < 256

  /** Everything the interrupt owns or writes: its two private counters, the
      frame countdown it shares with the foreground, the button samples it
      publishes, and the last value written to each output port. */
  datatype RefreshState = RefreshState(
    stage: U8,              // refresh_stage
    row: bv8,               // refresh_row, the latched row bitmap
    frames: U8,             // frames_count
    newButtons: seq<bv8>,   // new_buttons[3], 0 = pressed in the 3 low bits
    portA: bv8,
    portB: bv8,
    portD: bv8)

  /** The fixed shapes of the source's arrays. */
  predicate Shaped(s: RefreshState, reds: seq<bv8>, greens: seq<bv8>)
  {
    |s.newButtons| == 3 && |reds| == 3 && |greens| == 3
  }

  // ---------------------------------------------------------------------
  // The interrupt handler, case by case as the source's switch has it.
  // ---------------------------------------------------------------------

  /** Stages 1, 4, 7: select red row k, latch its bitmap and sample button
      row k from PINB >> 3. */
  function LatchRed(s: RefreshState, reds: seq<bv8>, k: nat, pinb: bv8): RefreshState
    requires |s.newButtons| == 3 && |reds| == 3 && k < 3
  {
    s.(row := reds[k], newButtons := s.newButtons[k := pinb >> 3], portB := RowSelect[k])
  }

  /** Stages 10, 13, 16: select green row k and latch its bitmap. */
  function LatchGreen(s: RefreshState, greens: seq<bv8>, k: nat): RefreshState
    requires |greens| == 3 && k < 3
  {
    s.(row := greens[k], portB := RowSelect[k])
  }

  /** The counting half of an interrupt: `++refresh_stage` (a uint8), and
      on reaching 19 the wrap to 1 with one more frame counted down (also a
      uint8, so 0 goes to 255). */
  function Advance(s: RefreshState): (r: RefreshState)
    ensures r.(stage := s.stage, frames := s.frames) == s
  {
    var n: U8 := if s.stage == 255 then 0 else s.stage + 1;
    if n == 19 then s.(stage := 1, frames := if s.frames == 0 then 255 else s.frames - 1)
    else s.(stage := n)
  }

  /** The row-select half of the switch on the advanced stage: the cases
      above the `red_wrap` and `green_wrap` labels.  It touches neither
      counter nor the column ports. */
  function Latch(s: RefreshState, reds: seq<bv8>, greens: seq<bv8>, pinb: bv8): (r: RefreshState)
    requires Shaped(s, reds, greens)
    ensures Shaped(r, reds, greens)
    ensures r.stage == s.stage && r.frames == s.frames && r.portA == s.portA && r.portD == s.portD
  {
    match s.stage
    case 1 => LatchRed(s, reds, 0, pinb)
    case 4 => LatchRed(s, reds, 1, pinb)
    case 7 => LatchRed(s, reds, 2, pinb)
    case 10 => LatchGreen(s, greens, 0)
    case 13 => LatchGreen(s, greens, 1)
    case 16 => LatchGreen(s, greens, 2)
    case _ => s
  }

  /** The column half of the switch: the one output line each stage drives
      from the latched row (stages 1, 4, 7 reach it through `red_wrap`,
      10, 13, 16 through `green_wrap`).  Only PORTA and PORTD change. */
  function Lines(s: RefreshState): (r: RefreshState)
    ensures r == s.(portA := r.portA, portD := r.portD)
  {
    match s.stage
    case 1 | 4 | 7 => s.(portD := (s.row >> 1) | 0xfd)
    case 2 | 5 | 8 => s.(portD := 0x0f, portA := (s.row >> 1) | 0xfe)
    case 3 | 6 | 9 => s.(portA := 3, portD := (s.row << 3) | 0xf7)
    case 10 | 13 | 16 => s.(portD := (s.row >> 2) | 0xfe)
    case 11 | 14 | 17 => s.(portD := 0x0f, portA := s.row | 0xfd)
    case 12 | 15 | 18 => s.(portA := 3, portD := (s.row << 2) | 0xfb)
    case _ => s
  }

  /** One timer interrupt.  PINB, the only input read, is a parameter. */
  function Step(s: RefreshState, reds: seq<bv8>, greens: seq<bv8>, pinb: bv8): (r: RefreshState)
    requires Shaped(s, reds, greens)
    ensures Shaped(r, reds, greens)
  {
    Lines(Latch(Advance(s), reds, greens, pinb))
  }

  /** The state after one tick per element of `pins` (the PINB value seen by
      each tick), with the foreground bitmaps left alone meanwhile. */
  function Run(s: RefreshState, reds: seq<bv8>, greens: seq<bv8>, pins: seq<bv8>): (r: RefreshState)
    requires Shaped(s, reds, greens)
    ensures Shaped(r, reds, greens)
    decreases |pins|
  {
    if pins == [] then s
    else Step(Run(s, reds, greens, pins[..|pins| - 1]), reds, greens, pins[|pins| - 1])
  }

  // ---------------------------------------------------------------------
  // The stage table: which LED each stage drives, stated independently.
  // ---------------------------------------------------------------------

  datatype Plane = Red | Green
  datatype Port = PortA | PortD

  /** Plane driven at stage t in 1..18. */
  function PlaneOf(t: int): (p: Plane)
  {
    if t <= 9 then Red else Green
  }

  /** Scan row driven at stage t in 1..18. */
  function RowOf(t: int): (k: int)
    requires 1 <= t <= 18
    ensures 0 <= k < 3
  {
    (t - 1) % 9 / 3
  }

  /** Bit of the row bitmap driven at stage t in 1..18: 2, 1, 0 in turn. */
  function BitOf(t: int): (b: int)
    requires 1 <= t <= 18
    ensures 0 <= b < 3
  {
    2 - (t - 1) % 3
  }

  /** True at the stages that select a row and latch its bitmap. */
  predicate IsLatchStage(t: int)
  {
    1 <= t <= 18 && (t - 1) % 3 == 0
  }

  /** The output line that carries bit b of a row of the given plane. */
  function LedLine(p: Plane, b: int): (l: (Port, nat))
    requires 0 <= b < 3
    ensures l.1 < 4
  {
    match p
    case Red => if b == 2 then (PortD, 1) else if b == 1 then (PortA, 0) else (PortD, 3)
    case Green => if b == 2 then (PortD, 0) else if b == 1 then (PortA, 1) else (PortD, 2)
  }

  /** Bit b (0..2) of a row bitmap, as 0 or 1. */
  function Level(x: bv8, b: nat): (level: bv8)
    requires b < 3
  {
    if b == 0 then x & 1 else if b == 1 then (x >> 1) & 1 else (x >> 2) & 1
  }

  /** The single-bit mask of output line `pin` (0..3) of a port. */
  function LineMask(pin: nat): (mask: bv8)
    requires pin < 4
  {
    if pin == 0 then 1 else if pin == 1 then 2 else if pin == 2 then 4 else 8
  }

  /** PORTA and PORTD when `line` carries `level` (0 = LED on) and every
      other line is high: the driven port has all bits set except that
      line's, which is the level; the other port shows its idle value. */
  function Drive(line: (Port, nat), level: bv8): (ports: (bv8, bv8))
    requires line.1 < 4
  {
    var active := if level == 0 then !LineMask(line.1) else 0xff;
    if line.0 == PortA then (active, IdleD) else (IdleA, active)
  }

  /** The class invariant of the output lines: before the first tick the
      ports hold their start-up values; afterwards the ports show exactly one
      LED — bit BitOf(stage) of the latched row, on the line LedLine assigns
      to that plane and bit — and PORTB selects scan row RowOf(stage). */
  predicate LinesShowStage(s: RefreshState)
  {
    && 0 <= s.stage <= 18
    && (s.stage == 0 ==> s.portA == IdleA && s.portD == IdleD)
    && (1 <= s.stage ==>
          && (s.portA, s.portD) == Drive(LedLine(PlaneOf(s.stage), BitOf(s.stage)), Level(s.row, BitOf(s.stage)))
          && s.portB == RowSelect[RowOf(s.stage)])
  }

  /** The only row-select stage of the red plane for row k is 3k + 1. */
  lemma RedSelectStage(t: int, k: nat)
    requires 1 <= t <= 18 && k < 3
    ensures (IsLatchStage(t) && PlaneOf(t) == Red && RowOf(t) == k) <==> t == 3 * k + 1
  {
  }

  // ---------------------------------------------------------------------

  // Properties of one tick.
  // ---------------------------------------------------------------------

  /** A tick from a stage in 0..18 follows the counting rule: to the next
      stage, and from 18 back to 1 with one frame counted down. */
  lemma StepCounts(s: RefreshState, reds: seq<bv8>, greens: seq<bv8>, pinb: bv8)
    requires Shaped(s, reds, greens) && 0 <= s.stage <= 18
    ensures var r := Step(s, reds, greens, pinb);
      (r.stage, r.frames) == NextCounters((s.stage, s.frames))
  {
  }

  /** Latching and sampling: the row bitmap is reloaded only on the
      row-select stages, from the plane and row that stage names; only
      stages 1, 4 and 7 write a button sample, into row 0, 1, 2 respectively,
      and the sample is PINB >> 3. */
  lemma StepLatches(s: RefreshState, reds: seq<bv8>, greens: seq<bv8>, pinb: bv8)
    requires Shaped(s, reds, greens) && 0 <= s.stage <= 18
    ensures var r := Step(s, reds, greens, pinb);
      && r.row == (if IsLatchStage(r.stage)
                   then (if PlaneOf(r.stage) == Red then reds else greens)[RowOf(r.stage)]
                   else s.row)
      && r.newButtons == (if IsLatchStage(r.stage) && PlaneOf(r.stage) == Red
                          then s.newButtons[RowOf(r.stage) := pinb >> 3]
                          else s.newButtons)
  {
    if s.stage in {0, 3, 6, 9, 12, 15, 18} {
      LatchingTick(s, reds, greens, pinb);
    }
  }

  /** StepLatches for the ticks into a row-select stage. */
  lemma LatchingTick(s: RefreshState, reds: seq<bv8>, greens: seq<bv8>, pinb: bv8)
    requires Shaped(s, reds, greens) && s.stage in {0, 3, 6, 9, 12, 15, 18}
    ensures var r := Step(s, reds, greens, pinb);
      && IsLatchStage(r.stage)
      && r.row == (if PlaneOf(r.stage) == Red then reds else greens)[RowOf(r.stage)]
      && r.newButtons == (if PlaneOf(r.stage) == Red
                          then s.newButtons[RowOf(r.stage) := pinb >> 3]
                          else s.newButtons)
  {
  }

  /** Each tick keeps the output lines showing exactly the one LED its new
      stage is responsible for. */
  lemma StepDrivesOneLed(s: RefreshState, reds: seq<bv8>, greens: seq<bv8>, pinb: bv8)
    requires Shaped(s, reds, greens) && LinesShowStage(s)
    ensures LinesShowStage(Step(s, reds, greens, pinb))
  {
    if s.stage in {0, 3, 6, 9, 12, 15, 18} {
      DriveIntoSelect(s, reds, greens, pinb);
    } else if s.stage in {1, 4, 7, 10, 13, 16} {
      DriveIntoSecond(s, reds, greens, pinb);
    } else {
      DriveIntoThird(s, reds, greens, pinb);
    }
  }

  // StepDrivesOneLed, split by the column phase the tick moves into so that
  // each proof stays small.

  lemma DriveIntoSelect(s: RefreshState, reds: seq<bv8>, greens: seq<bv8>, pinb: bv8)
    requires Shaped(s, reds, greens) && LinesShowStage(s) && s.stage in {0, 3, 6, 9, 12, 15, 18}
    ensures LinesShowStage(Step(s, reds, greens, pinb))
  {
  }

  lemma DriveIntoSecond(s: RefreshState, reds: seq<bv8>, greens: seq<bv8>, pinb: bv8)
    requires Shaped(s, reds, greens) && LinesShowStage(s) && s.stage in {1, 4, 7, 10, 13, 16}
    ensures LinesShowStage(Step(s, reds, greens, pinb))
  {
  }

  lemma DriveIntoThird(s: RefreshState, reds: seq<bv8>, greens: seq<bv8>, pinb: bv8)
    requires Shaped(s, reds, greens) && LinesShowStage(s) && s.stage in {2, 5, 8, 11, 14, 17}
    ensures LinesShowStage(Step(s, reds, greens, pinb))
  {
  }

  // ---------------------------------------------------------------------
  // Properties of a run of ticks.
  // ---------------------------------------------------------------------

  /** Any run from a stage in 0..18 moves the two counters exactly as the
      counting rule applied once per tick. */
  lemma {:induction false} RunCounters(s: RefreshState, reds: seq<bv8>, greens: seq<bv8>, pins: seq<bv8>)
    requires Shaped(s, reds, greens) && 0 <= s.stage <= 18
    ensures var r := Run(s, reds, greens, pins);
      (r.stage, r.frames) == CountersAfter((s.stage, s.frames), |pins|)
  {
    if pins != [] {
      var m := |pins| - 1;
      var prev := Run(s, reds, greens, pins[..m]);
      RunCounters(s, reds, greens, pins[..m]);
      assert |pins[..m]| == m;
      StepCounts(prev, reds, greens, pins[m]);
    }
  }

  /** The same in closed form: a run of n ticks from a stage in 0..18 (not
      empty from the start-up value 0) ends at StageAfter(stage, n), with
      `frames` counted down WrapsAfter(stage, n) times, modulo 256. */
  lemma {:induction false} RunCounts(s: RefreshState, reds: seq<bv8>, greens: seq<bv8>, pins: seq<bv8>)
    requires Shaped(s, reds, greens) && 0 <= s.stage <= 18
    requires 1 <= s.stage || 1 <= |pins|
    ensures var r := Run(s, reds, greens, pins);
      (r.stage, r.frames) == ClosedForm(s.stage, s.frames, |pins|)
  {
    RunCounters(s, reds, greens, pins);
    CountersClosedForm(s.stage, s.frames, |pins|);
  }

  /** A whole frame: 18 ticks from any stage in 1..18 come back to that
      stage with `frames` lowered by exactly one (255 after 0). */
  lemma FrameReturns(s: RefreshState, reds: seq<bv8>, greens: seq<bv8>, pins: seq<bv8>)
    requires Shaped(s, reds, greens) && 1 <= s.stage <= 18 && |pins| == 18
    ensures var r := Run(s, reds, greens, pins);
      r.stage == s.stage && r.frames == (if s.frames == 0 then 255 else s.frames - 1)
  {
    RunCounters(s, reds, greens, pins);
    CountersFullFrame(s.stage, s.frames, |pins|);
  }

  /** Tick m (m < 18) of a run from stage s0 in 0..18 moves into the red
      row-select stage of button row k exactly when m is TickOf(s0, 3k + 1). */
  lemma SampleTick(s0: int, f: int, m: nat, k: nat)
    requires 0 <= s0 <= 18 && 0 <= f < 256 && m < 18 && k < 3
    ensures var t := NextCounters(CountersAfter((s0, f), m)).0;
      && 1 <= t <= 18
      && ((IsLatchStage(t) && PlaneOf(t) == Red && RowOf(t) == k) <==> m == TickOf(s0, 3 * k + 1))
  {
    CountersClosedForm(s0, f, m + 1);
    assert CountersAfter((s0, f), m + 1) == NextCounters(CountersAfter((s0, f), m));
    var t := StageAfter(s0, m + 1);
    assert t == Visited(s0, m);
    RedSelectStage(t, k);
    TickOfIff(s0, m, 3 * k + 1);
  }

  /** In a run of at most 18 ticks from stage s0 in 0..18, button row k is
      sampled exactly when the run passes stage 3k + 1, at tick
      TickOf(s0, 3k + 1), from that tick's PINB; a row whose stage the run
      does not reach keeps its old sample. */
  lemma {:induction false} RunSamples(s: RefreshState, reds: seq<bv8>, greens: seq<bv8>, pins: seq<bv8>, k: nat)
    requires Shaped(s, reds, greens) && 0 <= s.stage <= 18 && |pins| <= 18 && k < 3
    ensures var j := TickOf(s.stage, 3 * k + 1);
      Run(s, reds, greens, pins).newButtons[k] == if j < |pins| then pins[j] >> 3 else s.newButtons[k]
  {
    if pins != [] {
      var m := |pins| - 1;
      var p := pins[..m];
      var prev := Run(s, reds, greens, p);
      RunSamples(s, reds, greens, p, k);
      RunCounters(s, reds, greens, p);
      assert |p| == m;
      StepCounts(prev, reds, greens, pins[m]);
      StepLatches(prev, reds, greens, pins[m]);
      SampleTick(s.stage, s.frames, m, k);
    }
  }

  /** A whole frame samples all three button rows, each from the tick at
      which it passes that row's red select stage. */
  lemma FrameSamplesEveryRow(s: RefreshState, reds: seq<bv8>, greens: seq<bv8>, pins: seq<bv8>)
    requires Shaped(s, reds, greens) && 0 <= s.stage <= 18 && |pins| == 18
    ensures Run(s, reds, greens, pins).newButtons
         == [pins[TickOf(s.stage, 1)] >> 3, pins[TickOf(s.stage, 4)] >> 3, pins[TickOf(s.stage, 7)] >> 3]
  {
    RunSamples(s, reds, greens, pins, 0);
    RunSamples(s, reds, greens, pins, 1);
    RunSamples(s, reds, greens, pins, 2);
  }

  // ---------------------------------------------------------------------
  // The interrupt and the delay on the firmware's globals.
  // ---------------------------------------------------------------------

  /** The PINB values seen by ticks 0..n-1 of a run. */
  function Prefix(pinb: nat -> bv8, n: nat): (p: seq<bv8>)
    ensures |p| == n
  {
    if n == 0 then [] else Prefix(pinb, n - 1) + [pinb(n - 1)]
  }

  /** Tick j of a run sees pinb(j). */
  lemma {:induction false} PrefixAt(pinb: nat -> bv8, n: nat)
    ensures forall j :: 0 <= j < n ==> Prefix(pinb, n)[j] == pinb(j)
  {
    if n > 0 {
      PrefixAt(pinb, n - 1);
    }
  }

  /** The globals the refresh interrupt works on.  `reds` and `greens` are
      written by the foreground between ticks; the interrupt only reads
      them. */
  class Display {
    var stage: U8           // refresh_stage
    var row: bv8            // refresh_row
    var framesCount: U8     // frames_count
    var portA: bv8
    var portB: bv8
    var portD: bv8
    const newButtons: array<bv8>
    const reds: array<bv8>
    const greens: array<bv8>

    /** The interrupt's view of the globals. */
    ghost function State(): RefreshState
      reads this, newButtons
    {
      RefreshState(stage, row, framesCount, newButtons[..], portA, portB, portD)
    }

    ghost predicate Valid()
      reads this, newButtons
    {
      && newButtons.Length == 3 && reds.Length == 3 && greens.Length == 3
      && newButtons != reds && newButtons != greens
      && LinesShowStage(State())
    }

    /** Power-on: zero-initialised globals, and the port values `main` sets
        before enabling the timer (all column lines high, no row selected). */
    constructor ()
      ensures Valid() && fresh(newButtons) && fresh(reds) && fresh(greens)
      ensures State() == RefreshState(0, 0, 0, [0, 0, 0], IdleA, 0, IdleD)
      ensures reds[..] == [0, 0, 0] && greens[..] == [0, 0, 0]
    {
      stage, row, framesCount := 0, 0, 0;
      portA, portB, portD := IdleA, 0, IdleD;
      newButtons := new bv8[3](_ => 0);
      reds := new bv8[3](_ => 0);
      greens := new bv8[3](_ => 0);
      new;
      assert newButtons[..] == [0, 0, 0];
      assert reds[..] == [0, 0, 0];
      assert greens[..] == [0, 0, 0];
    }

    /** One timer interrupt: advance the counters, then the switch on the
        new stage, whose row-select cases fall into the shared column code
        (`red_wrap`, `green_wrap`). */
    method Tick(pinb: bv8)
      requires Valid()
      modifies this, newButtons
      ensures Valid()
      ensures State() == Step(old(State()), reds[..], greens[..], pinb)
      ensures reds[..] == old(reds[..]) && greens[..] == old(greens[..])
    {
      ghost var before := State();
      CountStage();
      SelectRow(pinb);
      DriveColumn();
      StepDrivesOneLed(before, reds[..], greens[..], pinb);
    }

    /** `++refresh_stage`, and case 19: back to 1, one more frame counted
        down (a uint8, so 0 goes to 255). */
    method CountStage()
      requires stage <= 18
      modifies this
      ensures State() == Advance(old(State()))
    {
      stage := stage + 1;
      if stage == 19 {
        stage := 1;
        framesCount := if framesCount == 0 then 255 else framesCount - 1;
      }
    }

    /** The row-select cases of the switch. */
    method SelectRow(pinb: bv8)
      requires newButtons.Length == 3 && reds.Length == 3 && greens.Length == 3
      requires newButtons != reds && newButtons != greens
      modifies this, newButtons
      ensures State() == Latch(old(State()), reds[..], greens[..], pinb)
      ensures reds[..] == old(reds[..]) && greens[..] == old(greens[..])
    {
      match stage {
        case 1 => SelectRed(0, pinb);
        case 4 => SelectRed(1, pinb);
        case 7 => SelectRed(2, pinb);
        case 10 => SelectGreen(0);
        case 13 => SelectGreen(1);
        case 16 => SelectGreen(2);
        case _ =>
      }
    }

    /** Stages 1, 4, 7: sample button row k while PORTB holds the complement
        of the row's select value, then select red row k and latch it. */
    method SelectRed(k: nat, pinb: bv8)
      requires newButtons.Length == 3 && reds.Length == 3 && k < 3
      requires newButtons != reds && newButtons != greens
      modifies this, newButtons
      ensures State() == LatchRed(old(State()), reds[..], k, pinb)
      ensures reds[..] == old(reds[..]) && greens[..] == old(greens[..])
    {
      portB := !RowSelect[k];
      row := reds[k];
      newButtons[k] := pinb >> 3;
      portB := RowSelect[k];
    }

    /** Stages 10, 13, 16: select green row k and latch it. */
    method SelectGreen(k: nat)
      requires newButtons.Length == 3 && greens.Length == 3 && k < 3
      modifies this
      ensures State() == LatchGreen(old(State()), greens[..], k)
    {
      portB := RowSelect[k];
      row := greens[k];
    }

    /** The column code of the switch: drive this stage's line from the
        latched row. */
    method DriveColumn()
      modifies this
      ensures State() == Lines(old(State()))
    {
      match stage {
        case 1 | 4 | 7 =>
          portD := (row >> 1) | 0xfd;
        case 2 | 5 | 8 =>
          portD := 0x0f;
          portA := (row >> 1) | 0xfe;
        case 3 | 6 | 9 =>
          portA := 3;
          portD := (row << 3) | 0xf7;
        case 10 | 13 | 16 =>
          portD := (row >> 2) | 0xfe;
        case 11 | 14 | 17 =>
          portD := 0x0f;
          portA := row | 0xfd;
        case 12 | 15 | 18 =>
          portA := 3;
          portD := (row << 2) | 0xfb;
        case _ =>
      }
    }

    /** `sleep(frames)`: set the countdown, then wait for ticks (at least
        one) until the countdown reads 0.  `pinb(j)` is the PINB value the
        j-th tick of the wait samples.  The wait is SleepTicks(stage, frames)
        ticks long; for frames >= 1 it ends at stage 1 after exactly `frames`
        wraps. */
    method Sleep(frames: U8, pinb: nat -> bv8) returns (ticks: nat)
      requires Valid()
      modifies this, newButtons
      ensures Valid() && framesCount == 0
      ensures State() == Run(old(State()).(frames := frames), reds[..], greens[..], Prefix(pinb, ticks))
      ensures ticks == SleepTicks(old(stage), frames)
      ensures 1 <= frames ==> stage == 1 && WrapsAfter(old(stage), ticks) == frames
      ensures reds[..] == old(reds[..]) && greens[..] == old(greens[..])
    {
      framesCount := frames;
      ghost var start := State();
      assert start == old(State()).(frames := frames);
      ticks := Wait(start, pinb);
    }

    /** The do-while of `sleep` once `frames_count` is set: tick at least
        once, then until the countdown reads 0. */
    method Wait(ghost start: RefreshState, pinb: nat -> bv8) returns (ticks: nat)
      requires Valid() && State() == start
      modifies this, newButtons
      ensures Valid() && framesCount == 0
      ensures State() == Run(start, reds[..], greens[..], Prefix(pinb, ticks))
      ensures ticks == SleepTicks(start.stage, start.frames)
      ensures 1 <= start.frames ==> stage == 1 && WrapsAfter(start.stage, ticks) == start.frames
      ensures reds[..] == old(reds[..]) && greens[..] == old(greens[..])
    {
      ghost var s0, frames := start.stage, start.frames;
      ticks := 0;
      assert State() == Run(start, reds[..], greens[..], Prefix(pinb, 0));
      TickInRun(start, pinb, 0);
      ticks := 1;
      while framesCount != 0
        invariant Valid() && 1 <= ticks <= SleepTicks(s0, frames)
        invariant State() == Run(start, reds[..], greens[..], Prefix(pinb, ticks))
        invariant (stage, framesCount) == CountersAfter((s0, frames), ticks)
        invariant reds[..] == old(reds[..]) && greens[..] == old(greens[..])
        decreases SleepTicks(s0, frames) - ticks
      {
        SleepStops(s0, frames, ticks);
        TickInRun(start, pinb, ticks);
        ticks := ticks + 1;
      }
      SleepStops(s0, frames, ticks);
    }

    /** Tick n of a run from `start`: one more tick extends the run by
        pinb(n), and the counters follow the counting rule once more. */
    method TickInRun(ghost start: RefreshState, pinb: nat -> bv8, n: nat)
      requires Valid() && 0 <= start.stage <= 18 && |start.newButtons| == 3
      requires State() == Run(start, reds[..], greens[..], Prefix(pinb, n))
      modifies this, newButtons
      ensures Valid()
      ensures State() == Run(start, reds[..], greens[..], Prefix(pinb, n + 1))
      ensures (stage, framesCount) == CountersAfter((start.stage, start.frames), n + 1)
      ensures reds[..] == old(reds[..]) && greens[..] == old(greens[..])
    {
      Tick(pinb(n));
      RunStep(start, reds[..], greens[..], pinb, n);
      RunCounters(start, reds[..], greens[..], Prefix(pinb, n + 1));
    }
  }

  /** One more tick extends a run by that tick's PINB. */
  lemma RunStep(s: RefreshState, reds: seq<bv8>, greens: seq<bv8>, pinb: nat -> bv8, n: nat)
    requires Shaped(s, reds, greens)
    ensures Run(s, reds, greens, Prefix(pinb, n + 1))
         == Step(Run(s, reds, greens, Prefix(pinb, n)), reds, greens, pinb(n))
  {
    assert Prefix(pinb, n + 1)[..n] == Prefix(pinb, n);
  }
}
