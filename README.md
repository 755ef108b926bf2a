# Alien die firmware: a verified model of its core

The alien die is a small AVR board with a 3 x 3 grid of bi-colour (red and
green) LEDs and a 3 x 3 grid of buttons. Its firmware (`firmware/main.c`)
does the following:

- A timer interrupt of about 1 ms (1088 CPU cycles) multiplexes the 18 LEDs one at a time. Each tick it
  advances a stage counter through 1..18. Every third stage it selects a
  scan row and latches that row's bitmap. It puts one bit of the latched row
  on one column line. On the red row-select stages it also samples one row
  of buttons from PINB.
- The stage counter also counts frames down for a delay, `sleep(frames)`.
- The foreground turns the button samples into "newly pressed" bitmaps
  (`read_btn_row`, `peek_buttons`).
- `read_buttons` waits for a press and mixes the wait into the random seed.
- A 16-bit linear congruential generator gives random bytes (`rand`).
- A message editor packs 9-bit frames into a body byte plus a tail bit and
  stores them (`pack_frame`, `fill_frame`, `load_frame`, the store step).

The model has six modules:

- `Refresh` (refresh.dfy) models the interrupt.
  - As pure functions on a `RefreshState` value, the counting, latching and
    column halves of the switch are `Advance`, `Latch` and `Lines`. Their
    composition is `Step`, and `Run` applies Step once per tick.
  - As the class `Display` over the firmware's globals, `Tick` is proved to
    perform `Step`. It keeps the invariant that the ports show exactly the
    one LED the stage table assigns.
  - `Sleep` is the delay loop, proved against `Run` and the closed-form tick
    count.
- `Counting` (counting.dfy) holds the integer arithmetic of the two
  counters. It has closed forms after n ticks, the full-frame lemma, the
  tick at which each stage is reached, and the length of a `sleep`.
- `Buttons` (buttons.dfy) holds the edge detector and the class `Keypad`
  over `prev_buttons` and `buttons`.
- `Prng` (prng.dfy) holds `rand` and the class `Rng` over `random_seed`.
- `Codec` (codec.dfy) covers three things:
  - the frame codec;
  - the tail-slot arithmetic;
  - the message store, as values (`StoreFrame`, `LoadFrame`) and as the
    class `MessageStore` over the three arrays.
- `Firmware` (firmware.dfy) holds `read_buttons`. It puts `Display`,
  `Keypad` and `Rng` together.

Bytes are `bv8` and the seed is `bv16`, so C's unsigned wrap-around is
built in. `refresh_stage` and `frames_count` are integers in 0..255, with
the uint8 wraps written out (`0 - 1` is 255, `255 + 1` is 0). PINB, the
only input, is a parameter: one value per tick, or a function from tick
number to value for the loops.

Where the code and its comments disagree, the model follows the code:

- The comment above the interrupt says green uses stages 10..19. The code
  drives green only on stages 10..18, and 19 is only a transient value that
  falls through into case 1.
- `sleep(0)` does not return at once: the `do … while` always waits one
  tick. If that tick wraps stage 18 to 1, `frames_count` goes from 0 to 255
  and the wait lasts 256 frames. `Sleep` and `SleepTicks` model this rather
  than excluding frames = 0.

## Model

| member | source | states |
|---|---|---|
| `Refresh.Advance` | firmware/main.c:41-45 | the counting half of a tick changes only the stage and the frame countdown |
| `Refresh.Latch` | firmware/main.c:46-102 | the row-select cases (1, 4, 7, 10, 13, 16), written per plane as `LatchRed` (latch `reds[k]`, sample PINB >> 3 into `new_buttons[k]`) and `LatchGreen` (latch `greens[k]`), keep the array shapes and touch neither counter nor PORTA/PORTD |
| `Refresh.Lines` | firmware/main.c:51-95 | the column code changes only PORTA and PORTD |
| `Refresh.Step` | firmware/main.c:40-105 | one interrupt keeps the three 3-entry arrays in shape |
| `Refresh.Run` | firmware/main.c:40-105 | a sequence of interrupts keeps the three 3-entry arrays in shape |
| `Refresh.RowOf` | firmware/main.c:46-103 | each stage 1..18 names a scan row 0..2 |
| `Refresh.BitOf` | firmware/main.c:51-95 | each stage 1..18 names a bit 0..2 of the latched row |
| `Refresh.LedLine` | firmware/main.c:51-95 | each plane and bit maps to one of the four lines of a column port |
| `Refresh.RedSelectStage` | firmware/main.c:46-77 | the only red row-select stage of row k is 3k + 1 |
| `Refresh.StepCounts` | firmware/main.c:41-45 | a tick from stage 0..18 goes to the next stage; from 18 it goes to 1 and counts `frames_count` down as a uint8; no other tick touches the countdown |
| `Refresh.StepLatches` | firmware/main.c:46-103 | `refresh_row` is reloaded only on stages 1, 4, 7, 10, 13 and 16, from the plane and row that stage names; only stages 1, 4 and 7 write `new_buttons[0..2]`, each with PINB >> 3; all other stages keep both |
| `Refresh.StepDrivesOneLed` | firmware/main.c:46-103 | every tick preserves the invariant that the ports drive exactly one LED: bit 2 - (s-1) mod 3 of the latched row, on the line of that plane and bit (red: PORTD.1, PORTA.0, PORTD.3; green: PORTD.0, PORTA.1, PORTD.2); every other column line stays high and PORTB selects row ((s-1) mod 9) / 3 with 0x04, 0x02, 0x40 for both planes |
| `Refresh.RunCounters` | firmware/main.c:41-45 | a run moves the two counters exactly as the counting rule applied once per tick |
| `Refresh.RunCounts` | firmware/main.c:41-45 | closed form: after n ticks the pair (stage, countdown) is `ClosedForm`, that is ((s0 - 1 + n) mod 18 + 1, countdown minus one per wrap (WrapsAfter = (s0 - 1 + n) div 18), modulo 256) |
| `Refresh.PrefixAt` | firmware/main.c:40-105 | the first n ticks' PINB values, as a sequence, hold pinb(j) at position j |
| `Refresh.RunStep` | firmware/main.c:40-105 | one more tick extends a run by exactly one `Step` on that tick's PINB |
| `Refresh.Display.TickInRun` | firmware/main.c:40-105 | tick n of a run on the globals extends the run by pinb(n), and the counters stand at the counting rule applied n + 1 times |
| `Refresh.FrameReturns` | firmware/main.c:41-45 | 18 ticks from any stage 1..18 return to that stage with `frames_count` lowered by exactly one (0 goes to 255) |
| `Refresh.SampleTick` | firmware/main.c:46-77 | within a frame, tick m moves into the red select stage of button row k exactly when m is that stage's tick |
| `Refresh.RunSamples` | firmware/main.c:46-77 | in a run of at most 18 ticks, button row k is sampled exactly at the tick that passes stage 3k + 1, from that tick's PINB, else it keeps its old sample |
| `Refresh.FrameSamplesEveryRow` | firmware/main.c:46-77 | one whole frame refreshes all three button rows |
| `Refresh.Display.constructor` | firmware/main.c:250-256 | power-on state: counters and arrays zero, PORTA = 3 and PORTD = 0xf (all LEDs off), and the invariant holds |
| `Refresh.Display.Tick` | firmware/main.c:40-105 | one interrupt on the globals performs `Step` exactly, keeps the one-LED invariant, and leaves `reds` and `greens` alone |
| `Refresh.Display.CountStage` | firmware/main.c:41-45 | `++refresh_stage` with the wrap at 19 performs `Advance` |
| `Refresh.Display.SelectRow` | firmware/main.c:46-103 | the switch's row-select cases perform `Latch` |
| `Refresh.Display.SelectRed` | firmware/main.c:46-77 | a red select samples PINB >> 3 into `new_buttons[k]`, latches `reds[k]` and leaves PORTB at the row's select value |
| `Refresh.Display.SelectGreen` | firmware/main.c:78-102 | a green select latches `greens[k]` and leaves PORTB at the row's select value |
| `Refresh.Display.DriveColumn` | firmware/main.c:51-95 | the column code performs `Lines` |
| `Refresh.Display.Sleep` | firmware/main.c:108-113 | `sleep(frames)` is exactly a run of SleepTicks(stage, frames) ticks and ends with `frames_count` = 0; for frames >= 1 it ends at stage 1 after exactly `frames` wraps |
| `Refresh.Display.Wait` | firmware/main.c:110-112 | the do-while ticks at least once and stops at the first tick whose countdown reads 0 |
| `Counting.CountersClosedForm` | firmware/main.c:41-45 | the counting rule applied n times equals `ClosedForm`: (StageAfter, frames - WrapsAfter mod 256) |
| `Counting.NextClosed` | firmware/main.c:41-45 | one application of the counting rule moves the closed form for m ticks to the closed form for m + 1 |
| `Counting.CountersFullFrame` | firmware/main.c:41-45 | 18 applications of the counting rule return to the stage with one frame counted down |
| `Counting.FrameVisitsEachStage` | firmware/main.c:40-105 | the 18 ticks of a frame visit each stage 1..18 exactly once |
| `Counting.SleepStops` | firmware/main.c:108-113 | within SleepTicks ticks the countdown reads 0 only at the last one, which is at stage 1 after `frames` wraps when frames >= 1 |
| `Buttons.NewlyPressed` | firmware/main.c:115-120 | bit i (i < 3) of the result is set iff bit i of the sample is 0 (pressed) and bit i of the previous state is 1 (released); when the previous state has no bit above bit 2 (as `Keypad.Valid` keeps it), nothing above bit 2 is set |
| `Buttons.HeldReportedOnce` | firmware/main.c:115-120 | a button held across two looks is not reported by the second |
| `Buttons.PressAfterRelease` | firmware/main.c:115-120 | a button released at one look and pressed at the next is reported by the next |
| `Buttons.Keypad.constructor` | firmware/main.c:122-126 | zero-initialised `prev_buttons` and `buttons` |
| `Buttons.Keypad.ReadRow` | firmware/main.c:115-120 | `read_btn_row` returns NewlyPressed of the sample and the old row state, and stores the sample's 3 low bits as the new state; nothing else changes |
| `Buttons.Keypad.Peek` | firmware/main.c:130-135 | `peek_buttons` stores each row's new presses in `buttons[k]`, updates each row state, and returns their union, which is 0 iff no row has a new press |
| `Firmware.ReadButtons` | firmware/main.c:139-157 | the wait took `ticks` = 15000 - `counter` ticks of the display and every look before the last found no new press; on a press: `counter` is in 1..14999, `buttons` holds that last look, which is not empty, `prev_buttons` holds the row state that look left (its samples' 3 low bits), `random_seed` is `AddCount` of the old seed and `counter` (the uint16 sum), and the display has run the wait's ticks and then exactly the ticks of `sleep(2)`, ending at stage 1 with the countdown 0; on power-down: `counter` is 0 after 15000 ticks, the display has run exactly those ticks, the seed is unchanged, `buttons` still holds look 14999 and `prev_buttons` the row state that look left, as no look follows the last tick |
| `Firmware.WaitPress` | firmware/main.c:140-154 | the do-while has run the display exactly n = 15000 - counter ticks from its start state; looks 1..n - 1 found no new press; on a press, n < 15000, `buttons` is look n, the first look that is not quiet, and `prev_buttons` is the row state look n left; otherwise n = 15000, `buttons` is look 14999 and `prev_buttons` the row state look 14999 left |
| `Firmware.Round` | firmware/main.c:141-154 | one pass ticks once; it stops with power-down exactly when the count was 1, else makes look n + 1 and stops with a press exactly when that look is not quiet, leaving that look in `buttons` and its row state in `prev_buttons`; on power-down no look is made, so `buttons` and `prev_buttons` still hold look n and its row state |
| `Firmware.WaitStarts` | firmware/main.c:140-141 | before the first pass no tick has run and no look has been made |
| `Firmware.PollAt` | firmware/main.c:130-154 | look n after tick n stores LookAt(w, n) in `buttons`, returns non-zero exactly when that look is not quiet, and leaves the row state of look n + 1 |
| `Firmware.Poll` | firmware/main.c:130-135 | `peek_buttons` on the interrupt's `new_buttons` leaves the display untouched |
| `Firmware.Look` | firmware/main.c:115-135 | `peek_buttons` stores NewPresses of the samples and the old row state, sets the row state to the samples' low bits, and returns the union of the three rows |
| `Firmware.LookStep` | firmware/main.c:115-135 | the look after tick n, on that tick's samples and the row state the previous look left, is LookAt(w, n) |
| `Firmware.Settle` | firmware/main.c:155-156 | after a press, `random_seed` becomes `AddCount` of the old seed and `counter`, and the display runs exactly the ticks of `sleep(2)`, ending at stage 1 with the countdown 0 |
| `Firmware.Debounce` | firmware/main.c:156 | `sleep(2)` runs the display exactly SleepTicks(stage, 2) more ticks from the countdown 2, ending at stage 1 with the countdown 0 |
| `Firmware.SleepInstruction` | firmware/main.c:142 | the `sleep` instruction with only the timer enabled is one interrupt: after n ticks of the wait it leaves the display at tick n + 1 |
| `Prng.NextSeed` | firmware/main.c:160-163 | `(seed << 2) + seed + 12345` in 16 bits is 5 * seed + 12345 modulo 2^16 |
| `Prng.NextPrev` | firmware/main.c:160-163 | the seed step is a permutation of the 65536 seeds, with inverse (seed - 12345) * 52429 |
| `Prng.Output` | firmware/main.c:160-163 | the returned byte is bits 5..12 of the new seed |
| `Prng.Rng.constructor` | firmware/main.c:127 | `random_seed` is a global without an initialiser, so it starts at 0 (the start of `DrawsFromZero`) |
| `Prng.Rng.Rand` | firmware/main.c:160-163 | `rand` steps `random_seed` once and returns that seed's byte, so the outputs are determined by the starting seed |
| `Prng.DrawsFromZero` | firmware/main.c:160-163 | the first four draws from seed 0 are 129, 10, 183, 21 |
| `Codec.PackFrame` | firmware/main.c:238-240 | body bits 0..2 are row 0's bits 0..2, bits 3..5 row 1's, bits 6..7 row 2's bits 1..2 |
| `Codec.FillFrame` | firmware/main.c:170-174 | for every byte v and tail t, packing the filled frame gives back v, and bit 0 of row 2 is t & 1 |
| `Codec.FillPack` | firmware/main.c:170-174 | filling a packed frame with its own row-2 bit 0 restores the 3 low bits of every row |
| `Codec.FillTailBit` | firmware/main.c:170-174 | only bit 0 of the tail argument reaches the frame |
| `Codec.FillFrameInto` | firmware/main.c:170-174 | `fill_frame` writes exactly FillFrame's three rows into the bitmap |
| `Codec.SetArray` | firmware/main.c:165-167 | `set_array` sets all three entries to the value |
| `Codec.Expand` | firmware/main.c:222-224 | every set bit of v stays set |
| `Codec.ExpandBit` | firmware/main.c:222-224 | bit i of the result is set iff bit i or a neighbour of it is set in v |
| `Codec.TailRoundTrip` | firmware/main.c:226-236 | after `StoreTail` writes slot s of a tail byte, `TailOf` slot s reads back the red and green tail bits, and every other slot keeps its two bits |
| `Codec.StoreFrame` | firmware/main.c:366-369 | the store step keeps the arrays' lengths (20, 20, 5) |
| `Codec.LoadFrame` | firmware/main.c:232-236 | `load_frame` yields two 3-row bitmaps, filled from the body bytes and the frame's `TailOf` slot; what they hold is stated by `LoadAfterStore` |
| `Codec.LoadAfterStore` | firmware/main.c:232-240 | storing frame i and loading it back restores the 3 low bits of every row of both planes |
| `Codec.LoadOtherAfterStore` | firmware/main.c:366-369 | storing frame i changes nothing `load_frame(j)` sees for any other frame j, including the frames sharing its tail byte |
| `Codec.MessageStore.constructor` | firmware/main.c:226-230 | zero-initialised message arrays of lengths 20, 20 and 5 |
| `Codec.MessageStore.Store` | firmware/main.c:366-369 | the store step on the arrays performs StoreFrame: only `message_reds[i]`, `message_greens[i]` and slot i mod 4 of `message_tails[i / 4]` change |
| `Codec.MessageStore.PutTail` | firmware/main.c:368-369 | the read-modify-write of `message_tails[i >> 2]` writes `StoreTail` of slot i mod 4 into that byte only; by `TailRoundTrip`, `TailOf` that slot then reads back the new bits |
| `Codec.MessageStore.Load` | firmware/main.c:232-236 | `load_frame` on the arrays writes LoadFrame's bitmaps and changes no stored frame |

## Left out

- Wake from power-down (the PCINT handler resets the stack pointer and
  jumps to `main`): this is non-returning machine-level control flow.
- Firmware.ReadButtons: the outcome `PoweredDown` is the state at the moment
  the count reaches 0, after the 15000th tick. The power-down entry that
  follows is not modelled. It stops the timer, writes PORTA = PORTD = 0 and
  PORTB = 0x38 (the pull-ups for the button pins), sets up the pin-change
  interrupt and sleeps. So on `PoweredDown` the model's ports still hold the
  values tick 15000 left, not the power-down values. This path ends in a
  sleep that only a restart leaves, so nothing in the model runs after it.
- Register set-up in `main` other than the initial PORTA/PORTD values, and
  the timer's period: hardware configuration.
- `animate4`, the start animation and the die images: they read program
  memory (`pgm_read_byte_near`). Their unpacking uses `fill_frame`, which is
  modelled.
- Concurrency between the interrupt and the foreground: ticks are modelled
  as discrete calls between foreground steps. A tick that preempts a
  foreground write to `reds`/`greens` halfway (a torn read) is not captured.
- The `sleep` instruction is modelled as exactly one timer tick. This relies
  on the timer being the only interrupt enabled while idle.
- The transient PORTB values written just before a button sample (0xfb, 0xfd,
  0xbf) are written by `Refresh.Display.SelectRed` but are not part of the
  `RefreshState` value: only the last value written to each port is kept.
- The main loop, the menu dispatch and the games (including the editor's
  toggling of `reds`/`greens` after a store, `scroll`, the dice and the
  timer): these are driven by blocking button waits and delays.
