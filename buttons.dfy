/** Button edge detection.  The refresh interrupt leaves one raw sample per
    button row in `new_buttons` (a 0 bit is a pressed button, only the three
    low bits are meaningful); the foreground turns those samples into "newly
    pressed" bitmaps (a 1 bit is a button that went down since the previous
    look). */
module Buttons {
  import opened Bits

  /** `read_btn_row`'s result for a raw sample `cur` and the previous row
      state `prev`: the buttons that read pressed (0) now and read released
      (1) in `prev`. */
  function NewlyPressed(cur: bv8, prev: bv8): (r: bv8)
    ensures forall i: nat :: i < 3 ==> (Bit(r, i) <==> !Bit(cur, i) && Bit(prev, i))
    ensures prev & !7 == 0 ==> r & !7 == 0
  {
    (!(cur & 7)) & prev
  }

  /** A button held down over two consecutive looks is reported by the first
      look at most: once the row state is the first sample's low bits, the
      second look does not report it again. */
  lemma HeldReportedOnce(first: bv8, second: bv8)
    ensures forall i: nat :: i < 3 && !Bit(first, i) ==> !Bit(NewlyPressed(second, first & 7), i)
  {
  }

  /** A press is reported on the first look after a look that saw the button
      released. */
  lemma PressAfterRelease(first: bv8, second: bv8)
    ensures forall i: nat :: i < 3 && Bit(first, i) && !Bit(second, i) ==> Bit(NewlyPressed(second, first & 7), i)
  {
  }

  /** `prev_buttons[3]` and `buttons[3]`. */
  class Keypad {
    const prev: array<bv8>      // prev_buttons: last raw sample per row, low 3 bits
    const buttons: array<bv8>   // buttons: newly pressed per row

    ghost predicate Valid()
      reads this, prev
    {
      && prev.Length == 3 && buttons.Length == 3 && prev != buttons
      && forall k :: 0 <= k < 3 ==> prev[k] & !7 == 0
    }

    /** Zero-initialised globals. */
    constructor ()
      ensures Valid() && fresh(prev) && fresh(buttons)
      ensures prev[..] == [0, 0, 0] && buttons[..] == [0, 0, 0]
    {
      prev := new bv8[3](_ => 0);
      buttons := new bv8[3](_ => 0);
      new;
      assert prev[..] == [0, 0, 0];
      assert buttons[..] == [0, 0, 0];
    }

    /** `read_btn_row(new_buttons + k, prev_buttons + k)`: report the new
        presses of row k and remember the sample's low bits. */
    method ReadRow(cur: bv8, k: nat) returns (r: bv8)
      requires Valid() && k < 3
      modifies prev
      ensures Valid()
      ensures r == NewlyPressed(cur, old(prev[k])) && r & !7 == 0
      ensures prev[..] == old(prev[..])[k := cur & 7]
    {
      var t := cur & 7;
      r := (!t) & prev[k];
      prev[k] := t;
    }

    /** `peek_buttons`: read all three rows of `current` (the interrupt's
        `new_buttons`), store each row's new presses in `buttons`, and return
        their union, which is 0 exactly when no button went down. */
    method Peek(current: array<bv8>) returns (any: bv8)
      requires Valid() && current.Length == 3
      requires current != prev && current != buttons
      modifies prev, buttons
      ensures Valid()
      ensures forall k :: 0 <= k < 3 ==>
        buttons[k] == NewlyPressed(current[k], old(prev[k])) && prev[k] == current[k] & 7
      ensures any == buttons[0] | buttons[1] | buttons[2] && any & !7 == 0
      ensures any == 0 <==> forall k :: 0 <= k < 3 ==> buttons[k] == 0
    {
      var b0 := ReadRow(current[0], 0);
      buttons[0] := b0;
      var b1 := ReadRow(current[1], 1);
      buttons[1] := b1;
      var b2 := ReadRow(current[2], 2);
      buttons[2] := b2;
      any := b0 | b1 | b2;
      UnionZero(b0, b1, b2);
    }
  }

  /** The union of three bitmaps is empty exactly when each of them is. */
  lemma UnionZero(a: bv8, b: bv8, c: bv8)
    ensures (a | b | c) == 0 <==> a == 0 && b == 0 && c == 0
  {
  }
}
