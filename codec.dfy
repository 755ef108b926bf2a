/** The frame codec and the message store of the editor.

    A display frame is a 3-row bitmap per colour plane; only the three low
    bits of each row are shown (0 = LED on).  Packed, a plane's 9 bits are a
    body byte holding 8 of them plus a tail bit, bit 0 of row 2.  The message
    store keeps up to 20 frames: a body byte per plane per frame, and the two
    tail bits of a frame (red, then green) in 2-bit slot i mod 4 of tail byte
    i / 4. */
module Codec {
  import opened Bits

  /** MESSAGE_MAX. */
  const MessageMax: nat := 20
  /** Length of `message_tails`: four frames' tails per byte. */
  const TailBytes: nat := (MessageMax + 3) / 4

  // ---------------------------------------------------------------------
  // One frame.
  // ---------------------------------------------------------------------

  /** `pack_frame`: row 0's bits 0..2 go to bits 0..2, row 1's bits 0..2 to
      bits 3..5, row 2's bits 1..2 to bits 6..7.  Row 2's bit 0, the tail,
      is not kept. */
  function PackFrame(rows: seq<bv8>): (v: bv8)
    requires |rows| == 3
    ensures forall i: nat :: i < 3 ==> (Bit(v, i) <==> Bit(rows[0], i))
    ensures forall i: nat :: i < 3 ==> (Bit(v, i + 3) <==> Bit(rows[1], i))
    ensures forall i: nat :: 1 <= i < 3 ==> (Bit(v, i + 5) <==> Bit(rows[2], i))
  {
    (rows[0] & 7) | ((rows[1] & 7) << 3) | ((rows[2] & 6) << 5)
  }

  /** `fill_frame`'s three rows for a body byte v and a tail (only bit 0 of
      the tail counts).  Packing them gives back v, and bit 0 of row 2 is
      the tail bit. */
  function FillFrame(v: bv8, tail: bv8): (rows: seq<bv8>)
    ensures |rows| == 3
    ensures PackFrame(rows) == v && rows[2] & 1 == tail & 1
  {
    [v, v >> 3, ((v >> 5) & 6) | (tail & 1)]
  }

  /** The other round trip: unpacking a packed frame with its own tail bit
      restores the three shown bits of every row. */
  lemma FillPack(rows: seq<bv8>)
    requires |rows| == 3
    ensures forall k :: 0 <= k < 3 ==> FillFrame(PackFrame(rows), rows[2])[k] & 7 == rows[k] & 7
  {
  }

  /** Only bit 0 of the tail argument reaches the frame. */
  lemma FillTailBit(v: bv8, a: bv8, b: bv8)
    requires a & 1 == b & 1
    ensures FillFrame(v, a) == FillFrame(v, b)
  {
  }

  /** `fill_frame` writing into a 3-byte bitmap. */
  method FillFrameInto(dst: array<bv8>, v: bv8, tail: bv8)
    requires dst.Length == 3
    modifies dst
    ensures dst[..] == FillFrame(v, tail)
  {
    dst[0] := v;
    dst[1] := v >> 3;
    dst[2] := ((v >> 5) & 6) | (tail & 1);
  }

  /** `set_array`: every row of a bitmap set to the same value. */
  method SetArray(dst: array<bv8>, val: bv8)
    requires dst.Length == 3
    modifies dst
    ensures dst[..] == [val, val, val]
  {
    dst[2] := val;
    dst[1] := val;
    dst[0] := val;
  }

  /** `expand`: every set bit also sets its two neighbours. */
  function Expand(v: bv8): (r: bv8)
    ensures v & !r == 0
  {
    v | (v << 1) | (v >> 1)
  }

  /** Bit i of Expand(v) is set exactly when bit i or one of its neighbours
      is set in v. */
  lemma ExpandBit(v: bv8, i: nat)
    requires i < 8
    ensures Bit(Expand(v), i) <==> Bit(v, i) || (0 < i && Bit(v, i - 1)) || (i < 7 && Bit(v, i + 1))
  {
    // One case per bit position: each case fixes the shift amounts, which
    // keeps every bit-vector goal small for the solver.
    if i == 0 {
    } else if i == 1 {
    } else if i == 2 {
    } else if i == 3 {
    } else if i == 4 {
    } else if i == 5 {
    } else if i == 6 {
    } else {
    }
  }

  // ---------------------------------------------------------------------
  // Tail bits.
  // ---------------------------------------------------------------------

  /** The editor's tail update: slot `slot` (bits 2*slot and 2*slot + 1) of
      tail byte t gets bit 0 of row 2 of the red and of the green bitmap;
      the other three slots are kept. */
  function StoreTail(t: bv8, slot: nat, red: bv8, green: bv8): (stored: bv8)
    requires slot < 4
  {
    (t & !(3 << (slot * 2))) | (((red & 1) | ((green & 1) << 1)) << (slot * 2))
  }

  /** `load_frame`'s tail: the tail byte shifted so that slot `slot` is in
      bits 0 (red) and 1 (green). */
  function TailOf(t: bv8, slot: nat): (bits: bv8)
    requires slot < 4
  {
    t >> (slot * 2)
  }

  /** Reading slot `slot` back after storing into it gives the stored red
      and green tail bits; reading another slot gives what it held before. */
  lemma TailRoundTrip(t: bv8, slot: nat, other: nat, red: bv8, green: bv8)
    requires slot < 4 && other < 4
    ensures TailOf(StoreTail(t, slot, red, green), slot) & 1 == red & 1
    ensures (TailOf(StoreTail(t, slot, red, green), slot) >> 1) & 1 == green & 1
    ensures other != slot ==> TailOf(StoreTail(t, slot, red, green), other) & 3 == TailOf(t, other) & 3
  {
    if slot == 0 {
      TailOtherSlot0(t, other, red, green);
    } else if slot == 1 {
      TailOtherSlot1(t, other, red, green);
    } else if slot == 2 {
      TailOtherSlot2(t, other, red, green);
    } else {
      TailOtherSlot3(t, other, red, green);
    }
  }

  // TailRoundTrip, one stored slot at a time: with the slot a literal, each
  // shift amount is a constant and the bit-vector goal stays small, where
  // one lemma over a symbolic slot is too costly for the solver.

  lemma TailOtherSlot0(t: bv8, other: nat, red: bv8, green: bv8)
    requires other < 4
    ensures TailOf(StoreTail(t, 0, red, green), 0) & 1 == red & 1
    ensures (TailOf(StoreTail(t, 0, red, green), 0) >> 1) & 1 == green & 1
    ensures other != 0 ==> TailOf(StoreTail(t, 0, red, green), other) & 3 == TailOf(t, other) & 3
  {
  }

  lemma TailOtherSlot1(t: bv8, other: nat, red: bv8, green: bv8)
    requires other < 4
    ensures TailOf(StoreTail(t, 1, red, green), 1) & 1 == red & 1
    ensures (TailOf(StoreTail(t, 1, red, green), 1) >> 1) & 1 == green & 1
    ensures other != 1 ==> TailOf(StoreTail(t, 1, red, green), other) & 3 == TailOf(t, other) & 3
  {
  }

  lemma TailOtherSlot2(t: bv8, other: nat, red: bv8, green: bv8)
    requires other < 4
    ensures TailOf(StoreTail(t, 2, red, green), 2) & 1 == red & 1
    ensures (TailOf(StoreTail(t, 2, red, green), 2) >> 1) & 1 == green & 1
    ensures other != 2 ==> TailOf(StoreTail(t, 2, red, green), other) & 3 == TailOf(t, other) & 3
  {
  }

  lemma TailOtherSlot3(t: bv8, other: nat, red: bv8, green: bv8)
    requires other < 4
    ensures TailOf(StoreTail(t, 3, red, green), 3) & 1 == red & 1
    ensures (TailOf(StoreTail(t, 3, red, green), 3) >> 1) & 1 == green & 1
    ensures other != 3 ==> TailOf(StoreTail(t, 3, red, green), other) & 3 == TailOf(t, other) & 3
  {
  }

  // ---------------------------------------------------------------------
  // The message store.
  // ---------------------------------------------------------------------

  /** `message_reds`, `message_greens` and `message_tails` as values. */
  datatype Message = Message(reds: seq<bv8>, greens: seq<bv8>, tails: seq<bv8>)

  predicate Sized(m: Message)
  {
    |m.reds| == MessageMax && |m.greens| == MessageMax && |m.tails| == TailBytes
  }

  /** The editor's store step for frame i: pack both planes of the current
      bitmaps and put their tail bits into slot i mod 4 of tail byte i / 4. */
  function StoreFrame(m: Message, i: nat, reds: seq<bv8>, greens: seq<bv8>): (r: Message)
    requires Sized(m) && i < MessageMax && |reds| == 3 && |greens| == 3
    ensures Sized(r)
  {
    Message(
      m.reds[i := PackFrame(reds)],
      m.greens[i := PackFrame(greens)],
      m.tails[i / 4 := StoreTail(m.tails[i / 4], i % 4, reds[2], greens[2])])
  }

  /** `load_frame(i)`: the red and green bitmaps of frame i. */
  function LoadFrame(m: Message, i: nat): (r: (seq<bv8>, seq<bv8>))
    requires Sized(m) && i < MessageMax
    ensures |r.0| == 3 && |r.1| == 3
  {
    var tail := TailOf(m.tails[i / 4], i % 4);
    (FillFrame(m.reds[i], tail), FillFrame(m.greens[i], tail >> 1))
  }

  /** Storing frame i and loading it back restores the three shown bits of
      every row of both planes. */
  lemma LoadAfterStore(m: Message, i: nat, reds: seq<bv8>, greens: seq<bv8>)
    requires Sized(m) && i < MessageMax && |reds| == 3 && |greens| == 3
    ensures var (r, g) := LoadFrame(StoreFrame(m, i, reds, greens), i);
      forall k :: 0 <= k < 3 ==> r[k] & 7 == reds[k] & 7 && g[k] & 7 == greens[k] & 7
  {
    var m' := StoreFrame(m, i, reds, greens);
    var t := StoreTail(m.tails[i / 4], i % 4, reds[2], greens[2]);
    var tail := TailOf(t, i % 4);
    assert m'.reds[i] == PackFrame(reds) && m'.greens[i] == PackFrame(greens) && m'.tails[i / 4] == t;
    assert LoadFrame(m', i) == (FillFrame(PackFrame(reds), tail), FillFrame(PackFrame(greens), tail >> 1));
    TailRoundTrip(m.tails[i / 4], i % 4, i % 4, reds[2], greens[2]);
    PlaneRoundTrip(reds, tail);
    PlaneRoundTrip(greens, tail >> 1);
  }

  /** One plane of LoadAfterStore: unpacking a packed plane with a tail
      whose bit 0 is the plane's own tail bit restores its shown bits. */
  lemma PlaneRoundTrip(rows: seq<bv8>, tail: bv8)
    requires |rows| == 3 && tail & 1 == rows[2] & 1
    ensures forall k :: 0 <= k < 3 ==> FillFrame(PackFrame(rows), tail)[k] & 7 == rows[k] & 7
  {
    FillPack(rows);
    FillTailBit(PackFrame(rows), tail, rows[2]);
  }

  /** Storing frame i leaves every other frame as it loads. */
  lemma LoadOtherAfterStore(m: Message, i: nat, j: nat, reds: seq<bv8>, greens: seq<bv8>)
    requires Sized(m) && i < MessageMax && j < MessageMax && i != j && |reds| == 3 && |greens| == 3
    ensures LoadFrame(StoreFrame(m, i, reds, greens), j) == LoadFrame(m, j)
  {
    var m' := StoreFrame(m, i, reds, greens);
    assert m'.reds[j] == m.reds[j] && m'.greens[j] == m.greens[j];
    var a := TailOf(m'.tails[j / 4], j % 4);
    var b := TailOf(m.tails[j / 4], j % 4);
    if i / 4 == j / 4 {
      TailRoundTrip(m.tails[j / 4], i % 4, j % 4, reds[2], greens[2]);
      LowBits(a, b);
    } else {
      assert m'.tails[j / 4] == m.tails[j / 4];
    }
    FillTailBit(m.reds[j], a, b);
    FillTailBit(m.greens[j], a >> 1, b >> 1);
  }

  /** Two bytes with the same two low bits agree in bit 0 and in bit 0 of
      their right shift by one. */
  lemma LowBits(a: bv8, b: bv8)
    requires a & 3 == b & 3
    ensures a & 1 == b & 1 && (a >> 1) & 1 == (b >> 1) & 1
  {
  }

  /** `message_reds`, `message_greens` and `message_tails`. */
  class MessageStore {
    const reds: array<bv8>
    const greens: array<bv8>
    const tails: array<bv8>

    ghost function Contents(): Message
      reads this, reds, greens, tails
    {
      Message(reds[..], greens[..], tails[..])
    }

    ghost predicate Valid()
      reads this
    {
      && reds.Length == MessageMax && greens.Length == MessageMax && tails.Length == TailBytes
      && reds != greens && reds != tails && greens != tails
    }

    /** Zero-initialised globals. */
    constructor ()
      ensures Valid() && fresh(reds) && fresh(greens) && fresh(tails)
      ensures forall k :: 0 <= k < MessageMax ==> reds[k] == 0 && greens[k] == 0
      ensures forall k :: 0 <= k < TailBytes ==> tails[k] == 0
    {
      reds := new bv8[MessageMax](_ => 0);
      greens := new bv8[MessageMax](_ => 0);
      tails := new bv8[TailBytes](_ => 0);
    }

    /** The editor's store step: save the bitmaps `frameReds` and
        `frameGreens` as frame i. */
    method Store(i: nat, frameReds: array<bv8>, frameGreens: array<bv8>)
      requires Valid() && i < MessageMax && frameReds.Length == 3 && frameGreens.Length == 3
      requires frameReds != reds && frameReds != greens && frameReds != tails
      requires frameGreens != reds && frameGreens != greens && frameGreens != tails
      modifies reds, greens, tails
      ensures Valid()
      ensures Contents() == StoreFrame(old(Contents()), i, frameReds[..], frameGreens[..])
    {
      reds[i] := PackFrame(frameReds[..]);
      greens[i] := PackFrame(frameGreens[..]);
      PutTail(i, frameReds[2], frameGreens[2]);
    }

    /** The tail half of the store step: slot i mod 4 of tail byte i / 4
        gets the red and green tail bits. */
    method PutTail(i: nat, red: bv8, green: bv8)
      requires Valid() && i < MessageMax
      modifies tails
      ensures tails[..] == old(tails[..])[i / 4 := StoreTail(old(tails[i / 4]), i % 4, red, green)]
    {
      var t, shift := tails[i / 4], (i % 4) * 2;
      var v := (t & !(3 << shift)) | (((red & 1) | ((green & 1) << 1)) << shift);
      assert v == StoreTail(t, i % 4, red, green);
      tails[i / 4] := v;
    }

    /** `load_frame(i)` into the bitmaps `frameReds` and `frameGreens`. */
    method Load(i: nat, frameReds: array<bv8>, frameGreens: array<bv8>)
      requires Valid() && i < MessageMax && frameReds.Length == 3 && frameGreens.Length == 3
      requires frameReds != frameGreens
      requires frameReds != reds && frameReds != greens && frameReds != tails
      requires frameGreens != reds && frameGreens != greens && frameGreens != tails
      modifies frameReds, frameGreens
      ensures (frameReds[..], frameGreens[..]) == LoadFrame(Contents(), i)
      ensures Contents() == old(Contents())
    {
      var tail := tails[i / 4] >> ((i % 4) * 2);
      FillFrameInto(frameReds, reds[i], tail);
      FillFrameInto(frameGreens, greens[i], tail >> 1);
    }
  }
}
