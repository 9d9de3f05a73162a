/**
 What the MODBUS CRC guarantees: the residue of an accepted frame is zero, and
 which transmission errors an accepted frame can and cannot hide.

 The proofs read a frame as its bits, least significant bit of each byte first,
 which is the order in which the register consumes them.
 */
module CrcTheory {
  import opened Crc

  // ---------------------------------------------------------------------
  // The step is linear over exclusive-or and loses no information.

  function Xor(a: bv16, b: bv16): bv16 { a ^ b }

  lemma BitStepFlat(crc: bv16)
    ensures BitStep(crc) == (crc >> 1) ^ ((crc & 1) << 15) ^ ((crc & 1) << 13) ^ (crc & 1)
  {
    if crc & 1 == 0 {
      assert BitStep(crc) == crc >> 1;
    } else {
      assert crc & 1 == 1;
    }
  }

  lemma FlatLinear(a: bv16, b: bv16)
    ensures ((a ^ b) >> 1) ^ (((a ^ b) & 1) << 15) ^ (((a ^ b) & 1) << 13) ^ ((a ^ b) & 1)
         == ((a >> 1) ^ ((a & 1) << 15) ^ ((a & 1) << 13) ^ (a & 1))
          ^ ((b >> 1) ^ ((b & 1) << 15) ^ ((b & 1) << 13) ^ (b & 1))
  {
  }

  lemma BitStepLinear(a: bv16, b: bv16)
    ensures BitStep(Xor(a, b)) == Xor(BitStep(a), BitStep(b))
  {
    BitStepFlat(a);
    BitStepFlat(b);
    BitStepFlat(a ^ b);
    FlatLinear(a, b);
  }

  lemma BitStepZero(crc: bv16)
    ensures BitStep(crc) == 0 <==> crc == 0
  {
  }

  lemma {:induction false} ShiftLinear(a: bv16, b: bv16, n: nat)
    ensures Shift(Xor(a, b), n) == Xor(Shift(a, n), Shift(b, n))
  {
    hide Xor, BitStep;
    if n > 0 {
      ShiftLinear(a, b, n - 1);
      BitStepLinear(Shift(a, n - 1), Shift(b, n - 1));
    }
  }

  lemma {:induction false} ShiftZero(crc: bv16, n: nat)
    ensures Shift(crc, n) == 0 <==> crc == 0
  {
    hide BitStep;
    if n > 0 {
      ShiftZero(crc, n - 1);
      BitStepZero(Shift(crc, n - 1));
    }
  }

  lemma XorCancels(a: bv16, b: bv16)
    ensures a ^ b == 0 <==> a == b
  {
  }

  lemma XorIdentity(a: bv16)
    ensures a ^ 0 == a && 0 ^ a == a
  {
  }

  lemma XorZero(a: bv16, b: bv16)
    ensures Xor(a, b) == 0 <==> a == b
    ensures Xor(a, 0) == a && Xor(0, b) == b
  {
    XorCancels(a, b);
    XorIdentity(a);
    XorIdentity(b);
  }

  lemma XorAssociates(a: bv16, b: bv16, c: bv16)
    ensures Xor(a, Xor(b, c)) == Xor(Xor(a, b), c)
  {
  }

  /** No two register values step to the same one: the shift can be run backwards. */
  lemma ShiftInjective(a: bv16, b: bv16, n: nat)
    requires Shift(a, n) == Shift(b, n)
    ensures a == b
  {
    hide Xor, Shift;
    ShiftLinear(a, b, n);
    ShiftZero(Xor(a, b), n);
    XorZero(a, b);
    XorZero(Shift(a, n), Shift(b, n));
  }

  lemma {:induction false} ShiftAdd(crc: bv16, m: nat, n: nat)
    ensures Shift(crc, m + n) == Shift(Shift(crc, m), n)
  {
    hide BitStep;
    if n > 0 {
      ShiftAdd(crc, m, n - 1);
    }
  }

  // ---------------------------------------------------------------------
  // Zero residue.

  lemma Shift8(crc: bv16)
    ensures Shift(crc, 8) ==
            BitStep(BitStep(BitStep(BitStep(BitStep(BitStep(BitStep(BitStep(crc))))))))
  {
    hide BitStep;
    assert Shift(crc, 1) == BitStep(Shift(crc, 0));
    assert Shift(crc, 3) == BitStep(BitStep(Shift(crc, 1)));
    assert Shift(crc, 5) == BitStep(BitStep(Shift(crc, 3)));
    assert Shift(crc, 7) == BitStep(BitStep(Shift(crc, 5)));
  }

  lemma HighByteFallsThrough(h: Byte)
    ensures Shift((h as bv16) << 8, 8) == h as bv16
  {
    Shift8((h as bv16) << 8);
  }

  lemma SplitWord(crc: bv16, low: Byte, high: Byte)
    ensures Xor(crc, low as bv16) == (high as bv16) << 8 <==> low == Low(crc) && high == High(crc)
  {
  }

  lemma ByteStepIsShift(crc: bv16, b: Byte)
    ensures ByteStep(crc, b) == Shift(Xor(crc, b as bv16), 8)
  {
  }

  /** Feeding two more bytes clears the register exactly when they are its own low and high byte. */
  lemma ResidueOfTrailer(crc: bv16, low: Byte, high: Byte)
    ensures ByteStep(ByteStep(crc, low), high) == 0 <==> low == Low(crc) && high == High(crc)
  {
    hide Xor, Shift, ByteStep, Low, High;
    var y := Xor(crc, low as bv16);
    var s := Shift(y, 8);
    ByteStepIsShift(crc, low);
    ByteStepIsShift(s, high);
    ShiftZero(Xor(s, high as bv16), 8);
    XorZero(s, high as bv16);
    HighByteFallsThrough(high);
    if s == high as bv16 {
      ShiftInjective(y, (high as bv16) << 8, 8);
    }
    SplitWord(crc, low, high);
  }

  lemma RunTwoMore(crc: bv16, data: seq<Byte>, low: Byte, high: Byte)
    ensures Run(crc, data + [low, high]) == ByteStep(ByteStep(Run(crc, data), low), high)
  {
    hide ByteStep;
    var all := data + [low, high];
    assert all[..|all| - 1] == data + [low];
    assert (data + [low])[..|data|] == data;
  }

  /** A frame is accepted exactly when the checksum of the whole frame, trailer included, is zero. */
  lemma ZeroResidue(frame: seq<Byte>)
    ensures HasValidCrc(frame) <==> |frame| >= 3 && Checksum(frame) == 0
  {
    hide ByteStep, Run, Low, High;
    if |frame| >= 3 {
      var n := |frame| - 2;
      assert frame == frame[..n] + [frame[n], frame[n + 1]];
      RunTwoMore(INITIAL_VALUE, frame[..n], frame[n], frame[n + 1]);
      ResidueOfTrailer(Checksum(frame[..n]), frame[n], frame[n + 1]);
    }
  }

  /** The encoder and the validator agree, and no other trailer is accepted for a body. */
  lemma AcceptedIsAppended(body: seq<Byte>, frame: seq<Byte>)
    requires |frame| == |body| + 2 && body != []
    ensures HasValidCrc(frame) && frame[..|body|] == body <==> frame == AppendCrc(body)
  {
    hide Checksum, Low, High;
    if HasValidCrc(frame) && frame[..|body|] == body {
      assert frame == body + [frame[|body|], frame[|body| + 1]];
    }
  }

  // ---------------------------------------------------------------------
  // Errors and their syndrome.

  /** The frame received when `error` marks the flipped bits. */
  function Corrupt(frame: seq<Byte>, error: seq<Byte>): (received: seq<Byte>)
    requires |frame| == |error|
    ensures |received| == |frame|
  {
    seq(|frame|, i requires 0 <= i < |frame| => frame[i] ^ error[i])
  }

  lemma XorSwap(a: bv16, b: bv16, x: Byte, y: Byte)
    ensures Xor(Xor(a, b), (x ^ y) as bv16) == Xor(Xor(a, x as bv16), Xor(b, y as bv16))
  {
  }

  lemma ByteStepLinear(a: bv16, b: bv16, x: Byte, y: Byte)
    ensures ByteStep(Xor(a, b), x ^ y) == Xor(ByteStep(a, x), ByteStep(b, y))
  {
    hide Xor, Shift, ByteStep;
    ByteStepIsShift(Xor(a, b), x ^ y);
    ByteStepIsShift(a, x);
    ByteStepIsShift(b, y);
    XorSwap(a, b, x, y);
    ShiftLinear(Xor(a, x as bv16), Xor(b, y as bv16), 8);
  }

  lemma {:induction false} RunLinear(a: bv16, b: bv16, frame: seq<Byte>, error: seq<Byte>)
    requires |frame| == |error|
    ensures Run(Xor(a, b), Corrupt(frame, error)) == Xor(Run(a, frame), Run(b, error))
  {
    hide Xor, ByteStep;
    if frame != [] {
      var n := |frame| - 1;
      RunLinear(a, b, frame[..n], error[..n]);
      assert Corrupt(frame, error)[..n] == Corrupt(frame[..n], error[..n]);
      ByteStepLinear(Run(a, frame[..n]), Run(b, error[..n]), frame[n], error[n]);
    }
  }

  /** Whether an error goes unnoticed does not depend on the frame it hits. */
  lemma Syndrome(frame: seq<Byte>, error: seq<Byte>)
    requires HasValidCrc(frame) && |error| == |frame|
    ensures HasValidCrc(Corrupt(frame, error)) <==> Run(0, error) == 0
  {
    hide Xor, Run, Corrupt, HasValidCrc;
    ZeroResidue(frame);
    ZeroResidue(Corrupt(frame, error));
    RunLinear(INITIAL_VALUE, 0, frame, error);
    XorZero(INITIAL_VALUE, 0);
    XorZero(0, Run(0, error));
  }

  // ---------------------------------------------------------------------
  // The start value.

  /** Starting from all ones is starting from zero with the first two bytes complemented. */
  lemma StartComplements(data: seq<Byte>)
    requires |data| >= 2
    ensures Checksum(data) == Run(0, [data[0] ^ 0xFF, data[1] ^ 0xFF] + data[2..])
  {
    var error := [0xFF, 0xFF] + seq(|data| - 2, _ => 0);
    assert Corrupt(data, error) == [data[0] ^ 0xFF, data[1] ^ 0xFF] + data[2..] by {
      assert forall i :: 2 <= i < |data| ==> data[i] ^ 0 == data[i];
    }
    OnesCancel();
    hide Run, Corrupt, Xor;
    RunZeros(error, 2);
    RunLinear(INITIAL_VALUE, INITIAL_VALUE, data, error);
    XorZero(INITIAL_VALUE, INITIAL_VALUE);
    XorIdentity(Run(INITIAL_VALUE, data));
  }

  lemma NextByte(data: seq<Byte>, before: bv16, b: Byte, after: bv16)
    requires Run(INITIAL_VALUE, data) == before && ByteStep(before, b) == after
    ensures Run(INITIAL_VALUE, data + [b]) == after
  {
    hide ByteStep;
    assert (data + [b])[..|data|] == data;
  }

  lemma ByteSteps(before: bv16, b: Byte)
    ensures ByteStep(before, b) ==
            BitStep(BitStep(BitStep(BitStep(BitStep(BitStep(BitStep(BitStep(before ^ (b as bv16)))))))))
  {
    hide BitStep;
    Shift8(before ^ (b as bv16));
  }

  /** The example of MODBUS over Serial Line: 02 07 has the check bytes 41 12, low byte first. */
  lemma SerialLineExample()
    ensures Checksum([0x02, 0x07]) == 0x1241
    ensures AppendCrc([0x02, 0x07]) == [0x02, 0x07, 0x41, 0x12]
  {
    hide Run, ByteStep;
    assert Run(INITIAL_VALUE, []) == 0xFFFF by { StartsWithOnes(); }
    assert ByteStep(0xFFFF, 0x02) == 0x813E by { ByteSteps(0xFFFF, 0x02); }
    assert ByteStep(0x813E, 0x07) == 0x1241 by { ByteSteps(0x813E, 0x07); }
    var d1 := [] + [0x02];
    NextByte([], 0xFFFF, 0x02, 0x813E);
    NextByte(d1, 0x813E, 0x07, 0x1241);
    assert d1 + [0x07] == [0x02, 0x07];
  }

  lemma StartsWithOnes()
    ensures Run(INITIAL_VALUE, []) == 0xFFFF
  {
  }

  /** The first polling request, with the check bytes that a device expects. */
  lemma FirstPollExample()
    ensures AppendCrc([0x01, 0x03, 0x00, 0x0A, 0x00, 0x28]) == [0x01, 0x03, 0x00, 0x0A, 0x00, 0x28, 0x65, 0xD6]
  {
    hide Run, ByteStep;
    assert Run(INITIAL_VALUE, []) == 0xFFFF by { StartsWithOnes(); }
    assert ByteStep(0xFFFF, 0x01) == 0x807E by { ByteSteps(0xFFFF, 0x01); }
    assert ByteStep(0x807E, 0x03) == 0x2140 by { ByteSteps(0x807E, 0x03); }
    assert ByteStep(0x2140, 0x00) == 0xF020 by { ByteSteps(0x2140, 0x00); }
    assert ByteStep(0xF020, 0x0A) == 0xDF71 by { ByteSteps(0xF020, 0x0A); }
    assert ByteStep(0xDF71, 0x00) == 0x241F by { ByteSteps(0xDF71, 0x00); }
    assert ByteStep(0x241F, 0x28) == 0xD665 by { ByteSteps(0x241F, 0x28); }
    var d1 := [] + [0x01];
    var d2 := d1 + [0x03];
    var d3 := d2 + [0x00];
    var d4 := d3 + [0x0A];
    var d5 := d4 + [0x00];
    NextByte([], 0xFFFF, 0x01, 0x807E);
    NextByte(d1, 0x807E, 0x03, 0x2140);
    NextByte(d2, 0x2140, 0x00, 0xF020);
    NextByte(d3, 0xF020, 0x0A, 0xDF71);
    NextByte(d4, 0xDF71, 0x00, 0x241F);
    NextByte(d5, 0x241F, 0x28, 0xD665);
    assert d5 + [0x28] == [0x01, 0x03, 0x00, 0x0A, 0x00, 0x28];
  }

  lemma OnesCancel()
    ensures Run(INITIAL_VALUE, [0xFF, 0xFF]) == 0
  {
    assert [0xFF as Byte, 0xFF][..1] == [0xFF] && [0xFF as Byte][..0] == [];
    Shift8(0xFFFF ^ 0xFF);
    Shift8(0xFF ^ 0xFF);
  }

  /** A cleared register stays clear over zero bytes. */
  lemma {:induction false} RunZeros(data: seq<Byte>, n: nat)
    requires n <= |data| && Run(INITIAL_VALUE, data[..n]) == 0 && forall i :: n <= i < |data| ==> data[i] == 0
    ensures Run(INITIAL_VALUE, data) == 0
  {
    hide ByteStep;
    if n == |data| {
      assert data[..n] == data;
    } else {
      var k := |data| - 1;
      assert data[..k][..n] == data[..n];
      RunZeros(data[..k], n);
      ByteStepIsShift(0, 0);
      ShiftZero(0, 8);
    }
  }

  // ---------------------------------------------------------------------
  // A frame as its bits, least significant first.

  function BitOf(b: Byte, k: nat): bool
    requires k < 8
  {
    if k == 0 then b & 0x01 != 0
    else if k == 1 then b & 0x02 != 0
    else if k == 2 then b & 0x04 != 0
    else if k == 3 then b & 0x08 != 0
    else if k == 4 then b & 0x10 != 0
    else if k == 5 then b & 0x20 != 0
    else if k == 6 then b & 0x40 != 0
    else b & 0x80 != 0
  }

  function Bits(data: seq<Byte>): (bits: seq<bool>)
    ensures |bits| == 8 * |data|
  {
    seq(8 * |data|, i requires 0 <= i < 8 * |data| => BitOf(data[i / 8], i % 8))
  }

  function Bit(b: bool): bv16 { if b then 1 else 0 }

  function BitIn(crc: bv16, b: bool): bv16 { BitStep(Xor(crc, Bit(b))) }

  /** The register fed one bit at a time. */
  function RunBits(crc: bv16, bits: seq<bool>): bv16 {
    if bits == [] then crc
    else BitIn(RunBits(crc, bits[..|bits| - 1]), bits[|bits| - 1])
  }

  function Ones(bits: seq<bool>): nat {
    if bits == [] then 0
    else Ones(bits[..|bits| - 1]) + if bits[|bits| - 1] then 1 else 0
  }

  lemma {:induction false} RunBitsConcat(crc: bv16, left: seq<bool>, right: seq<bool>)
    ensures RunBits(crc, left + right) == RunBits(RunBits(crc, left), right)
  {
    hide BitIn;
    if right == [] {
      assert left + right == left;
    } else {
      var n := |right| - 1;
      assert (left + right)[..|left| + n] == left + right[..n];
      RunBitsConcat(crc, left, right[..n]);
    }
  }

  lemma RunBitsHead(crc: bv16, bits: seq<bool>)
    requires bits != []
    ensures RunBits(crc, bits) == RunBits(BitIn(crc, bits[0]), bits[1..])
  {
    hide BitIn;
    assert bits == [bits[0]] + bits[1..];
    RunBitsConcat(crc, [bits[0]], bits[1..]);
    assert [bits[0]][..0] == [];
  }

  /** One more bit below a word that is moved up to make room. */
  function Push(b: bool, word: bv16): bv16 { Xor(Bit(b), word << 1) }

  /** Up to sixteen bits packed the way the register meets them. */
  function Word(bits: seq<bool>): bv16 {
    if bits == [] then 0 else Push(bits[0], Word(bits[1..]))
  }

  function Up(mask: bv16): bv16 { mask << 1 }

  /** The positions a word of `n` bits leaves free. */
  function Free(n: nat): bv16 {
    if n == 0 then 0xFFFF else Up(Free(n - 1))
  }

  ghost predicate Fits(w: bv16, mask: bv16) { w & mask == 0 }

  lemma DoubleFits(w: bv16, mask: bv16)
    ensures (w << 1) & (mask << 1) == (w & mask) << 1
    ensures (1 ^ (w << 1)) & (mask << 1) == (w & mask) << 1
  {
  }

  lemma PushFits(b: bool, w: bv16, mask: bv16)
    requires Fits(w, mask)
    ensures Fits(Push(b, w), Up(mask))
  {
    DoubleFits(w, mask);
    XorIdentity(w << 1);
  }

  lemma NothingFits()
    ensures Fits(0, 0xFFFF)
  {
  }

  lemma {:induction false} WordFits(bits: seq<bool>)
    ensures Fits(Word(bits), Free(|bits|))
  {
    hide Push, Fits, Up;
    if bits == [] {
      NothingFits();
    } else {
      WordFits(bits[1..]);
      PushFits(bits[0], Word(bits[1..]), Free(|bits| - 1));
    }
  }

  lemma FreeTop(n: nat)
    requires n <= 15
    ensures Free(n) & 0x8000 == 0x8000
  {
    assert Free(4) == 0xFFF0;
    assert Free(8) == 0xFF00;
    assert Free(12) == 0xF000;
    assert Free(1) == 0xFFFE;
    assert Free(2) == 0xFFFC;
    assert Free(3) == 0xFFF8;
    assert Free(5) == 0xFFE0;
    assert Free(6) == 0xFFC0;
    assert Free(7) == 0xFF80;
    assert Free(9) == 0xFE00;
    assert Free(10) == 0xFC00;
    assert Free(11) == 0xF800;
    assert Free(13) == 0xE000;
    assert Free(14) == 0xC000;
    assert Free(15) == 0x8000;
  }

  lemma TopClear(w: bv16, mask: bv16)
    requires Fits(w, mask) && mask & 0x8000 == 0x8000
    ensures w & 0x8000 == 0
  {
  }

  lemma UndoShift(w: bv16)
    requires w & 0x8000 == 0
    ensures BitStep(w << 1) == w
  {
  }

  /** A bit can wait above the register and be exclusive-ored in with the ones before it. */
  lemma PushIsBitIn(crc: bv16, b: bool, w: bv16)
    requires w & 0x8000 == 0
    ensures BitStep(Xor(crc, Push(b, w))) == Xor(BitIn(crc, b), w)
  {
    hide Xor, BitStep;
    XorAssociates(crc, Bit(b), w << 1);
    BitStepLinear(Xor(crc, Bit(b)), w << 1);
    UndoShift(w);
  }

  /** Feeding up to sixteen bits one by one is exclusive-oring them in at once and shifting. */
  lemma {:induction false} Absorb(crc: bv16, bits: seq<bool>)
    requires |bits| <= 16
    ensures RunBits(crc, bits) == Shift(Xor(crc, Word(bits)), |bits|)
    decreases |bits|
  {
    hide Xor, BitStep, BitIn, Push;
    if bits == [] {
      XorZero(crc, 0);
    } else {
      var rest := bits[1..];
      RunBitsHead(crc, bits);
      Absorb(BitIn(crc, bits[0]), rest);
      WordFits(rest);
      FreeTop(|rest|);
      TopClear(Word(rest), Free(|rest|));
      PushIsBitIn(crc, bits[0], Word(rest));
      ShiftAdd(Xor(crc, Word(bits)), 1, |rest|);
      assert Shift(Xor(crc, Word(bits)), 1) == BitStep(Shift(Xor(crc, Word(bits)), 0));
    }
  }

  lemma PackByte(b: Byte)
    ensures Push(BitOf(b, 0), Push(BitOf(b, 1), Push(BitOf(b, 2), Push(BitOf(b, 3),
            Push(BitOf(b, 4), Push(BitOf(b, 5), Push(BitOf(b, 6), Push(BitOf(b, 7), 0)))))))) == b as bv16
  {
  }

  lemma WordOfNothing()
    ensures Word([]) == 0
  {
  }

  lemma WordOfCons(b: bool, rest: seq<bool>)
    ensures Word([b] + rest) == Push(b, Word(rest))
  {
    hide Push;
    assert ([b] + rest)[1..] == rest;
  }

  lemma BitsOfByte(b: Byte)
    ensures Bits([b]) == [BitOf(b, 0), BitOf(b, 1), BitOf(b, 2), BitOf(b, 3),
                          BitOf(b, 4), BitOf(b, 5), BitOf(b, 6), BitOf(b, 7)]
  {
    hide BitOf;
  }

  lemma WordOfFour(b0: bool, b1: bool, b2: bool, b3: bool, rest: seq<bool>)
    ensures Word([b0, b1, b2, b3] + rest) == Push(b0, Push(b1, Push(b2, Push(b3, Word(rest)))))
  {
    hide Push, Word;
    WordOfCons(b3, rest);
    WordOfCons(b2, [b3] + rest);
    WordOfCons(b1, [b2] + ([b3] + rest));
    WordOfCons(b0, [b1] + ([b2] + ([b3] + rest)));
    assert [b0, b1, b2, b3] + rest == [b0] + ([b1] + ([b2] + ([b3] + rest)));
  }

  lemma WordOfByte(b: Byte)
    ensures Word(Bits([b])) == b as bv16
  {
    hide BitOf, Push, Bits, Word;
    BitsOfByte(b);
    WordOfNothing();
    var top := [BitOf(b, 4), BitOf(b, 5), BitOf(b, 6), BitOf(b, 7)];
    WordOfFour(BitOf(b, 4), BitOf(b, 5), BitOf(b, 6), BitOf(b, 7), []);
    assert top + [] == top;
    WordOfFour(BitOf(b, 0), BitOf(b, 1), BitOf(b, 2), BitOf(b, 3), top);
    assert Bits([b]) == [BitOf(b, 0), BitOf(b, 1), BitOf(b, 2), BitOf(b, 3)] + top;
    PackByte(b);
  }

  lemma BitsSnoc(data: seq<Byte>)
    requires data != []
    ensures Bits(data) == Bits(data[..|data| - 1]) + Bits([data[|data| - 1]])
  {
    hide BitOf;
    var n := |data| - 1;
    var joined := Bits(data[..n]) + Bits([data[n]]);
    forall i | 0 <= i < 8 * |data|
      ensures Bits(data)[i] == joined[i]
    {
      if i >= 8 * n {
        assert i / 8 == n && i % 8 == i - 8 * n;
      }
    }
  }

  /** The byte loop and the bit stream are the same computation. */
  lemma {:induction false} RunIsRunBits(crc: bv16, data: seq<Byte>)
    ensures Run(crc, data) == RunBits(crc, Bits(data))
  {
    hide Xor, Bits, ByteStep, Shift, Word, RunBits;
    if data == [] {
      RunBitsNothing(crc);
    } else {
      var n := |data| - 1;
      var last := Bits([data[n]]);
      RunIsRunBits(crc, data[..n]);
      BitsSnoc(data);
      RunBitsConcat(crc, Bits(data[..n]), last);
      Absorb(RunBits(crc, Bits(data[..n])), last);
      WordOfByte(data[n]);
      ByteStepIsShift(Run(crc, data[..n]), data[n]);
    }
  }

  lemma RunBitsNothing(crc: bv16)
    ensures RunBits(crc, Bits([])) == crc
  {
  }

  // ---------------------------------------------------------------------
  // Bursts of up to sixteen bits.

  lemma {:induction false} RunBitsClear(crc: bv16, bits: seq<bool>)
    requires forall i :: 0 <= i < |bits| ==> !bits[i]
    ensures RunBits(crc, bits) == Shift(crc, |bits|)
  {
    hide Xor, BitStep;
    if bits != [] {
      var before := bits[..|bits| - 1];
      RunBitsClear(crc, before);
      XorZero(RunBits(crc, before), 0);
    }
  }

  lemma OddWord(w: bv16)
    ensures Push(true, w) != 0
  {
  }

  /** A window that starts with a set bit and spans at most sixteen leaves a mark in the register. */
  lemma BurstWindow(bits: seq<bool>)
    requires 0 < |bits| <= 16 && bits[0]
    ensures RunBits(0, bits) != 0
  {
    hide Xor, Push, Shift, RunBits;
    Absorb(0, bits);
    OddWord(Word(bits[1..]));
    XorZero(0, Word(bits));
    ShiftZero(Word(bits), |bits|);
  }

  lemma {:induction false} FirstSet(bits: seq<bool>, at: nat) returns (first: nat)
    requires at < |bits| && bits[at]
    ensures first <= at && bits[first]
    ensures forall i :: 0 <= i < first ==> !bits[i]
  {
    if j :| 0 <= j < at && bits[j] {
      first := FirstSet(bits, j);
    } else {
      first := at;
    }
  }

  /** Only the bits from the first to the last set one decide whether the register ends at zero. */
  lemma TrimClear(bits: seq<bool>, first: nat, end: nat)
    requires first <= end <= |bits|
    requires forall i :: 0 <= i < |bits| && bits[i] ==> first <= i < end
    ensures RunBits(0, bits) == 0 <==> RunBits(0, bits[first..end]) == 0
  {
    hide RunBits, Shift;
    var window := bits[first..end];
    assert bits == (bits[..first] + window) + bits[end..];
    RunBitsConcat(0, bits[..first] + window, bits[end..]);
    RunBitsConcat(0, bits[..first], window);
    RunBitsClear(0, bits[..first]);
    ShiftZero(0, first);
    RunBitsClear(RunBits(0, window), bits[end..]);
    ShiftZero(RunBits(0, window), |bits| - end);
  }

  /** Every error burst of at most sixteen bits is caught, wherever it falls, trailer included. */
  lemma BurstDetected(frame: seq<Byte>, error: seq<Byte>, at: nat, start: nat)
    requires HasValidCrc(frame) && |error| == |frame|
    requires at < |Bits(error)| && Bits(error)[at]
    requires forall i :: 0 <= i < |Bits(error)| && Bits(error)[i] ==> start <= i < start + 16
    ensures !HasValidCrc(Corrupt(frame, error))
  {
    hide Run, RunBits, Bits, Corrupt, HasValidCrc;
    var bits := Bits(error);
    Syndrome(frame, error);
    RunIsRunBits(0, error);
    var first := FirstSet(bits, at);
    var end := if first + 16 <= |bits| then first + 16 else |bits|;
    TrimClear(bits, first, end);
    BurstWindow(bits[first..end]);
  }

  // ---------------------------------------------------------------------
  // Parity.

  /** The exclusive-or of all sixteen register bits, folded in halves. */
  function Half(crc: bv16): bv16 { (crc ^ (crc >> 8)) & 0xFF }
  function Quarter(crc: bv16): bv16 { (crc ^ (crc >> 4)) & 0xF }
  function Eighth(crc: bv16): bv16 { (crc ^ (crc >> 2)) & 3 }
  function Parity(crc: bv16): bool {
    var e := Eighth(Quarter(Half(crc)));
    (e ^ (e >> 1)) & 1 != 0
  }

  lemma HalfFlat(a: bv16, b: bv16)
    ensures Half(a ^ b) == Half(a) ^ Half(b)
  {
  }

  lemma HalfLinear(a: bv16, b: bv16)
    ensures Half(Xor(a, b)) == Xor(Half(a), Half(b))
  {
    hide Half;
    HalfFlat(a, b);
  }

  lemma QuarterLinear(a: bv16, b: bv16)
    ensures Quarter(Xor(a, b)) == Xor(Quarter(a), Quarter(b))
  {
  }

  lemma EighthLinear(a: bv16, b: bv16)
    ensures Eighth(Xor(a, b)) == Xor(Eighth(a), Eighth(b))
  {
  }

  lemma LastLinear(a: bv16, b: bv16)
    requires a & 3 == a && b & 3 == b
    ensures ((Xor(a, b) ^ (Xor(a, b) >> 1)) & 1 != 0) == (((a ^ (a >> 1)) & 1 != 0) != ((b ^ (b >> 1)) & 1 != 0))
  {
  }

  lemma EighthSmall(a: bv16)
    ensures Eighth(a) & 3 == Eighth(a)
  {
  }

  lemma ParityLinear(a: bv16, b: bv16)
    ensures Parity(Xor(a, b)) == (Parity(a) != Parity(b))
  {
    hide Xor, Half, Quarter, Eighth;
    HalfLinear(a, b);
    QuarterLinear(Half(a), Half(b));
    EighthLinear(Quarter(Half(a)), Quarter(Half(b)));
    EighthSmall(Quarter(Half(a)));
    EighthSmall(Quarter(Half(b)));
    LastLinear(Eighth(Quarter(Half(a))), Eighth(Quarter(Half(b))));
  }

  lemma ParityConstants()
    ensures Parity(1) && Parity(POLYNOMIAL) && !Parity(0) && !Parity(INITIAL_VALUE)
  {
  }

  lemma ParityOfDouble(w: bv16)
    requires w & 0x8000 == 0
    ensures Parity(w << 1) == Parity(w)
  {
  }

  lemma LowBitCases(crc: bv16)
    ensures (crc >> 1) & 0x8000 == 0
    ensures crc & 1 == 0 ==> crc == (crc >> 1) << 1
    ensures crc & 1 != 0 ==> crc == ((crc >> 1) << 1) ^ 1
  {
  }

  lemma StepCases(crc: bv16)
    ensures (crc >> 1) & 0x8000 == 0
    ensures crc & 1 == 0 ==> crc == (crc >> 1) << 1 && BitStep(crc) == crc >> 1
    ensures crc & 1 != 0 ==> crc == Xor((crc >> 1) << 1, 1) && BitStep(crc) == Xor(crc >> 1, POLYNOMIAL)
  {
    LowBitCases(crc);
  }

  /** The polynomial has an even number of terms, so a step never changes the parity. */
  lemma ParityOfStep(crc: bv16)
    ensures Parity(BitStep(crc)) == Parity(crc)
  {
    hide Xor, Parity, BitStep;
    StepCases(crc);
    ParityOfDouble(crc >> 1);
    ParityConstants();
    ParityLinear((crc >> 1) << 1, 1);
    ParityLinear(crc >> 1, POLYNOMIAL);
  }

  lemma {:induction false} ParityOfRun(crc: bv16, bits: seq<bool>)
    ensures Parity(RunBits(crc, bits)) == (Parity(crc) != (Ones(bits) % 2 == 1))
  {
    hide Xor, Parity, BitStep;
    if bits != [] {
      var before, last := bits[..|bits| - 1], bits[|bits| - 1];
      ParityOfRun(crc, before);
      ParityConstants();
      ParityLinear(RunBits(crc, before), Bit(last));
      ParityOfStep(Xor(RunBits(crc, before), Bit(last)));
    }
  }

  /** Every accepted frame carries an even number of one bits. */
  lemma AcceptedIsEven(frame: seq<Byte>)
    requires HasValidCrc(frame)
    ensures Ones(Bits(frame)) % 2 == 0
  {
    hide Run, RunBits, Bits, Ones, Parity, HasValidCrc;
    ZeroResidue(frame);
    RunIsRunBits(INITIAL_VALUE, frame);
    ParityOfRun(INITIAL_VALUE, Bits(frame));
    ParityConstants();
  }

  /** Hence any odd number of flipped bits is caught. */
  lemma OddErrorDetected(frame: seq<Byte>, error: seq<Byte>)
    requires HasValidCrc(frame) && |error| == |frame|
    requires Ones(Bits(error)) % 2 == 1
    ensures !HasValidCrc(Corrupt(frame, error))
  {
    hide Run, RunBits, Bits, Ones, Parity, HasValidCrc, Corrupt;
    Syndrome(frame, error);
    RunIsRunBits(0, error);
    ParityOfRun(0, Bits(error));
    ParityConstants();
  }
}
