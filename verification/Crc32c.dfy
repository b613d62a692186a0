/** Table-driven CRC-32C against bit-serial division by the reflected Castagnoli
    polynomial (section 12.1 of RFC 3720). */
module Crc32c {
  const POLYNOMIAL: bv32 := 0x82F63B78
  const ONES: bv32 := 0xFFFF_FFFF

  type Byte = b: bv32 | b <= 0xFF
  type Table = t: seq<bv32> | |t| == 256 witness seq(256, _ => 0)

  // Named word operations, so that proofs can hide their bits.
  function Xor(a: bv32, b: bv32): bv32 { a ^ b }
  function Half(v: bv32): bv32 { v >> 1 }
  function Odd(v: bv32): bool { v & 1 != 0 }
  function Low(v: bv32): Byte { LowFits(v); v & 0xFF }
  function Rest(v: bv32): bv32 { v >> 8 }

  lemma LowFits(v: bv32)
    ensures v & 0xFF <= 0xFF
  {
  }

  // ---- The bit-serial reference -------------------------------------------

  function Feedback(v: bv32): bv32 { if Odd(v) then POLYNOMIAL else 0 }

  // One step of the division register.
  function Shift(v: bv32): bv32 { Xor(Half(v), Feedback(v)) }

  function Shifts(v: bv32, n: nat): bv32 {
    if n == 0 then v else Shift(Shifts(v, n - 1))
  }

  // The register after one message bit, the lowest bit of `bit`.
  function SerialBit(crc: bv32, bit: bv32): bv32 { Xor(Half(crc), Feedback(Xor(crc, bit))) }

  function Halves(v: bv32, n: nat): bv32 {
    if n == 0 then v else Half(Halves(v, n - 1))
  }

  // The register after the `n` lowest bits of a byte, least significant first.
  function SerialBits(crc: bv32, byte: bv32, n: nat): bv32 {
    if n == 0 then crc else SerialBit(SerialBits(crc, byte, n - 1), Halves(byte, n - 1))
  }

  function Serial(crc: bv32, bytes: seq<Byte>): bv32 {
    if bytes == [] then crc else SerialBits(Serial(crc, bytes[..|bytes| - 1]), bytes[|bytes| - 1], 8)
  }

  function Bytes(w: bv32): seq<Byte> {
    [Low(w), Low(Rest(w)), Low(Rest(Rest(w))), Low(Rest(Rest(Rest(w))))]
  }

  function LittleEndian(words: seq<bv32>): seq<Byte> {
    if words == [] then [] else LittleEndian(words[..|words| - 1]) + Bytes(words[|words| - 1])
  }

  // ---- The table ------------------------------------------------------------

  ghost predicate IsTable(table: Table) {
    forall v: Byte :: table[v as int] == Shifts(v, 8)
  }

  method TableEntry(value: bv32) returns (entry: bv32)
    ensures entry == Shifts(value, 8)
  {
    hide Xor, Half, Odd;
    entry := value;
    for bit := 0 to 8
      invariant entry == Shifts(value, bit)
    {
      entry := Xor(Half(entry), if Odd(entry) then POLYNOMIAL else 0);
    }
  }

  method MakeTable() returns (table: Table)
    ensures IsTable(table)
  {
    var entries := [];
    for index := 0 to 256
      invariant |entries| == index
      invariant forall v: Byte :: v as int < index ==> entries[v as int] == Shifts(v, 8)
    {
      var entry := TableEntry(index as bv32);
      hide Shifts;
      entries := entries + [entry];
    }
    table := entries;
  }

  function UpdateByte(table: Table, crc: bv32, byte: Byte): bv32
  {
    Xor(table[Low(Xor(crc, byte)) as int], Rest(crc))
  }

  function UpdateWord(table: Table, crc: bv32, w: bv32): bv32
  {
    var crc1 := UpdateByte(table, crc, Low(w));
    var crc2 := UpdateByte(table, crc1, Low(Rest(w)));
    var crc3 := UpdateByte(table, crc2, Low(Rest(Rest(w))));
    UpdateByte(table, crc3, Low(Rest(Rest(Rest(w)))))
  }

  // ---- Facts about single words ------------------------------------------------

  lemma XorHalf(a: bv32, b: bv32)
    ensures Half(Xor(a, b)) == Xor(Half(a), Half(b))
  {
  }

  lemma XorOdd(a: bv32, b: bv32)
    ensures Odd(Xor(a, b)) <==> Odd(a) != Odd(b)
  {
  }

  lemma Associative(a: bv32, b: bv32, c: bv32)
    ensures (a ^ b) ^ c == a ^ (b ^ c)
  {
  }

  lemma Commutative(a: bv32, b: bv32)
    ensures Xor(a, b) == Xor(b, a)
  {
  }

  lemma XorAssociative(a: bv32, b: bv32, c: bv32)
    ensures Xor(Xor(a, b), c) == Xor(a, Xor(b, c))
    ensures Xor(Xor(a, b), c) == Xor(Xor(a, c), b)
  {
    XorGroups(a, b, c);
    XorGroups(a, c, b);
    Commutative(b, c);
    hide Xor;
  }

  lemma XorGroups(a: bv32, b: bv32, c: bv32)
    ensures Xor(Xor(a, b), c) == Xor(a, Xor(b, c))
  {
    Associative(a, b, c);
  }

  lemma XorPairs(a: bv32, b: bv32, c: bv32, d: bv32)
    ensures Xor(Xor(a, b), Xor(c, d)) == Xor(Xor(a, c), Xor(b, d))
  {
    hide Xor;
    XorGroups(Xor(a, b), c, d);
    XorAssociative(a, b, c);
    XorGroups(Xor(a, c), b, d);
  }

  lemma XorZero(a: bv32)
    ensures Xor(a, 0) == a && Xor(0, a) == a && Xor(a, a) == 0
  {
  }

  lemma XorCancels(a: bv32, b: bv32, c: bv32)
    ensures Xor(a, c) == Xor(b, c) <==> a == b
    ensures Xor(c, a) == Xor(c, b) <==> a == b
  {
  }

  lemma LowOfByte(b: Byte)
    ensures Low(b) == b && Rest(b) == 0
  {
  }

  lemma RestOfXor(a: bv32, b: bv32)
    ensures Rest(Xor(a, b)) == Xor(Rest(a), Rest(b))
  {
  }

  // ---- The register is linear and invertible -----------------------------------

  lemma FeedbackLinear(a: bv32, b: bv32)
    ensures Feedback(Xor(a, b)) == Xor(Feedback(a), Feedback(b))
  {
    XorOdd(a, b);
    XorZero(POLYNOMIAL);
    XorZero(0);
    hide Xor, Odd;
  }

  lemma ShiftLinear(a: bv32, b: bv32)
    ensures Shift(Xor(a, b)) == Xor(Shift(a), Shift(b))
  {
    FeedbackLinear(a, b);
    XorHalf(a, b);
    XorPairs(Half(a), Half(b), Feedback(a), Feedback(b));
    hide Xor, Half, Feedback;
  }

  lemma {:induction false} ShiftsLinear(a: bv32, b: bv32, n: nat)
    ensures Shifts(Xor(a, b), n) == Xor(Shifts(a, n), Shifts(b, n))
  {
    hide Xor, Shift;
    if n > 0 {
      ShiftsLinear(a, b, n - 1);
      ShiftLinear(Shifts(a, n - 1), Shifts(b, n - 1));
    }
  }

  lemma {:induction false} ShiftsAdd(v: bv32, m: nat, n: nat)
    ensures Shifts(Shifts(v, m), n) == Shifts(v, m + n)
  {
    hide Shift;
    if n > 0 { ShiftsAdd(v, m, n - 1); }
  }

  // The polynomial's top bit marks every step that fed back.
  lemma TopBit(v: bv32)
    ensures Shift(v) >= 0x8000_0000 <==> Odd(v)
  {
    if Odd(v) { TopBitSet(v); } else { TopBitClear(v); }
  }

  lemma TopBitSet(v: bv32)
    ensures (v >> 1) ^ 0x82F63B78 >= 0x8000_0000
  {
  }

  lemma TopBitClear(v: bv32)
    ensures (v >> 1) ^ 0 < 0x8000_0000
  {
  }

  lemma HalfAndOdd(a: bv32, b: bv32)
    requires Half(a) == Half(b) && Odd(a) == Odd(b)
    ensures a == b
  {
  }

  lemma ShiftInjective(a: bv32, b: bv32)
    requires Shift(a) == Shift(b)
    ensures a == b
  {
    TopBit(a);
    TopBit(b);
    XorCancels(Half(a), Half(b), Feedback(a));
    hide Xor, Half, Odd;
    HalfAndOdd(a, b);
  }

  lemma {:induction false} ShiftsInjective(a: bv32, b: bv32, n: nat)
    requires Shifts(a, n) == Shifts(b, n)
    ensures a == b
  {
    hide Shift;
    if n > 0 {
      ShiftInjective(Shifts(a, n - 1), Shifts(b, n - 1));
      ShiftsInjective(a, b, n - 1);
    }
  }

  // ---- One byte -------------------------------------------------------------------

  // Feeding bits one by one is shifting them in all at once.
  lemma {:induction false} SerialIsShifts(crc: bv32, byte: bv32, n: nat)
    ensures Shifts(Xor(crc, byte), n) == Xor(SerialBits(crc, byte, n), Halves(byte, n))
  {
    hide Xor, Half, Feedback;
    if n > 0 {
      var before, bits := SerialBits(crc, byte, n - 1), Halves(byte, n - 1);
      SerialIsShifts(crc, byte, n - 1);
      XorHalf(before, bits);
      XorAssociative(Half(before), Half(bits), Feedback(Xor(before, bits)));
    }
  }

  lemma EightHalves(v: bv32)
    ensures Halves(v, 8) == Rest(v)
  {
    hide Halves;
    HalvesUnrolled(v);
    HalfChain(v);
  }

  lemma HalvesUnrolled(v: bv32)
    ensures Halves(v, 0) == v && Halves(v, 1) == Half(v) && Halves(v, 2) == Half(Half(v))
    ensures Halves(v, 3) == Half(Half(Half(v))) && Halves(v, 4) == Half(Half(Half(Half(v))))
    ensures Halves(v, 5) == Half(Half(Half(Half(Half(v)))))
    ensures Halves(v, 6) == Half(Half(Half(Half(Half(Half(v))))))
    ensures Halves(v, 7) == Half(Half(Half(Half(Half(Half(Half(v)))))))
    ensures Halves(v, 8) == Half(Half(Half(Half(Half(Half(Half(Half(v))))))))
  {
    hide Half;
    assert Halves(v, 0) == v;
    HalvesStep(v, 0); HalvesStep(v, 1); HalvesStep(v, 2); HalvesStep(v, 3);
    HalvesStep(v, 4); HalvesStep(v, 5); HalvesStep(v, 6); HalvesStep(v, 7);
    hide Halves;
  }

  lemma HalvesStep(v: bv32, n: nat)
    ensures Halves(v, n + 1) == Half(Halves(v, n))
  {
  }

  lemma HalfChain(v: bv32)
    ensures Half(Half(Half(Half(Half(Half(Half(Half(v)))))))) == Rest(v)
  {
  }

  // Zero low bits shift out without feedback.
  lemma {:induction false} ShiftsOutZeros(v: bv32, n: nat)
    requires forall k :: 0 <= k < n ==> !Odd(Halves(v, k))
    ensures Shifts(v, n) == Halves(v, n)
  {
    hide Xor, Half, Odd;
    if n > 0 {
      ShiftsOutZeros(v, n - 1);
      XorZero(Half(Halves(v, n - 1)));
    }
  }

  lemma HighPartIsEven(v: bv32, k: nat)
    requires k < 8
    ensures !Odd(Halves(v & 0xFFFFFF00, k))
  {
    hide Halves;
    HighBits(v);
    HalvesUnrolled(v & 0xFFFFFF00);
    hide Half, Odd;
  }

  lemma HighBits(v: bv32)
    ensures var h := v & 0xFFFFFF00;
            && !Odd(h) && !Odd(Half(h)) && !Odd(Half(Half(h))) && !Odd(Half(Half(Half(h))))
            && !Odd(Half(Half(Half(Half(h))))) && !Odd(Half(Half(Half(Half(Half(h))))))
            && !Odd(Half(Half(Half(Half(Half(Half(h)))))))
            && !Odd(Half(Half(Half(Half(Half(Half(Half(h))))))))
  {
  }

  lemma SplitLow(v: bv32)
    ensures Xor(Low(v), v & 0xFFFFFF00) == v && Rest(v & 0xFFFFFF00) == Rest(v)
  {
  }

  // Eight steps on any register: a table look-up on its low byte.
  lemma EightSteps(table: Table, v: bv32)
    requires IsTable(table)
    ensures Shifts(v, 8) == Xor(table[Low(v) as int], Rest(v))
  {
    var high := v & 0xFFFFFF00;
    SplitLow(v);
    forall k | 0 <= k < 8 ensures !Odd(Halves(high, k)) { HighPartIsEven(v, k); }
    hide Xor, Low, Rest, Half, Odd, Shifts, Halves;
    ShiftsLinear(Low(v), high, 8);
    ShiftsOutZeros(high, 8);
    EightHalves(high);
  }

  // The table-driven step is eight bit-serial steps.
  lemma UpdateByteIsSerial(table: Table, crc: bv32, byte: Byte)
    requires IsTable(table)
    ensures UpdateByte(table, crc, byte) == SerialBits(crc, byte, 8)
    ensures UpdateByte(table, crc, byte) == Shifts(Xor(crc, byte), 8)
  {
    hide IsTable;
    EightSteps(table, Xor(crc, byte));
    RestOfXor(crc, byte);
    LowOfByte(byte);
    SerialIsShifts(crc, byte, 8);
    EightHalves(byte);
    XorZero(SerialBits(crc, byte, 8));
    XorZero(Rest(crc));
    hide Xor, Low, Rest, Shifts, Halves, SerialBits;
  }

  // ---- Words ------------------------------------------------------------------------

  // Folding in one byte of a word leaves the rest of it still to be folded in.
  lemma ByteOfWord(crc: bv32, w: bv32)
    ensures Shifts(Xor(crc, w), 8) == Xor(Shifts(Xor(crc, Low(w)), 8), Rest(w))
  {
    var high := w & 0xFFFFFF00;
    SplitLow(w);
    forall k | 0 <= k < 8 ensures !Odd(Halves(high, k)) { HighPartIsEven(w, k); }
    hide Xor, Low, Rest, Half, Odd, Shifts, Halves;
    XorGroups(crc, Low(w), high);
    ShiftsLinear(Xor(crc, Low(w)), high, 8);
    ShiftsOutZeros(high, 8);
    EightHalves(high);
  }

  lemma FourBytes(w: bv32)
    ensures Rest(Rest(Rest(Rest(w)))) == 0
  {
  }

  lemma MoreOfWord(table: Table, crc: bv32, w: bv32, n: nat)
    requires IsTable(table)
    ensures Shifts(Xor(crc, w), 8 + n) == Shifts(Xor(UpdateByte(table, crc, Low(w)), Rest(w)), n)
  {
    hide IsTable, Xor, Low, Rest, Shifts, UpdateByte;
    UpdateByteIsSerial(table, crc, Low(w));
    ByteOfWord(crc, w);
    ShiftsAdd(Xor(crc, w), 8, n);
  }

  lemma NoShifts(v: bv32)
    ensures Shifts(v, 0) == v
  {
  }

  // The state after the two low bytes of a word, and after all four.
  function UpdateHalf(table: Table, crc: bv32, w: bv32): bv32
  {
    UpdateByte(table, UpdateByte(table, crc, Low(w)), Low(Rest(w)))
  }

  lemma MoreOfHalves(table: Table, crc: bv32, w: bv32, n: nat)
    requires IsTable(table)
    ensures Shifts(Xor(crc, w), 16 + n) == Shifts(Xor(UpdateHalf(table, crc, w), Rest(Rest(w))), n)
  {
    hide IsTable, Xor, Low, Rest, Shifts, UpdateByte;
    MoreOfWord(table, crc, w, 8 + n);
    MoreOfWord(table, UpdateByte(table, crc, Low(w)), Rest(w), n);
  }

  lemma WordIsTwoHalves(table: Table, crc: bv32, w: bv32)
    ensures UpdateWord(table, crc, w) == UpdateHalf(table, UpdateHalf(table, crc, w), Rest(Rest(w)))
  {
    hide Low, Rest, UpdateByte;
  }

  // One word is thirty-two steps of the register.
  lemma UpdateWordIsShifts(table: Table, crc: bv32, w: bv32)
    requires IsTable(table)
    ensures UpdateWord(table, crc, w) == Shifts(Xor(crc, w), 32)
  {
    hide IsTable, Xor, Low, Rest, Shifts, UpdateHalf, UpdateWord;
    var half := UpdateHalf(table, crc, w);
    var whole := UpdateHalf(table, half, Rest(Rest(w)));
    WordIsTwoHalves(table, crc, w);
    MoreOfHalves(table, crc, w, 16);
    MoreOfHalves(table, half, Rest(Rest(w)), 0);
    FourBytes(w);
    NoShifts(Xor(whole, 0));
    XorZero(whole);
  }

  lemma SerialAppend(crc: bv32, bytes: seq<Byte>, b: Byte)
    ensures Serial(crc, bytes + [b]) == SerialBits(Serial(crc, bytes), b, 8)
  {
    assert (bytes + [b])[..|bytes|] == bytes;
  }

  // ... and the same as feeding its four bytes, low byte first, bit by bit.
  lemma UpdateWordIsSerial(table: Table, crc: bv32, bytes: seq<Byte>, w: bv32)
    requires IsTable(table)
    ensures UpdateWord(table, Serial(crc, bytes), w) == Serial(crc, bytes + Bytes(w))
  {
    hide IsTable, Serial, SerialBits, Low, Rest, UpdateByte, Xor, Shifts;
    var b := Bytes(w);
    SerialAppend(crc, bytes, b[0]);
    SerialAppend(crc, bytes + [b[0]], b[1]);
    SerialAppend(crc, bytes + [b[0]] + [b[1]], b[2]);
    SerialAppend(crc, bytes + [b[0]] + [b[1]] + [b[2]], b[3]);
    assert bytes + b == bytes + [b[0]] + [b[1]] + [b[2]] + [b[3]];
    var crc0 := Serial(crc, bytes);
    var crc1 := UpdateByte(table, crc0, b[0]);
    var crc2 := UpdateByte(table, crc1, b[1]);
    UpdateByteIsSerial(table, crc0, b[0]);
    UpdateByteIsSerial(table, crc1, b[1]);
    UpdateByteIsSerial(table, crc2, b[2]);
    UpdateByteIsSerial(table, UpdateByte(table, crc2, b[2]), b[3]);
  }

  // ---- Whole messages -----------------------------------------------------------------

  // The CRC of a byte string, by bit-serial division.
  function Crc(bytes: seq<Byte>): bv32 { Xor(Serial(ONES, bytes), ONES) }

  method Crc32cBytes(table: Table, bytes: seq<Byte>) returns (crc: bv32)
    requires IsTable(table)
    ensures crc == Crc(bytes)
  {
    hide SerialBits, Xor, IsTable, UpdateByte;
    crc := ONES;
    for index := 0 to |bytes|
      invariant crc == Serial(ONES, bytes[..index])
    {
      UpdateByteIsSerial(table, crc, bytes[index]);
      SerialAppend(ONES, bytes[..index], bytes[index]);
      assert bytes[..index + 1] == bytes[..index] + [bytes[index]];
      crc := UpdateByte(table, crc, bytes[index]);
    }
    assert bytes[..|bytes|] == bytes;
    crc := Xor(crc, ONES);
  }

  method Crc32cWords(table: Table, words: seq<bv32>) returns (crc: bv32)
    requires IsTable(table)
    ensures crc == Crc(LittleEndian(words))
  {
    hide Serial, Bytes, Xor, UpdateWord, IsTable;
    crc := ONES;
    SerialEmpty();
    for index := 0 to |words|
      invariant crc == Serial(ONES, LittleEndian(words[..index]))
    {
      UpdateWordIsSerial(table, ONES, LittleEndian(words[..index]), words[index]);
      assert words[..index + 1][..index] == words[..index];
      crc := UpdateWord(table, crc, words[index]);
    }
    assert words[..|words|] == words;
    crc := Xor(crc, ONES);
  }

  lemma SerialEmpty()
    ensures Serial(ONES, []) == ONES
  {
  }

  // The register after whole words.
  function Register(crc: bv32, words: seq<bv32>): bv32 {
    if words == [] then crc else Shifts(Xor(Register(crc, words[..|words| - 1]), words[|words| - 1]), 32)
  }

  lemma {:induction false} RegisterIsSerial(table: Table, words: seq<bv32>)
    requires IsTable(table)
    ensures Serial(ONES, LittleEndian(words)) == Register(ONES, words)
  {
    hide IsTable, Shifts, Xor, Bytes, UpdateWord;
    if words == [] {
      SerialEmpty();
    } else {
      var init, last := words[..|words| - 1], words[|words| - 1];
      RegisterIsSerial(table, init);
      UpdateWordIsSerial(table, ONES, LittleEndian(init), last);
      UpdateWordIsShifts(table, Register(ONES, init), last);
      hide Serial;
    }
  }

  // Each word step is injective in the running state and in the word.
  lemma StepInjective(a: bv32, b: bv32, v: bv32, w: bv32)
    requires Shifts(Xor(a, v), 32) == Shifts(Xor(b, w), 32)
    ensures a == b <==> v == w
  {
    hide Xor, Shifts;
    ShiftsInjective(Xor(a, v), Xor(b, w), 32);
    XorCancels(v, w, a);
    XorCancels(a, b, v);
  }

  ghost predicate DifferOnlyAt(words: seq<bv32>, other: seq<bv32>, k: nat) {
    |words| == |other| && k < |words| && words[k] != other[k] &&
    forall j :: 0 <= j < |words| && j != k ==> words[j] == other[j]
  }

  lemma {:induction false} OneWordChangesRegister(crc: bv32, words: seq<bv32>, other: seq<bv32>, k: nat)
    requires DifferOnlyAt(words, other, k)
    ensures Register(crc, words) != Register(crc, other)
  {
    hide Shifts, Xor;
    var n := |words| - 1;
    var before, after := Register(crc, words[..n]), Register(crc, other[..n]);
    if Shifts(Xor(before, words[n]), 32) == Shifts(Xor(after, other[n]), 32) {
      StepInjective(before, after, words[n], other[n]);
    }
    if k == n {
      assert words[..n] == other[..n];
    } else {
      OneWordChangesRegister(crc, words[..n], other[..n], k);
    }
  }

  // A frame whose last word is the CRC of the words before it.
  predicate Accepted(frame: seq<bv32>) {
    frame != [] && frame[|frame| - 1] == Crc(LittleEndian(frame[..|frame| - 1]))
  }

  // A frame that differs from an accepted one in exactly one word is rejected.
  lemma SingleWordCorruptionRejected(table: Table, frame: seq<bv32>, corrupt: seq<bv32>, k: nat)
    requires IsTable(table) && Accepted(frame) && DifferOnlyAt(frame, corrupt, k)
    ensures !Accepted(corrupt)
  {
    hide IsTable, Serial, Xor, LittleEndian, Register;
    var n := |frame| - 1;
    var words, other := frame[..n], corrupt[..n];
    RegisterIsSerial(table, words);
    RegisterIsSerial(table, other);
    XorCancels(Register(ONES, words), Register(ONES, other), ONES);
    if k == n {
      assert words == other;
    } else {
      OneWordChangesRegister(ONES, words, other, k);
    }
  }
}
