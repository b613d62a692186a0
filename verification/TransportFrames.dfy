/** Frames as they leave the input ring: words, and the checks every decoder
    begins with. */
module TransportFrames {
  import opened Words
  import C = Crc32c

  datatype Error =
    | NoError | InvalidLength | InvalidMagic | ContractMismatch | InvalidPayloadCount
    | SequenceMismatch | CrcMismatch | ReservedBitsNonzero | InvalidRecordGeometry | ProvenanceMismatch

  function Numbers(words: seq<bv32>): (w: seq<u32>)
    ensures |w| == |words|
    ensures forall k :: 0 <= k < |w| ==> w[k] == words[k] as int
  {
    seq(|words|, k requires 0 <= k < |words| => words[k] as int)
  }

  // Two words, low word first.
  function U64(w: seq<u32>, k: nat): u64
    requires k + 1 < |w|
  {
    w[k] + w[k + 1] * B32
  }

  // The same bits as a two's-complement number.
  function S64(w: seq<u32>, k: nat): i64
    requires k + 1 < |w|
  {
    var v := U64(w, k);
    if v <= I64_MAX then v else v - B64
  }

  function Bit(word: int, bit: nat): bool { word / Power(bit) % 2 == 1 }

  function Power(bit: nat): (p: int)
    ensures p > 0
  {
    if bit == 0 then 1 else 2 * Power(bit - 1)
  }

  // Length, magic, contract and payload count, in that order.
  function HeaderError(w: seq<u32>, length: nat, magic: u32): Error
    requires length >= 5
  {
    if |w| != length then InvalidLength
    else if w[0] != magic then InvalidMagic
    else if w[1] != 1 then ContractMismatch
    else if w[2] != length - 5 then InvalidPayloadCount
    else NoError
  }

  // The last word of a frame is the CRC of all words before it.
  predicate CrcMatches(words: seq<bv32>) { C.Accepted(words) }

  method CheckCrc(table: C.Table, words: seq<bv32>) returns (matches: bool)
    requires C.IsTable(table) && words != []
    ensures matches == CrcMatches(words)
  {
    var crc := C.Crc32cWords(table, words[..|words| - 1]);
    hide C.IsTable, C.Crc, C.LittleEndian;
    matches := words[|words| - 1] == crc;
  }
}
