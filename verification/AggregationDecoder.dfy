/** The decoder of cycle frames: the single-cycle result and its context. */
module AggregationDecoder {
  import opened Words
  import opened TransportFrames
  import C = Crc32c

  const FRAME: nat := 239
  const SINGLE_CYCLE: nat := 221
  const MAGIC: u32 := 0x31474741

  datatype Context = Context(
    generation: u32, sampleRate: u32, control: u32, frequencyStatus: u32, frequencyPeriod: u32,
    frequencySequence: u32, captureFrames: u32, headerErrors: u32, overflows: u32, alerts: u32,
    target: u64, targetStatus: u32)

  datatype View = View(sequence: u32, cycle: seq<u32>, context: Context)

  function ContextOf(w: seq<u32>): Context
    requires |w| == FRAME
  {
    Context(w[225], w[226], w[227], w[228], w[229], w[230], w[231], w[232], w[233], w[234], U64(w, 235), w[237])
  }

  function ViewOf(w: seq<u32>): View
    requires |w| == FRAME
  {
    View(w[3], w[4..4 + SINGLE_CYCLE], ContextOf(w))
  }

  // The transport sequence is compared before the CRC is computed.
  function DecodeError(words: seq<bv32>): Error {
    var w := Numbers(words);
    if HeaderError(w, FRAME, MAGIC) != NoError then HeaderError(w, FRAME, MAGIC)
    else if w[3] != w[4] then SequenceMismatch
    else if !CrcMatches(words) then CrcMismatch
    else if ContextOf(w).control >= 0x2000 || ContextOf(w).targetStatus >= 4 then ReservedBitsNonzero
    else NoError
  }

  method Decode(table: C.Table, words: seq<bv32>) returns (error: Error, view: Option<View>)
    requires C.IsTable(table)
    ensures error == DecodeError(words)
    ensures error == NoError ==> |words| == FRAME && view == Some(ViewOf(Numbers(words)))
  {
    hide CrcMatches, C.IsTable;
    var w := Numbers(words);
    view := None;
    error := HeaderError(w, FRAME, MAGIC);
    if error != NoError {
      return;
    }
    if w[3] != w[4] {
      return SequenceMismatch, None;
    }
    var matches := CheckCrc(table, words);
    if !matches {
      return CrcMismatch, None;
    }
    view := Some(ViewOf(w));
    error := if w[227] >= 0x2000 || w[237] >= 4 then ReservedBitsNonzero else NoError;
  }

  // A cycle frame that differs from an accepted one in exactly one word is
  // always rejected.
  lemma CorruptCycleRejected(table: C.Table, words: seq<bv32>, corrupt: seq<bv32>, k: nat)
    requires C.IsTable(table) && DecodeError(words) == NoError && C.DifferOnlyAt(words, corrupt, k)
    ensures DecodeError(corrupt) != NoError
  {
    hide C.IsTable, C.Accepted;
    C.SingleWordCorruptionRejected(table, words, corrupt, k);
  }
}
