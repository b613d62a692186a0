/** The strict decoder of ten-second frequency frames, and the facts the
    frequency arithmetic relies on. */
module FrequencyDecoder {
  import opened Words
  import opened TransportFrames
  import C = Crc32c

  const FRAME: nat := 2077
  const PAYLOAD: nat := 2072
  const METADATA: nat := 24
  const CAPACITY: nat := 1024
  const MAGIC: u32 := 0x31515246
  const MAXIMUM_SPAN: nat := 2_000_000
  const TEN_SECONDS: nat := 10_000_000_000

  type Payload = p: seq<u32> | |p| == PAYLOAD witness seq(PAYLOAD, _ => 0)

  predicate SupportedRate(rate: u32) {
    rate == 1000 || rate == 2000 || rate == 4000 || rate == 8000 ||
    rate == 16000 || rate == 32000 || rate == 64000 || rate == 128000
  }

  function Start(p: Payload): u64 { U64(p, 8) }
  function End(p: Payload): u64 { U64(p, 10) }
  function UtcStart(p: Payload): u64 { U64(p, 12) }
  function UtcEnd(p: Payload): u64 { U64(p, 14) }

  // A crossing time relative to the interval's start, in 1/65536 samples.
  function Crossing(p: Payload, k: nat): i64
    requires k < CAPACITY
  {
    S64(p, METADATA + 2 * k)
  }

  function MetadataError(p: Payload): Error {
    if p[1] == 0 || !SupportedRate(p[2]) || p[3] == 0 || p[3] > 200_000_000 || (p[4] != 50 && p[4] != 60) ||
       p[5] >= 0x100_0000 || p[6] >= 0x800 || p[7] >= 0x800 || p[19] > CAPACITY || p[21] >= 16 ||
       p[22] != 0 || p[23] != 0 then ReservedBitsNonzero
    else if End(p) <= Start(p) || End(p) - Start(p) > MAXIMUM_SPAN then InvalidRecordGeometry
    else if Bit(p[6], 0) && (UtcEnd(p) <= UtcStart(p) || UtcEnd(p) - UtcStart(p) != TEN_SECONDS)
    then InvalidRecordGeometry
    else NoError
  }

  function Limit(p: Payload): int { (End(p) - Start(p)) * B16 }

  predicate Rises(p: Payload, k: nat)
    requires 0 < k < CAPACITY
  {
    Crossing(p, k - 1) < Crossing(p, k)
  }

  predicate Increasing(p: Payload, count: nat)
    requires count <= CAPACITY
  {
    forall k :: 0 < k < count ==> Rises(p, k)
  }

  predicate Meets(p: Payload, count: nat, value: int)
    requires count <= CAPACITY
  {
    exists k :: 0 <= k < count && Crossing(p, k) == value
  }

  predicate GuardsMatch(p: Payload, count: nat)
    requires count <= CAPACITY
  {
    && Bit(p[21], 0) == (count != 0 && Crossing(p, 0) < 0)
    && Bit(p[21], 1) == (count != 0 && Crossing(p, count - 1) > Max(-1, Limit(p)))
    && Bit(p[21], 2) == Meets(p, count, 0)
    && Bit(p[21], 3) == Meets(p, count, Limit(p))
  }

  predicate ZeroTail(p: Payload, from: nat)
    requires from <= PAYLOAD
  {
    forall k :: from <= k < PAYLOAD ==> p[k] == 0
  }

  function CrossingsError(p: Payload): Error
    requires p[19] <= CAPACITY
  {
    if !Increasing(p, p[19]) || !GuardsMatch(p, p[19]) then InvalidRecordGeometry
    else if !ZeroTail(p, METADATA + 2 * p[19]) then ReservedBitsNonzero
    else NoError
  }

  function PayloadOf(words: seq<bv32>): Payload {
    if |words| == FRAME then Numbers(words)[4..4 + PAYLOAD] else seq(PAYLOAD, _ => 0)
  }

  function DecodeError(words: seq<bv32>): Error {
    var w, p := Numbers(words), PayloadOf(words);
    if HeaderError(w, FRAME, MAGIC) != NoError then HeaderError(w, FRAME, MAGIC)
    else if !CrcMatches(words) then CrcMismatch
    else if w[3] != p[0] then SequenceMismatch
    else if MetadataError(p) != NoError then MetadataError(p)
    else CrossingsError(p)
  }

  // ---- The decoder's loops -----------------------------------------------------

  method ScanCrossings(p: Payload, count: nat)
    returns (increasing: bool, last: int, exactStart: bool, exactEnd: bool)
    requires count <= CAPACITY
    ensures increasing == Increasing(p, count)
    ensures increasing ==>
      && exactStart == Meets(p, count, 0) && exactEnd == Meets(p, count, Limit(p))
      && (count != 0 ==> last == Crossing(p, count - 1))
  {
    hide Crossing, Limit;
    last, exactStart, exactEnd := 0, false, false;
    for index := 0 to count
      invariant Increasing(p, index)
      invariant index != 0 ==> last == Crossing(p, index - 1)
      invariant exactStart == Meets(p, index, 0) && exactEnd == Meets(p, index, Limit(p))
    {
      var crossing := Crossing(p, index);
      if index != 0 && crossing <= last {
        assert !Rises(p, index);
        return false, last, exactStart, exactEnd;
      }
      exactStart := exactStart || crossing == 0;
      exactEnd := exactEnd || crossing == Limit(p);
      last := crossing;
    }
    increasing := true;
  }

  method ScanTail(p: Payload, from: nat) returns (zero: bool)
    requires from <= PAYLOAD
    ensures zero == ZeroTail(p, from)
  {
    for index := from to PAYLOAD
      invariant forall k :: from <= k < index ==> p[k] == 0
    {
      if p[index] != 0 {
        return false;
      }
    }
    zero := true;
  }

  method CheckCrossings(p: Payload) returns (error: Error)
    requires MetadataError(p) == NoError
    ensures error == CrossingsError(p)
  {
    hide Crossing, Increasing, Meets, ZeroTail;
    var count := p[19];
    var increasing, last, exactStart, exactEnd := ScanCrossings(p, count);
    if !increasing {
      return InvalidRecordGeometry;
    }
    var before := count != 0 && Crossing(p, 0) < 0;
    var after := count != 0 && last >= 0 && last > Limit(p);
    if before != Bit(p[21], 0) || after != Bit(p[21], 1) || exactStart != Bit(p[21], 2) || exactEnd != Bit(p[21], 3) {
      return InvalidRecordGeometry;
    }
    var zero := ScanTail(p, METADATA + 2 * count);
    error := if zero then NoError else ReservedBitsNonzero;
  }

  method Decode(table: C.Table, words: seq<bv32>) returns (error: Error, payload: Payload)
    requires C.IsTable(table)
    ensures error == DecodeError(words)
    ensures error == NoError ==> payload == PayloadOf(words)
  {
    hide CrcMatches, CrossingsError, C.IsTable;
    var w := Numbers(words);
    payload := PayloadOf(words);
    error := HeaderError(w, FRAME, MAGIC);
    if error != NoError {
      return;
    }
    var matches := CheckCrc(table, words);
    if !matches {
      return CrcMismatch, payload;
    }
    if w[3] != payload[0] {
      return SequenceMismatch, payload;
    }
    error := MetadataError(payload);
    if error == NoError {
      error := CheckCrossings(payload);
    }
  }

  // ---- What an accepted frame guarantees -------------------------------------------

  ghost predicate Facts(p: Payload) {
    && 0 < End(p) - Start(p) <= MAXIMUM_SPAN
    && 0 < p[3] <= 200_000_000
    && (p[4] == 50 || p[4] == 60)
    && p[19] <= CAPACITY
    && SupportedRate(p[2])
    && (forall j, k :: 0 <= j < k < p[19] ==> Crossing(p, j) < Crossing(p, k))
  }

  lemma {:induction false} IncreasingAcross(p: Payload, count: nat, j: nat, k: nat)
    requires count <= CAPACITY && Increasing(p, count) && j < k < count
    ensures Crossing(p, j) < Crossing(p, k)
  {
    hide Crossing;
    assert Rises(p, k);
    if j < k - 1 { IncreasingAcross(p, count, j, k - 1); }
  }

  lemma AcceptedFrame(words: seq<bv32>)
    requires DecodeError(words) == NoError
    ensures |words| == FRAME && Facts(PayloadOf(words)) && PayloadOf(words)[0] == words[3] as int
  {
    hide CrcMatches, Crossing, GuardsMatch, ZeroTail;
    var p := PayloadOf(words);
    forall j, k | 0 <= j < k < p[19] ensures Crossing(p, j) < Crossing(p, k) {
      IncreasingAcross(p, p[19], j, k);
    }
  }

  lemma CorruptFrameRejected(table: C.Table, words: seq<bv32>, corrupt: seq<bv32>, k: nat)
    requires C.IsTable(table) && DecodeError(words) == NoError && C.DifferOnlyAt(words, corrupt, k)
    ensures DecodeError(corrupt) != NoError
  {
    hide C.IsTable, MetadataError, CrossingsError, C.Accepted;
    C.SingleWordCorruptionRejected(table, words, corrupt, k);
  }
}
