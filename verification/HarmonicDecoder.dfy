/** The strict decoder of harmonic family frames, and the facts it establishes
    for every harmonic point. */
module HarmonicDecoder {
  import opened Words
  import opened TransportFrames
  import C = Crc32c
  import F = HarmonicFamilies

  const RECORDS: nat := 42
  const RECORD_WORDS: nat := 64
  const PAYLOAD: nat := 2688
  const FRAME: nat := 2693
  const CHANNELS: nat := 7
  const CHUNKS: nat := 6
  const PER_CHUNK: nat := 24
  const MAXIMUM_ORDER: nat := 127
  const MAGIC: u32 := 0x314D5248

  type Payload = p: seq<u32> | |p| == PAYLOAD witness seq(PAYLOAD, _ => 0)
  type Record = r: seq<u32> | |r| == RECORD_WORDS witness seq(RECORD_WORDS, _ => 0)

  function RecordAt(p: Payload, index: nat): Record
    requires index < RECORDS
  {
    p[index * RECORD_WORDS..(index + 1) * RECORD_WORDS]
  }

  function EntryCount(chunk: nat): nat
    requires chunk < CHUNKS
  {
    Min(PER_CHUNK, MAXIMUM_ORDER - (chunk * PER_CHUNK + 1) + 1)
  }

  // The words that every record of a family repeats.
  const PROVENANCE: seq<nat> := [3, 4, 5, 6, 7, 8, 9, 10, 11, 12, 14, 15]

  predicate SameProvenance(first: Record, candidate: Record) {
    forall k :: 0 <= k < |PROVENANCE| ==> candidate[PROVENANCE[k]] == first[PROVENANCE[k]]
  }

  function Point(packed: u64): F.Point {
    F.Point(packed % 0x100_0000_0000, packed / 0x100_0000_0000 % 0x10_0000,
            packed / 0x1000_0000_0000_0000 % 2 == 1, packed / 0x2000_0000_0000_0000 % 2 == 1)
  }

  function EntryError(packed: u64, used: bool, order: nat, enabled: bool, qualified: nat): Error {
    var e := Point(packed);
    if !used then if packed != 0 then InvalidRecordGeometry else NoError
    else if packed / 0x4000_0000_0000_0000 != 0 then ReservedBitsNonzero
    else if (!e.magnitudeValid && e.magnitude != 0) || (!e.angleValid && e.angle != 0) ||
            (e.angleValid && (!e.magnitudeValid || e.angle >= 360000)) ||
            (order > qualified && (e.magnitudeValid || e.angleValid)) ||
            (!enabled && (e.magnitudeValid || e.angleValid)) then InvalidRecordGeometry
    else NoError
  }

  function Qualified(p: Payload): nat { p[15] % 256 }

  function Enabled(p: Payload, channel: nat): bool { Bit(p[7], channel) }

  function RecordHeaderError(p: Payload, index: nat): Error
    requires index < RECORDS
  {
    var r := RecordAt(p, index);
    var channel, chunk := index / CHUNKS, index % CHUNKS;
    var header := r[13];
    if r[0] != 0x3152544D || r[1] != 0x0005_0001 || r[2] != 256 || r[7] >= 0x80 || r[5] == 0 || r[6] == 0 ||
       r[8] >= 0x100 || !Bit(r[8], 1) then InvalidRecordGeometry
    else if !SameProvenance(RecordAt(p, 0), r) then ProvenanceMismatch
    else if header % 8 != channel || header / 8 % 16 != chunk || header / 128 % 256 != chunk * PER_CHUNK + 1 ||
            header / 0x8000 % 32 != EntryCount(chunk) || header / 0x10_0000 % 16 != CHUNKS ||
            header / 0x100_0000 != MAXIMUM_ORDER then InvalidRecordGeometry
    else NoError
  }

  function EntryErrorAt(p: Payload, index: nat, entry: nat): Error
    requires index < RECORDS && entry < PER_CHUNK
  {
    var chunk := index % CHUNKS;
    EntryError(U64(RecordAt(p, index), 16 + entry * 2), entry < EntryCount(chunk),
               chunk * PER_CHUNK + 1 + entry, Enabled(p, index / CHUNKS), Qualified(p))
  }

  // The first error among the entries from `entry` on.
  function EntriesError(p: Payload, index: nat, entry: nat): Error
    requires index < RECORDS && entry <= PER_CHUNK
    decreases PER_CHUNK - entry
  {
    if entry == PER_CHUNK then NoError
    else if EntryErrorAt(p, index, entry) != NoError then EntryErrorAt(p, index, entry)
    else EntriesError(p, index, entry + 1)
  }

  function RecordError(p: Payload, index: nat): Error
    requires index < RECORDS
  {
    if RecordHeaderError(p, index) != NoError then RecordHeaderError(p, index) else EntriesError(p, index, 0)
  }

  // The first error among the records from `index` on.
  function RecordsError(p: Payload, index: nat): Error
    requires index <= RECORDS
    decreases RECORDS - index
  {
    if index == RECORDS then NoError
    else if RecordError(p, index) != NoError then RecordError(p, index)
    else RecordsError(p, index + 1)
  }

  function ProfileError(p: Payload): Error {
    var nominal, cycles := p[15] / 0x100 % 256, p[15] / 0x1_0000 % 256;
    if Qualified(p) > MAXIMUM_ORDER || !((nominal == 50 && cycles == 10) || (nominal == 60 && cycles == 12))
    then InvalidRecordGeometry else NoError
  }

  function PayloadOf(words: seq<bv32>): Payload {
    if |words| == FRAME then Numbers(words)[4..4 + PAYLOAD] else seq(PAYLOAD, _ => 0)
  }

  function DecodeError(words: seq<bv32>): Error {
    var w, p := Numbers(words), PayloadOf(words);
    if HeaderError(w, FRAME, MAGIC) != NoError then HeaderError(w, FRAME, MAGIC)
    else if !CrcMatches(words) then CrcMismatch
    else if w[3] != p[3] then SequenceMismatch
    else if RecordsError(p, 0) != NoError then RecordsError(p, 0)
    else ProfileError(p)
  }

  // ---- The decoder's loops ---------------------------------------------------

  method ScanEntries(p: Payload, index: nat) returns (error: Error)
    requires index < RECORDS
    ensures error == EntriesError(p, index, 0)
  {
    hide EntryErrorAt;
    for entry := 0 to PER_CHUNK
      invariant EntriesError(p, index, 0) == EntriesError(p, index, entry)
    {
      error := EntryErrorAt(p, index, entry);
      if error != NoError {
        return;
      }
    }
    error := NoError;
  }

  method ScanRecords(p: Payload) returns (error: Error)
    ensures error == RecordsError(p, 0)
  {
    hide RecordHeaderError, EntriesError;
    for index := 0 to RECORDS
      invariant RecordsError(p, 0) == RecordsError(p, index)
    {
      error := RecordHeaderError(p, index);
      if error != NoError {
        return;
      }
      error := ScanEntries(p, index);
      if error != NoError {
        return;
      }
    }
    error := NoError;
  }

  method Decode(table: C.Table, words: seq<bv32>) returns (error: Error, payload: Payload)
    requires C.IsTable(table)
    ensures error == DecodeError(words)
    ensures error == NoError ==> payload == PayloadOf(words)
  {
    hide CrcMatches, RecordsError, ProfileError, C.IsTable;
    var w := Numbers(words);
    payload := PayloadOf(words);
    error := HeaderError(w, FRAME, MAGIC);
    if error != NoError {
      return;
    }
    var matches := CheckCrc(table, words);
    if !matches {
      return CrcMismatch, payload;
    }
    if w[3] != payload[3] {
      return SequenceMismatch, payload;
    }
    error := ScanRecords(payload);
    if error == NoError {
      error := ProfileError(payload);
    }
  }

  // ---- What an accepted family guarantees ---------------------------------------

  lemma {:induction false} EntriesAccepted(p: Payload, index: nat, entry: nat)
    requires index < RECORDS && entry <= PER_CHUNK
    ensures EntriesError(p, index, entry) == NoError <==>
            forall k :: entry <= k < PER_CHUNK ==> EntryErrorAt(p, index, k) == NoError
    decreases PER_CHUNK - entry
  {
    hide EntryErrorAt;
    if entry < PER_CHUNK { EntriesAccepted(p, index, entry + 1); }
  }

  lemma {:induction false} RecordsAccepted(p: Payload, index: nat)
    requires index <= RECORDS
    ensures RecordsError(p, index) == NoError <==>
            forall k :: index <= k < RECORDS ==> RecordError(p, k) == NoError
    decreases RECORDS - index
  {
    hide RecordError;
    if index < RECORDS { RecordsAccepted(p, index + 1); }
  }

  // The point of one channel and order (counted from zero), as the engine finds
  // it among the records.
  function BasePoint(p: Payload, channel: nat, orderIndex: nat): F.Point
    requires channel < CHANNELS && orderIndex < MAXIMUM_ORDER
  {
    var chunk, entry := orderIndex / PER_CHUNK, orderIndex % PER_CHUNK;
    Point(U64(RecordAt(p, channel * CHUNKS + chunk), 16 + entry * 2))
  }

  // Zero unless valid; an angle only beside a magnitude and below a full turn;
  // nothing valid beyond the qualified order or on a disabled channel.
  ghost predicate WellFormed(e: F.Point, order: nat, enabled: bool, qualified: nat) {
    && (!e.magnitudeValid ==> e.magnitude == 0)
    && (!e.angleValid ==> e.angle == 0)
    && (e.angleValid ==> e.magnitudeValid && e.angle < 360000)
    && (order > qualified || !enabled ==> !e.magnitudeValid && !e.angleValid)
  }

  lemma AcceptedEntry(packed: u64, order: nat, enabled: bool, qualified: nat)
    requires EntryError(packed, true, order, enabled, qualified) == NoError
    ensures WellFormed(Point(packed), order, enabled, qualified)
  {
  }

  lemma AcceptedRecordPoint(p: Payload, index: nat, entry: nat, channel: nat, order: nat)
    requires index < RECORDS && entry < EntryCount(index % CHUNKS) && RecordError(p, index) == NoError
    requires channel == index / CHUNKS && order == index % CHUNKS * PER_CHUNK + 1 + entry
    ensures WellFormed(Point(U64(RecordAt(p, index), 16 + entry * 2)), order, Enabled(p, channel), Qualified(p))
  {
    hide RecordHeaderError, EntriesError, U64, RecordAt, Point, WellFormed, EntryError, Enabled, Qualified;
    EntriesAccepted(p, index, 0);
    assert EntryErrorAt(p, index, entry) == NoError;
    AcceptedEntry(U64(RecordAt(p, index), 16 + entry * 2), order, Enabled(p, channel), Qualified(p));
  }

  // The record's header names its channel and first order, and the record
  // repeats the family's provenance.
  ghost predicate Labelled(p: Payload, index: nat)
    requires index < RECORDS
  {
    var r := RecordAt(p, index);
    && r[13] % 8 == index / CHUNKS && r[13] / 128 % 256 == index % CHUNKS * PER_CHUNK + 1
    && SameProvenance(RecordAt(p, 0), r) && r[5] != 0 && r[6] != 0
  }

  lemma AcceptedRecord(p: Payload, index: nat)
    requires index < RECORDS && RecordError(p, index) == NoError
    ensures Labelled(p, index)
  {
    hide SameProvenance, EntriesError, RecordAt, Bit;
  }

  lemma AcceptedParts(words: seq<bv32>)
    requires DecodeError(words) == NoError
    ensures |words| == FRAME && RecordsError(PayloadOf(words), 0) == NoError
    ensures ProfileError(PayloadOf(words)) == NoError && PayloadOf(words)[3] == words[3] as int
  {
    hide CrcMatches, RecordsError, ProfileError;
  }

  lemma Located(channel: nat, orderIndex: nat)
    requires channel < CHANNELS && orderIndex < MAXIMUM_ORDER
    ensures var chunk, entry := orderIndex / PER_CHUNK, orderIndex % PER_CHUNK;
            var index := channel * CHUNKS + chunk;
            && index < RECORDS && index / CHUNKS == channel && index % CHUNKS == chunk < CHUNKS
            && entry < EntryCount(index % CHUNKS) && index % CHUNKS * PER_CHUNK + 1 + entry == orderIndex + 1
  {
  }

  lemma AcceptedPoint(p: Payload, channel: nat, orderIndex: nat, index: nat)
    requires channel < CHANNELS && orderIndex < MAXIMUM_ORDER && index < RECORDS
    requires index == channel * CHUNKS + orderIndex / PER_CHUNK && RecordError(p, index) == NoError
    ensures WellFormed(BasePoint(p, channel, orderIndex), orderIndex + 1, Enabled(p, channel), Qualified(p))
  {
    hide RecordError, WellFormed, Point, U64, Enabled, RecordAt, EntryCount, Qualified;
    Located(channel, orderIndex);
    AcceptedRecordPoint(p, index, orderIndex % PER_CHUNK, channel, orderIndex + 1);
  }

  lemma AcceptedFamily(words: seq<bv32>, index: nat)
    requires DecodeError(words) == NoError && index < RECORDS
    ensures RecordError(PayloadOf(words), index) == NoError && Labelled(PayloadOf(words), index)
    ensures Qualified(PayloadOf(words)) <= MAXIMUM_ORDER
  {
    AcceptedParts(words);
    hide DecodeError, RecordError, RecordsError, Labelled;
    RecordsAccepted(PayloadOf(words), 0);
    AcceptedRecord(PayloadOf(words), index);
  }

  // Every point of an accepted family is well formed and sits in the record
  // whose header names its channel and order.
  lemma AcceptedPoints(words: seq<bv32>, channel: nat, orderIndex: nat, index: nat)
    requires DecodeError(words) == NoError && channel < CHANNELS && orderIndex < MAXIMUM_ORDER
    requires index == channel * CHUNKS + orderIndex / PER_CHUNK
    ensures var p := PayloadOf(words);
            && WellFormed(BasePoint(p, channel, orderIndex), orderIndex + 1, Enabled(p, channel), Qualified(p))
            && index < RECORDS && Labelled(p, index) && Qualified(p) <= MAXIMUM_ORDER
  {
    hide DecodeError, RecordError, WellFormed, BasePoint, Enabled, Labelled, PayloadOf, Qualified;
    Located(channel, orderIndex);
    AcceptedFamily(words, index);
    AcceptedPoint(PayloadOf(words), channel, orderIndex, index);
  }

  // A family frame that differs from an accepted one in exactly one word is
  // always rejected.
  lemma CorruptFamilyRejected(table: C.Table, words: seq<bv32>, corrupt: seq<bv32>, k: nat)
    requires C.IsTable(table) && DecodeError(words) == NoError && C.DifferOnlyAt(words, corrupt, k)
    ensures DecodeError(corrupt) != NoError
  {
    hide C.IsTable, RecordsError, ProfileError, C.Accepted;
    C.SingleWordCorruptionRejected(table, words, corrupt, k);
  }
}
