/** The stream of ten-second frequency records: sequence acceptance and the
    placeholders that fill a transport gap. */
module FrequencyStream {
  import opened Words

  const MAXIMUM_GAPS: nat := 64
  const TEN_SECONDS: u64 := 10_000_000_000

  datatype Interval = Interval(start: u64, end: u64, utcStart: u64, utcEnd: u64)

  // An accepted frame; `clean` says that the arithmetic found no reason of its
  // own against the value.
  datatype Input = Input(sequence: u32, interval: Interval, clean: bool)

  datatype Record = Record(sequence: u32, interval: Interval, placeholder: bool, gap: bool, valid: bool)

  datatype State = State(ready: bool, have: bool, pending: bool, lastSequence: u32, last: Interval)

  function Initial(): State { State(true, false, false, 0, Interval(0, 0, 0, 0)) }

  // The gap reason, like any other, denies validity.
  function RecordOf(i: Input, gap: bool): Record {
    Record(i.sequence, i.interval, false, gap, i.clean && !gap)
  }

  function Tile(base: u64, step: u64, n: nat): u64 { (base + step * n) % B64 }

  function Span(i: Interval): u64 { (i.end as int - i.start as int) % B64 }

  // The `ordinal`-th interval after the last real one, on both axes modulo 2^64.
  function Placeholder(last: Interval, sequence: u32, ordinal: nat): Record
    requires ordinal > 0
  {
    var start, utcStart := Tile(last.end, Span(last), ordinal - 1), Tile(last.utcEnd, TEN_SECONDS, ordinal - 1);
    Record(sequence, Interval(start, Add64(start, Span(last)), utcStart, Add64(utcStart, TEN_SECONDS)),
           true, true, false)
  }

  function Placeholders(last: Interval, expected: u32, gaps: nat): (records: seq<Record>)
    ensures |records| == gaps
  {
    seq(gaps, k requires 0 <= k < gaps => Placeholder(last, (expected + k) % B32, k + 1))
  }

  function Distance(s: State, i: Input): i32 { Distance32(i.sequence, Add32(s.lastSequence, 1)) }

  predicate Stale(s: State, i: Input) { s.have && Distance(s, i) < 0 }

  function Gaps(s: State, i: Input): nat {
    if s.have && Distance(s, i) > 0 then Distance(s, i) else 0
  }

  // Everything this input asks to publish, in order.
  function Offered(s: State, i: Input): seq<Record> {
    Placeholders(s.last, Add32(s.lastSequence, 1), Gaps(s, i)) + [RecordOf(i, s.pending || Gaps(s, i) > 0)]
  }

  // `room` is how many records the sink takes before it refuses one; a refusal
  // or too long a gap stops the engine for good.
  function Accept(s: State, i: Input, room: nat): (State, seq<Record>) {
    var consumed := s.(pending := false);
    if !s.ready then (s, [])
    else if Stale(s, i) then (consumed, [])
    else if Gaps(s, i) > MAXIMUM_GAPS then (consumed.(ready := false), [])
    else
      var offered := Offered(s, i);
      if |offered| <= room then
        (consumed.(lastSequence := i.sequence, have := true, last := i.interval), offered)
      else (consumed.(ready := false), offered[..room])
  }

  // ---- The engine in place ------------------------------------------------------

  class Engine {
    var ready: bool
    var haveSequence: bool
    var haveInterval: bool
    var pending: bool
    var lastSequence: u32
    var last: Interval

    ghost function View(): State
      reads this
    {
      State(ready, haveSequence, pending, lastSequence, last)
    }

    ghost predicate Valid()
      reads this
    {
      haveSequence == haveInterval
    }

    constructor ()
      ensures Valid() && View() == Initial()
    {
      ready, haveSequence, haveInterval, pending, lastSequence := true, false, false, false, 0;
      last := Interval(0, 0, 0, 0);
    }

    method NoteTransportDiscontinuity()
      requires Valid()
      modifies this`pending
      ensures Valid() && View() == old(View()).(pending := true)
    {
      pending := true;
    }

    method Publish(record: Record, records: seq<Record>, room: nat) returns (ok: bool, published: seq<Record>)
      modifies this`ready
      ensures ok <==> |records| < room
      ensures ready == (old(ready) && ok) && published == if ok then records + [record] else records
    {
      if |records| < room {
        return true, records + [record];
      }
      ready := false;
      return false, records;
    }

    // The placeholders of one gap, until the sink refuses.
    method PublishGaps(expected: u32, gaps: nat, room: nat) returns (ok: bool, records: seq<Record>)
      requires Valid() && haveSequence && ready && gaps > 0
      modifies this`ready
      ensures ok <==> gaps <= room
      ensures ready == ok
      ensures records == Placeholders(last, expected, gaps)[..if ok then gaps else room]
    {
      hide Placeholder;
      records := [];
      ok := true;
      var gap := 1;
      while gap <= gaps
        invariant 1 <= gap <= gaps + 1 && ready && ok && gap - 1 <= room
        invariant records == Placeholders(last, expected, gaps)[..gap - 1]
      {
        ghost var all := Placeholders(last, expected, gaps);
        assert all[gap - 1] == Placeholder(last, (expected + (gap - 1)) % B32, gap);
        assert all[..gap] == all[..gap - 1] + [all[gap - 1]];
        ok, records := Publish(Placeholder(last, (expected + (gap - 1)) % B32, gap), records, room);
        if !ok {
          return;
        }
        gap := gap + 1;
      }
    }

    method Process(input: Input, room: nat) returns (records: seq<Record>)
      requires Valid()
      modifies this
      ensures Valid() && (View(), records) == Accept(old(View()), input, room)
    {
      hide Placeholders;
      records := [];
      if !ready {
        return;
      }
      var gap := pending;
      pending := false;
      if haveSequence {
        var expected := Add32(lastSequence, 1);
        var distance := Distance32(input.sequence, expected);
        if distance < 0 {
          return;
        }
        if distance > 0 {
          if distance > MAXIMUM_GAPS {
            ready := false;
            return;
          }
          var ok;
          ok, records := PublishGaps(expected, distance, room);
          if !ok {
            ghost var all := Placeholders(last, expected, distance);
            assert (all + [RecordOf(input, true)])[..room] == all[..room];
            return;
          }
          gap := true;
        }
      }
      ghost var all := records + [RecordOf(input, gap)];
      assert records == Placeholders(last, Add32(lastSequence, 1), Gaps(old(View()), input));
      assert all == Offered(old(View()), input);
      assert all[..|records|] == records;
      var ok;
      ok, records := Publish(RecordOf(input, gap), records, room);
      if ok {
        lastSequence, haveSequence := input.sequence, true;
        last, haveInterval := input.interval, true;
      }
    }
  }

  // ---- Whole runs -------------------------------------------------------------------

  datatype Event = Frame(input: Input, room: nat) | Discontinuity

  function Step(s: State, e: Event): (State, seq<Record>) {
    match e
    case Frame(i, room) => Accept(s, i, room)
    case Discontinuity => (s.(pending := true), [])
  }

  function Run(events: seq<Event>): (State, seq<Record>) {
    if events == [] then (Initial(), [])
    else
      var (s, log) := Run(events[..|events| - 1]);
      var (next, more) := Step(s, events[|events| - 1]);
      (next, log + more)
  }

  // What one record owes to the record published before it.
  ghost predicate Succeeds(a: Record, b: Record) {
    && b.sequence == Add32(a.sequence, 1)
    && (b.placeholder ==>
        && b.interval.start == a.interval.end
        && Span(b.interval) == Span(a.interval)
        && b.interval.utcStart == a.interval.utcEnd
        && b.interval.utcEnd == Add64(b.interval.utcStart, TEN_SECONDS)
        && !b.valid)
    && (a.placeholder ==> !b.valid)
  }

  ghost predicate SucceedsAt(log: seq<Record>, k: nat)
    requires 0 < k < |log|
  {
    Succeeds(log[k - 1], log[k])
  }

  ghost predicate Chained(log: seq<Record>) {
    && (log != [] ==> !log[0].placeholder)
    && forall k :: 0 < k < |log| ==> SucceedsAt(log, k)
  }

  // While the engine is ready its last published record is the real one it
  // remembers.
  ghost predicate Inv(s: State, log: seq<Record>) {
    && Chained(log)
    && (s.ready ==> (s.have <==> log != []))
    && (s.ready && s.have ==>
        var r := log[|log| - 1];
        r.sequence == s.lastSequence && r.interval == s.last && !r.placeholder)
  }

  lemma ChainedAppend(log: seq<Record>, r: Record)
    requires Chained(log)
    requires if log == [] then !r.placeholder else Succeeds(log[|log| - 1], r)
    ensures Chained(log + [r])
  {
    hide Succeeds;
    var all := log + [r];
    forall k | 0 < k < |all| ensures SucceedsAt(all, k) {
      if k < |log| { assert SucceedsAt(log, k); }
    }
  }

  lemma TileNext(base: u64, step: u64, n: nat)
    ensures Tile(base, step, 0) == base
    ensures Tile(base, step, n + 1) == Add64(Tile(base, step, n), step)
  {
    assert base + step * (n + 1) == base + step * n + step;
    ModAdd(base + step * n, step, B64);
  }

  lemma SpanOfSum(start: u64, span: u64)
    ensures (Add64(start, span) as int - start as int) % B64 == span
  {
    ModUnique(Add64(start, span) as int - start as int, B64, -((start + span) / B64), span);
  }

  lemma SequenceStep(expected: u32, k: nat)
    requires k > 0
    ensures (expected + k) % B32 == Add32((expected + (k - 1)) % B32, 1)
  {
  }

  // Each placeholder starts where the record before it ends.
  lemma PlaceholderSucceeds(last: Interval, expected: u32, k: nat, before: Record)
    requires k == 0 ==> before.interval == last && expected == Add32(before.sequence, 1) && !before.placeholder
    requires k > 0 ==> before == Placeholder(last, (expected + (k - 1)) % B32, k)
    ensures Succeeds(before, Placeholder(last, (expected + k) % B32, k + 1))
  {
    hide Tile, Add64, Add32;
    var b := Placeholder(last, (expected + k) % B32, k + 1);
    SpanOfSum(b.interval.start, Span(last));
    TileNext(last.end, Span(last), 0);
    TileNext(last.utcEnd, TEN_SECONDS, 0);
    if k == 0 {
      assert (expected + k) % B32 == expected;
    } else {
      SpanOfSum(before.interval.start, Span(last));
      TileNext(last.end, Span(last), k - 1);
      TileNext(last.utcEnd, TEN_SECONDS, k - 1);
      SequenceStep(expected, k);
    }
  }

  lemma {:induction false} PlaceholdersChained(log: seq<Record>, last: Interval, expected: u32, gaps: nat, n: nat)
    requires Chained(log) && log != [] && n <= gaps
    requires var r := log[|log| - 1];
             r.interval == last && expected == Add32(r.sequence, 1) && !r.placeholder
    ensures Chained(log + Placeholders(last, expected, gaps)[..n])
  {
    hide Succeeds, Placeholder;
    var all := Placeholders(last, expected, gaps);
    if n == 0 {
      assert log + all[..0] == log;
    } else {
      PlaceholdersChained(log, last, expected, gaps, n - 1);
      var before := (log + all[..n - 1])[|log| + n - 2];
      PlaceholderSucceeds(last, expected, n - 1, before);
      ChainedAppend(log + all[..n - 1], all[n - 1]);
      assert log + all[..n] == (log + all[..n - 1]) + [all[n - 1]];
    }
  }

  lemma AcceptPreserves(s: State, i: Input, room: nat, log: seq<Record>)
    requires Inv(s, log)
    ensures var (t, more) := Accept(s, i, room); Inv(t, log + more)
  {
    if s.ready && !Stale(s, i) && Gaps(s, i) <= MAXIMUM_GAPS {
      OfferedPreserves(s, i, room, log);
    } else {
      assert log + [] == log;
    }
  }

  lemma GapSequence(s: State, i: Input)
    requires s.have && Distance(s, i) >= 0
    ensures i.sequence == (Add32(s.lastSequence, 1) + Gaps(s, i)) % B32
  {
  }

  // Any prefix of what is offered extends the chain.
  lemma OfferedChained(s: State, i: Input, log: seq<Record>, n: nat)
    requires Inv(s, log) && s.ready && !Stale(s, i) && n <= |Offered(s, i)|
    ensures Chained(log + Offered(s, i)[..n])
  {
    hide Succeeds, Placeholder;
    var gaps, expected := Gaps(s, i), Add32(s.lastSequence, 1);
    var all, own := Placeholders(s.last, expected, gaps), RecordOf(i, s.pending || gaps > 0);
    if !s.have {
      assert Offered(s, i)[..n] == if n == 0 then [] else [own];
      if n == 0 { assert log + [] == log; } else { ChainedAppend(log, own); }
    } else if n <= gaps {
      PlaceholdersChained(log, s.last, expected, gaps, n);
      assert Offered(s, i)[..n] == all[..n];
    } else {
      PlaceholdersChained(log, s.last, expected, gaps, gaps);
      assert all[..gaps] == all;
      RealSucceeds(s, i, (log + all)[|log + all| - 1]);
      ChainedAppend(log + all, own);
      assert log + Offered(s, i)[..n] == (log + all) + [own];
    }
  }

  lemma RealSucceeds(s: State, i: Input, before: Record)
    requires s.have && Distance(s, i) >= 0
    requires var gaps := Gaps(s, i);
             if gaps == 0 then before.sequence == s.lastSequence && !before.placeholder
             else before == Placeholder(s.last, (Add32(s.lastSequence, 1) + (gaps - 1)) % B32, gaps)
    ensures Succeeds(before, RecordOf(i, s.pending || Gaps(s, i) > 0))
  {
    GapSequence(s, i);
    if Gaps(s, i) > 0 { SequenceStep(Add32(s.lastSequence, 1), Gaps(s, i)); }
  }

  lemma OfferedPreserves(s: State, i: Input, room: nat, log: seq<Record>)
    requires Inv(s, log) && s.ready && !Stale(s, i) && Gaps(s, i) <= MAXIMUM_GAPS
    ensures var (t, more) := Accept(s, i, room); Inv(t, log + more)
  {
    hide Chained, Placeholders;
    var offered := Offered(s, i);
    if |offered| <= room {
      OfferedChained(s, i, log, |offered|);
      assert offered[..|offered|] == offered;
    } else {
      OfferedChained(s, i, log, room);
    }
  }

  // Over every run with losses, repeats, discontinuities and sink refusals:
  // published sequence numbers are consecutive modulo 2^32, placeholders tile
  // both axes from the record before them, and neither a placeholder nor the
  // record after it is valid.
  lemma {:induction false} EveryRun(events: seq<Event>)
    ensures Inv(Run(events).0, Run(events).1)
  {
    if events != [] {
      var init, e := events[..|events| - 1], events[|events| - 1];
      EveryRun(init);
      var (s, log) := Run(init);
      match e {
        case Frame(i, room) => AcceptPreserves(s, i, room, log);
        case Discontinuity => assert log + [] == log;
      }
    }
  }

  // A noted discontinuity reaches the next published record unless a stale
  // frame arrives first: that frame is dropped and takes the mark with it.
  lemma DiscontinuityReaches(s: State, i: Input, room: nat)
    requires s.ready && s.pending && Gaps(s, i) < room && Gaps(s, i) <= MAXIMUM_GAPS
    ensures var (t, more) := Accept(s, i, room);
            && !t.pending
            && (Stale(s, i) <==> more == [])
            && (!Stale(s, i) ==> more[|more| - 1].gap && !more[|more| - 1].valid)
  {
  }

  function Clean(sequence: u32): Event {
    Frame(Input(sequence, Interval(0, 320_000, 0, TEN_SECONDS), true), 1)
  }

  lemma RunNext(events: seq<Event>, e: Event)
    ensures var (s, log) := Run(events);
            var (next, more) := Step(s, e);
            Run(events + [e]) == (next, log + more)
  {
    assert (events + [e])[..|events|] == events;
    hide Step;
  }

  // The loss of the mark at an input: after a discontinuity a repeated frame is
  // dropped, and the next record is unmarked and valid; without the repetition
  // it is marked and invalid.
  lemma MarkIsLost()
    ensures var first := [Clean(1), Discontinuity];
            var lost, kept := Run(first + [Clean(1)] + [Clean(2)]).1, Run(first + [Clean(2)]).1;
            && |lost| == 2 && lost[1].sequence == 2 && !lost[1].gap && lost[1].valid
            && |kept| == 2 && kept[1].sequence == 2 && kept[1].gap && !kept[1].valid
  {
    var first := [Clean(1), Discontinuity];
    assert first == [] + [Clean(1)] + [Discontinuity];
    RunNext([], Clean(1));
    RunNext([] + [Clean(1)], Discontinuity);
    RunNext(first, Clean(1));
    RunNext(first, Clean(2));
    RunNext(first + [Clean(1)], Clean(2));
    hide Run;
    OneFrame();
  }

  // The single steps of those two runs.
  lemma OneFrame()
    ensures var i := Interval(0, 320_000, 0, TEN_SECONDS);
            var marked := State(true, true, true, 1, i);
            && Step(Initial(), Clean(1)) == (State(true, true, false, 1, i), [RecordOf(Clean(1).input, false)])
            && Step(marked, Clean(1)) == (State(true, true, false, 1, i), [])
            && Step(marked, Clean(2)) == (State(true, true, false, 2, i), [RecordOf(Clean(2).input, true)])
            && Step(State(true, true, false, 1, i), Clean(2))
               == (State(true, true, false, 2, i), [RecordOf(Clean(2).input, false)])
  {
    NoGap(Initial(), Clean(1).input);
    NoGap(State(true, true, true, 1, Interval(0, 320_000, 0, TEN_SECONDS)), Clean(2).input);
    NoGap(State(true, true, false, 1, Interval(0, 320_000, 0, TEN_SECONDS)), Clean(2).input);
    hide Offered;
  }

  lemma NoGap(s: State, i: Input)
    requires Gaps(s, i) == 0
    ensures Offered(s, i) == [RecordOf(i, s.pending)]
  {
  }
}
