/** The energy session over whole runs: what a run's counters do not depend on,
    and when a family is integrated twice. */
module EnergyRuns {
  import opened Words
  import opened Energy

  // ---- Replacing families ------------------------------------------------------

  // The same powers, with the same validity, over some block of samples.
  predicate SamePowers(f: Basic, g: Basic) {
    f.summaryValid == g.summaryValid && f.quadrantValid == g.quadrantValid && f.active == g.active &&
    f.apparent == g.apparent && f.reactive == g.reactive && f.quadrant == g.quadrant
  }

  predicate IsSplit(f: Basic, part: seq<Basic>) {
    && |part| == 2 && SamePowers(f, part[0]) && SamePowers(f, part[1])
    && part[0].rate == part[1].rate == f.rate && part[0].sampleCount + part[1].sampleCount == f.sampleCount
  }

  // The same time at a multiple of the rate, or at a fraction of it.
  ghost predicate Finer(f: Basic, g: Basic) {
    && SamePowers(f, g) && Supported(f.rate) && Supported(g.rate)
    && exists scale: nat :: scale > 0 && g.rate == scale * f.rate && g.sampleCount == scale * f.sampleCount
  }

  ghost predicate IsResampled(f: Basic, part: seq<Basic>) {
    |part| == 1 && (Finer(f, part[0]) || Finer(part[0], f))
  }

  ghost predicate Replaces(f: Basic, part: seq<Basic>) {
    part == [f] || IsSplit(f, part) || IsResampled(f, part)
  }

  lemma SamePowerAt(f: Basic, g: Basic, lane: nat)
    requires SamePowers(f, g) && lane < LANES
    ensures PowerAt(f, lane / 4, lane % 4) == PowerAt(g, lane / 4, lane % 4)
  {
  }

  lemma FinerConserves(f: Basic, g: Basic, lane: nat)
    requires Finer(f, g) && lane < LANES
    ensures LaneContribution(g, lane) == LaneContribution(f, lane)
  {
    SamePowerAt(f, g, lane);
    var scale: nat :| scale > 0 && g.rate == scale * f.rate && g.sampleCount == scale * f.sampleCount;
    RateConserves(PowerAt(f, lane / 4, lane % 4), f.sampleCount, f.rate, scale);
    hide Contribution, PowerAt, Supported, SamePowers;
  }

  lemma SplitConserves(f: Basic, part: seq<Basic>, lane: nat)
    requires IsSplit(f, part) && lane < LANES
    ensures LaneContribution(f, lane) == LaneContribution(part[0], lane) + LaneContribution(part[1], lane)
  {
    SamePowerAt(f, part[0], lane);
    SamePowerAt(f, part[1], lane);
    SplittingConserves(PowerAt(f, lane / 4, lane % 4), part[0].sampleCount, part[1].sampleCount, f.rate);
    hide Contribution, PowerAt, SamePowers;
  }

  lemma TotalOfOne(f: Basic, lane: nat)
    requires lane < LANES
    ensures Total([f], lane) == LaneContribution(f, lane)
  {
    hide LaneContribution;
    assert [f][..0] == [];
    assert Total([], lane) == 0;
  }

  lemma ReplacedTotal(f: Basic, part: seq<Basic>, lane: nat)
    requires Replaces(f, part) && lane < LANES
    ensures Total(part, lane) == LaneContribution(f, lane)
  {
    hide LaneContribution, Total, SamePowers, Finer;
    if IsSplit(f, part) {
      SplitConserves(f, part, lane);
      TotalAppend([part[0]], part[1], lane);
      TotalOfOne(part[0], lane);
      assert part == [part[0]] + [part[1]];
    } else if IsResampled(f, part) {
      if Finer(f, part[0]) { FinerConserves(f, part[0], lane); } else { FinerConserves(part[0], f, lane); }
      TotalOfOne(part[0], lane);
      assert part == [part[0]];
    } else {
      TotalOfOne(f, lane);
    }
  }

  ghost function Flatten(parts: seq<seq<Basic>>): seq<Basic> {
    if parts == [] then [] else Flatten(parts[..|parts| - 1]) + parts[|parts| - 1]
  }

  ghost predicate EachReplaces(families: seq<Basic>, parts: seq<seq<Basic>>) {
    |parts| == |families| && forall k :: 0 <= k < |parts| ==> Replaces(families[k], parts[k])
  }

  lemma {:induction false} TotalsConserve(families: seq<Basic>, parts: seq<seq<Basic>>, lane: nat)
    requires EachReplaces(families, parts) && lane < LANES
    ensures Total(Flatten(parts), lane) == Total(families, lane)
  {
    hide LaneContribution, Replaces;
    if parts != [] {
      var n := |parts| - 1;
      assert Replaces(families[n], parts[n]);
      TotalsConserve(families[..n], parts[..n], lane);
      ReplacedTotal(families[n], parts[n], lane);
      TotalSplits(Flatten(parts[..n]), parts[n], lane);
      hide Total;
      TotalAppend(families[..n], families[n], lane);
      assert families == families[..n] + [families[n]];
    }
  }

  // A counter is determined by its total, its remainder while below the limit.
  lemma HeldIsDetermined(c: Counter, d: Counter, total: nat)
    requires Holds(c, total) && Holds(d, total)
    ensures c.value == d.value && (!Exceeds(total) ==> c == d)
  {
  }

  // Over whole lists: splitting families, or reporting their energy at other
  // supported rates, changes no total, no value, and below the limit no
  // remainder of any counter.
  lemma ReplacementConserves(families: seq<Basic>, parts: seq<seq<Basic>>, lane: nat, c: Counter, d: Counter)
    requires EachReplaces(families, parts) && lane < LANES
    requires Holds(c, Total(families, lane)) && Holds(d, Total(Flatten(parts), lane))
    ensures Total(Flatten(parts), lane) == Total(families, lane)
    ensures c.value == d.value && (!Exceeds(Total(families, lane)) ==> c == d)
  {
    hide Replaces, Total, Flatten, Holds;
    TotalsConserve(families, parts, lane);
    HeldIsDetermined(c, d, Total(families, lane));
  }

  // Past the limit the remainders do part: three samples of half a unit each
  // after a full counter, in one block or in blocks of two and one.
  lemma RemaindersPart()
    ensures var full, power := Counter(I64_MAX, 0), UNIT / 256;
            && Holds(full, I64_MAX * UNIT)
            && Integrated(full, power, 3, 1000).0 == full
            && Integrated(Integrated(full, power, 2, 1000).0, power, 1, 1000).0 == Counter(I64_MAX, UNIT / 2)
  {
  }

  // ---- Families offered to the session ---------------------------------------------

  ghost function SessionAfter(fs: seq<Basic>): Session {
    if fs == [] then Fresh() else Admit(SessionAfter(fs[..|fs| - 1]), fs[|fs| - 1]).0
  }

  // Family k of the run is integrated.
  ghost predicate IntegratedAt(fs: seq<Basic>, k: nat)
    requires k < |fs|
  {
    Admit(SessionAfter(fs[..k]), fs[k]).1
  }

  // Whether the session remembers the family as its latest. An incomplete one
  // is remembered without being compared with the latest.
  predicate Remembers(s: Session, f: Basic) {
    if !f.complete then s.started && f.seen
    else (s.started || (Eligible(f) && AllTrue(f.summaryValid) && AllTrue(f.quadrantValid))) && !Repeats(s, f)
  }

  // The remembered sequence number, counted without wrapping: each remembered
  // family moves it by its signed distance.
  ghost function Place(fs: seq<Basic>): int {
    if fs == [] then 0
    else
      var init, f := fs[..|fs| - 1], fs[|fs| - 1];
      var s := SessionAfter(init);
      if !Remembers(s, f) then Place(init)
      else if !s.have then f.sequence
      else Place(init) + Distance32(f.sequence, s.lastSequence)
  }

  lemma Admits(s: Session, f: Basic)
    ensures var t := Admit(s, f).0;
            && (Remembers(s, f) ==> t.have && t.lastSequence == f.sequence)
            && (!Remembers(s, f) ==> t.have == s.have && t.lastSequence == s.lastSequence)
            && (s.started ==> t.started) && (s.have ==> t.have)
    ensures Admit(s, f).1 ==> Remembers(s, f) && f.complete && Eligible(f) && Admit(s, f).0.started
    ensures f.complete && Eligible(f) && s.started ==> (Admit(s, f).1 <==> !Repeats(s, f))
  {
    hide Eligible, AllTrue, AddClamped32, AddClamped64;
  }

  lemma Moved(place: int, last: u32, sequence: u32)
    requires last == place % B32
    ensures sequence == (place + Distance32(sequence, last)) % B32
  {
    var d: int := sequence - last;
    var moved: int := place + Distance32(sequence, last);
    var q := d / B32;
    assert d == q * B32 + d % B32;
    if d % B32 < 0x8000_0000 {
      ModUnique(moved, B32, place / B32 - q, sequence);
    } else {
      ModUnique(moved, B32, place / B32 - q - 1, sequence);
    }
  }

  lemma {:induction false} PlaceIsLast(fs: seq<Basic>)
    ensures SessionAfter(fs).have ==> SessionAfter(fs).lastSequence == Place(fs) % B32
  {
    if fs != [] {
      var init, f := fs[..|fs| - 1], fs[|fs| - 1];
      PlaceIsLast(init);
      Admits(SessionAfter(init), f);
      if SessionAfter(init).have { Moved(Place(init), SessionAfter(init).lastSequence, f.sequence); }
      hide Admit, Remembers;
    }
  }

  lemma RunNext(fs: seq<Basic>, k: nat)
    requires k < |fs|
    ensures SessionAfter(fs[..k + 1]) == Admit(SessionAfter(fs[..k]), fs[k]).0
    ensures Place(fs[..k + 1]) ==
      var s := SessionAfter(fs[..k]);
      if !Remembers(s, fs[k]) then Place(fs[..k]) else if !s.have then fs[k].sequence
      else Place(fs[..k]) + Distance32(fs[k].sequence, s.lastSequence)
  {
    hide Admit, Remembers;
    assert fs[..k + 1][..k] == fs[..k];
  }

  lemma {:induction false} StartedLasts(fs: seq<Basic>, j: nat, k: nat)
    requires j <= k <= |fs|
    ensures SessionAfter(fs[..j]).started ==> SessionAfter(fs[..k]).started
    ensures SessionAfter(fs[..j]).have ==> SessionAfter(fs[..k]).have
  {
    if j < k {
      StartedLasts(fs, j, k - 1);
      RunNext(fs, k - 1);
      Admits(SessionAfter(fs[..k - 1]), fs[k - 1]);
      hide Admit, SessionAfter;
    }
  }

  // Where an integrated family stood.
  lemma StandsAt(fs: seq<Basic>, k: nat)
    requires k < |fs| && IntegratedAt(fs, k)
    ensures fs[k].complete && Eligible(fs[k]) && SessionAfter(fs[..k + 1]).started && SessionAfter(fs[..k + 1]).have
    ensures fs[k].sequence == Place(fs[..k + 1]) % B32
  {
    Admits(SessionAfter(fs[..k]), fs[k]);
    RunNext(fs, k);
    PlaceIsLast(fs[..k + 1]);
    hide Admit, Remembers, SessionAfter, Place;
  }

  lemma AheadModulo(last: u32, sequence: u32, place: int, stood: int)
    requires last == place % B32 && sequence == stood % B32 && -0x8000_0000 < stood - place < 0x8000_0000
    ensures 0 < (sequence - last) % B32 < 0x8000_0000 <==> place < stood
  {
    var d := stood - place;
    assert sequence - last == d - (stood / B32 - place / B32) * B32;
    if d >= 0 {
      ModUnique(sequence - last, B32, place / B32 - stood / B32, d);
    } else {
      ModUnique(sequence - last, B32, place / B32 - stood / B32 - 1, d + B32);
    }
  }

  // Exactly when a family integrated earlier in the run is integrated again if it
  // comes again: the session has meanwhile been moved back behind it.
  lemma AgainIffBehind(fs: seq<Basic>, k: nat)
    requires k < |fs| && IntegratedAt(fs, k)
    requires -0x8000_0000 < Place(fs[..k + 1]) - Place(fs) < 0x8000_0000
    ensures IntegratedAt(fs + [fs[k]], |fs|) <==> Place(fs) < Place(fs[..k + 1])
  {
    hide Admit, SessionAfter, Place, Eligible;
    StandsAt(fs, k);
    StartedLasts(fs, k + 1, |fs|);
    assert fs[..|fs|] == fs && (fs + [fs[k]])[..|fs|] == fs;
    PlaceIsLast(fs);
    var s := SessionAfter(fs);
    Admits(s, fs[k]);
    AheadModulo(s.lastSequence, fs[k].sequence, Place(fs), Place(fs[..k + 1]));
  }

  // No incomplete family of the run is older than the latest remembered one.
  ghost predicate Forward(fs: seq<Basic>) {
    forall k :: 0 <= k < |fs| ==> ForwardAt(fs, k)
  }

  ghost predicate ForwardAt(fs: seq<Basic>, k: nat)
    requires k < |fs|
  {
    var s := SessionAfter(fs[..k]);
    !fs[k].complete && s.have && Remembers(s, fs[k]) ==> Distance32(fs[k].sequence, s.lastSequence) >= 0
  }

  lemma CompleteMovesOn(s: Session, f: Basic)
    requires f.complete && Remembers(s, f) && s.have
    ensures Distance32(f.sequence, s.lastSequence) > 0
  {
    hide Eligible, AllTrue;
  }

  lemma {:induction false} PlacesGrow(fs: seq<Basic>, j: nat, k: nat)
    requires Forward(fs) && j <= k <= |fs| && SessionAfter(fs[..j]).have
    ensures Place(fs[..j]) <= Place(fs[..k])
    ensures j < k && fs[k - 1].complete && IntegratedAt(fs, k - 1) ==> Place(fs[..j]) < Place(fs[..k])
  {
    hide Admit, SessionAfter, Place, Remembers;
    if j < k {
      PlacesGrow(fs, j, k - 1);
      StartedLasts(fs, j, k - 1);
      RunNext(fs, k - 1);
      assert ForwardAt(fs, k - 1);
      var s := SessionAfter(fs[..k - 1]);
      Admits(s, fs[k - 1]);
      if fs[k - 1].complete && Remembers(s, fs[k - 1]) { CompleteMovesOn(s, fs[k - 1]); }
    }
  }

  // So over every run in which incomplete families only move forward, two
  // integrated families less than 2^32 places apart have different numbers, and
  // none would be integrated again within 2^31 places.
  lemma NoneTwice(fs: seq<Basic>, j: nat, k: nat)
    requires Forward(fs) && j < k < |fs| && IntegratedAt(fs, j) && IntegratedAt(fs, k)
    ensures Place(fs[..j + 1]) < Place(fs[..k + 1])
    ensures Place(fs[..k + 1]) - Place(fs[..j + 1]) < B32 ==> fs[j].sequence != fs[k].sequence
  {
    hide SessionAfter, Place, Admit, Forward, IntegratedAt, Eligible;
    StandsAt(fs, j);
    StandsAt(fs, k);
    PlacesGrow(fs, j + 1, k + 1);
    var x, y := Place(fs[..j + 1]), Place(fs[..k + 1]);
    if y - x < B32 { Apart(x, y); }
  }

  lemma Apart(x: int, y: int)
    requires x < y < x + B32
    ensures x % B32 != y % B32
  {
  }

  lemma NoneAgain(fs: seq<Basic>, k: nat)
    requires Forward(fs) && k < |fs| && IntegratedAt(fs, k)
    requires Place(fs) - Place(fs[..k + 1]) < 0x8000_0000
    ensures !IntegratedAt(fs + [fs[k]], |fs|)
  {
    StandsAt(fs, k);
    PlacesGrow(fs, k + 1, |fs|);
    assert fs[..|fs|] == fs;
    hide SessionAfter, Place, Admit, Forward, IntegratedAt;
    AgainIffBehind(fs, k);
  }

  // ---- A family integrated twice ------------------------------------------------------

  function Whole(sequence: u32): Basic {
    Family(true, true, sequence, 6400, 32000, 0, 6399, true, false,
           [true, true, true, true], [true, true, true, true],
           [1, 1, 1, 3], [1, 1, 1, 3], [0, 0, 0, 0], [None, None, None, None])
  }

  // An older family with a record missing is remembered, and the family before
  // it is integrated a second time.
  lemma IntegratedTwice()
    ensures var fs := [Whole(5), Whole(4).(complete := false), Whole(5)];
            IntegratedAt(fs, 0) && IntegratedAt(fs, 2) && fs[0] == fs[2]
  {
    var fs := [Whole(5), Whole(4).(complete := false), Whole(5)];
    assert fs[..0] == [];
    RunNext(fs, 0);
    RunNext(fs, 1);
    assert AllTrue(Whole(5).summaryValid) && AllTrue(Whole(5).quadrantValid);
    hide SessionAfter, Place;
    assert SessionAfter([]) == Fresh() by { NoneYet(); }
  }

  lemma NoneYet()
    ensures SessionAfter([]) == Fresh()
  {
  }
}
