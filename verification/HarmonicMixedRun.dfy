/** A run in which one two-hour harmonic family mixes two configurations: at 50 Hz
    every ten minutes hold 3000 base families, a multiple of the fifteen of the
    short tier, so both shorter tiers are empty at every ten-minute mark. */
module HarmonicMixedRun {
  import opened Words
  import opened HarmonicFamilies

  const BLOCK: nat := 6400
  const PER_TEN: nat := 3000
  const TEN_MINUTES: nat := 19_200_000
  // The last family of the first configuration, and of the two hours.
  const CHANGE: nat := 9000
  const LAST: nat := 39000

  // The k-th base family, of 200 ms at 32000 samples a second.
  function Base(k: nat): Input
    requires 0 < k <= LAST
  {
    Input(k, if k <= CHANGE then 1 else 2, 32000, BLOCK, (k - 1) * BLOCK, 50, 10, 0,
          false, true, true, true, false, Point(0, 0, true, true))
  }

  // What the tiers look at in a base family.
  lemma BaseIs(k: nat)
    requires 0 < k <= LAST
    ensures Base(k).sequence == k && Base(k).sampleCount == BLOCK && Base(k).firstSample == (k - 1) * BLOCK
    ensures Base(k).sampleRate == 32000 && Base(k).nominal == 50
  {
  }

  function Bases(from: nat, to: nat): (s: seq<Input>)
    requires from <= to <= LAST
    ensures |s| == to - from
  {
    seq(to - from, j requires 0 <= j < to - from => Base(from + 1 + j))
  }

  function Part(n: nat): seq<Input>
    requires n < 13
  {
    Bases(n * PER_TEN, (n + 1) * PER_TEN)
  }

  // The complete ten minutes `from`, ..., `to - 1`, counted from zero.
  function Parts(from: nat, to: nat): (s: seq<seq<Input>>)
    requires from <= to <= 13
    ensures |s| == to - from
  {
    seq(to - from, j requires 0 <= j < to - from => Part(from + j))
  }

  // The clock is set one interval ahead, then the families arrive.
  function Events(k: nat): seq<Event>
    requires k <= LAST
  {
    if k == 0 then [TimingUpdate(Timing(TEN_MINUTES, true, true))]
    else Events(k - 1) + [Family(Base(k), Sink(true, true, true))]
  }

  // The whole ten minutes among the first k families.
  function Tens(k: nat): nat { k / PER_TEN }

  function At(k: nat): State
    requires k < LAST
  {
    State(Tier(Bases(k / 15 * 15, k), k < 15),
          Tier(Bases(Tens(k) * PER_TEN, k), k < PER_TEN),
          Cascade(if Tens(k) <= 1 then [] else Parts(1, Tens(k)), true),
          (Tens(k) + 1) * TEN_MINUTES, true, true, true, k < PER_TEN,
          k, k * BLOCK, k > 0, k == 0, true)
  }

  lemma BasesNext(from: nat, k: nat)
    requires from <= k < LAST
    ensures Bases(from, k) + [Base(k + 1)] == Bases(from, k + 1)
  {
  }

  lemma PartsNext(to: nat)
    requires 1 <= to < 13
    ensures Parts(1, to) + [Part(to)] == Parts(1, to + 1)
    ensures Parts(1, 1) == []
  {
  }

  // Counting in fifteens and in three-thousands, from one family to the next.
  lemma Counted(k: nat)
    requires k < LAST
    ensures k % 15 == 14 ==> (k + 1) / 15 * 15 == k + 1
    ensures k % 15 != 14 ==> (k + 1) / 15 == k / 15
    ensures k - k / 15 * 15 == k % 15
    ensures k % PER_TEN == PER_TEN - 1 ==> Tens(k + 1) == Tens(k) + 1 && (k + 1) == Tens(k + 1) * PER_TEN
    ensures k % PER_TEN != PER_TEN - 1 ==> Tens(k + 1) == Tens(k)
    ensures k - Tens(k) * PER_TEN == k % PER_TEN && Tens(k) <= 12
    ensures (k + 1) * BLOCK >= (Tens(k) + 1) * TEN_MINUTES <==> k % PER_TEN == PER_TEN - 1
    ensures k == 0 ==> Tens(k) == 0
  {
  }

  // The state in which the next family is folded: accepted, with nothing cleared.
  function Ready(k: nat): State
    requires k < LAST
  {
    At(k).(lastSequence := k + 1, expectedFirst := (k + 1) * BLOCK, haveInput := true, discontinuity := false)
  }

  lemma Prepared(k: nat)
    requires k < LAST
    ensures AcceptSequence(At(k), Base(k + 1)).1
    ensures Prepare(AcceptSequence(At(k), Base(k + 1)).0, Base(k + 1)) == Ready(k)
    ensures Eligible(Base(k + 1))
  {
    Counted(k);
    assert k > 0 ==> Distance32(k + 1, Add32(k, 1)) == 0;
    Compatible(k);
    hide Bases, Parts;
    if k == 0 { assert At(0).short.families == At(0).ten.families == []; }
  }

  // Nothing in the shorter tiers is of another configuration.
  lemma Compatible(k: nat)
    requires k < LAST
    ensures !Incompatible(At(k).short.families, Base(k + 1)) && !Incompatible(At(k).ten.families, Base(k + 1))
  {
    var short, ten := k / 15 * 15, Tens(k) * PER_TEN;
    assert short <= k && ten <= k && (k >= CHANGE ==> short >= CHANGE && ten >= CHANGE);
    assert short < k ==> Bases(short, k)[0] == Base(short + 1);
    assert ten < k ==> Bases(ten, k)[0] == Base(ten + 1);
    hide Bases, Parts;
  }

  lemma ShortFolds(k: nat)
    requires k < LAST
    ensures FoldShort(Ready(k), Base(k + 1), true).0
         == Ready(k).(short := Tier(Bases((k + 1) / 15 * 15, k + 1), k + 1 < 15))
  {
    Counted(k);
    BasesNext(k / 15 * 15, k);
    if k % 15 == 14 { assert Bases(k + 1, k + 1) == []; }
    hide Bases;
  }

  lemma TenGathers(s: State, k: nat)
    requires k + 1 < LAST && s == Ready(k).(short := s.short) && k % PER_TEN != PER_TEN - 1
    ensures FoldTen(s, Base(k + 1), Sink(true, true, true)).0 == At(k + 1).(short := s.short)
  {
    hide Bases, Parts, Part, CloseTen, Base, Tens;
    Counted(k);
    BasesNext(Tens(k) * PER_TEN, k);
    BaseIs(k + 1);
  }

  lemma TenCloses(s: State, k: nat)
    requires k + 1 < LAST && s == Ready(k).(short := s.short) && k % PER_TEN == PER_TEN - 1
    ensures FoldTen(s, Base(k + 1), Sink(true, true, true)).0 == At(k + 1).(short := s.short)
  {
    Counted(k);
    BasesNext(Tens(k) * PER_TEN, k);
    assert Bases(k + 1, k + 1) == [];
    assert Bases(Tens(k) * PER_TEN, k + 1) == Part(Tens(k));
    assert Parts(1, 1) == [];
    if Tens(k) >= 1 { PartsNext(Tens(k)); }
    hide Bases, Parts, Part, Flatten, Tens;
  }

  lemma RunSteps(k: nat)
    requires 0 < k <= LAST
    ensures var (s, records) := Run(Events(k - 1));
            var (t, more) := Process(s, Base(k), Sink(true, true, true));
            Run(Events(k)) == (t, records + more)
  {
    hide Process;
    assert Events(k)[..|Events(k)| - 1] == Events(k - 1);
  }

  lemma Processed(k: nat)
    requires k < LAST
    ensures var (short, records) := FoldShort(Ready(k), Base(k + 1), true);
            var (ten, more) := FoldTen(short, Base(k + 1), Sink(true, true, true));
            Process(At(k), Base(k + 1), Sink(true, true, true)) == (ten, records + more)
  {
    Prepared(k);
    assert At(k).ready;
    hide FoldShort, FoldTen, Prepare, AcceptSequence, At, Ready;
  }

  lemma Start()
    ensures Run(Events(0)).0 == At(0)
  {
    assert Events(0)[..0] == [];
    assert Bases(0, 0) == [];
  }

  // One family leads from one of these states to the next.
  lemma StepIs(k: nat)
    requires k + 1 < LAST
    ensures Process(At(k), Base(k + 1), Sink(true, true, true)).0 == At(k + 1)
  {
    hide FoldShort, FoldTen, Process, Bases, Parts, Base, Tens;
    Processed(k);
    ShortFolds(k);
    var s := FoldShort(Ready(k), Base(k + 1), true).0;
    if k % PER_TEN == PER_TEN - 1 { TenCloses(s, k); } else { TenGathers(s, k); }
    hide Ready;
  }

  lemma {:induction false} RunIs(k: nat)
    requires k < LAST
    ensures Run(Events(k)).0 == At(k)
  {
    hide Process, Run, Events, Base, At;
    if k == 0 {
      Start();
    } else {
      RunIs(k - 1);
      RunSteps(k);
      StepIs(k - 1);
    }
  }

  lemma LastRecord(s: State)
    requires s == Ready(LAST - 1).(short := s.short)
    ensures var log := FoldTen(s, Base(LAST), Sink(true, true, true)).1;
            && |log| == 2 && log[1].period == Hours2 && log[1].parts == Parts(1, 13)
  {
    var k := LAST - 1;
    Counted(k);
    BasesNext(Tens(k) * PER_TEN, k);
    assert Bases(Tens(k) * PER_TEN, LAST) == Part(12);
    PartsNext(12);
    hide Bases, Parts, Part, Flatten;
  }

  lemma PartsDiffer()
    ensures |Parts(1, 13)| == 12 && Parts(1, 13)[1] == Part(2) && Parts(1, 13)[2] == Part(3)
    ensures |Part(2)| == |Part(3)| == PER_TEN && !SameConfiguration(Part(2)[0], Part(3)[0])
  {
    assert Part(2)[0] == Base(6001) && Part(3)[0] == Base(9001);
  }

  // The last family of the two hours completes a record over two
  // configurations: its first two parts are of the first, the rest of the other.
  lemma TwoHoursMix()
    ensures Run(Events(LAST)).1 != []
    ensures var log := Run(Events(LAST)).1;
            var r := log[|log| - 1];
            && r.period == Hours2 && r.parts == Parts(1, 13)
            && |r.parts| == 12 && r.parts[1] != [] && r.parts[2] != []
            && !SameConfiguration(r.parts[1][0], r.parts[2][0])
  {
    var k := LAST - 1;
    RunIs(k);
    RunSteps(LAST);
    Processed(k);
    ShortFolds(k);
    LastRecord(FoldShort(Ready(k), Base(LAST), true).0);
    PartsDiffer();
    hide FoldShort, FoldTen, Process, Run, Bases, Parts, Part, Base, At, Ready, SameConfiguration;
  }
}
