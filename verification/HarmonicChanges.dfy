/** Where the configuration can change inside a two-hour harmonic family, over
    every run of events. */
module HarmonicChanges {
  import opened Words
  import opened HarmonicFamilies

  // A 150/180-cycle record ended with this family.
  ghost predicate EndsShort(log: seq<Record>, f: Input) {
    exists k :: 0 <= k < |log| && ShortEndsWith(log[k], f)
  }

  predicate ShortEndsWith(r: Record, f: Input) {
    r.period == Cycles150 && r.families != [] && r.families[|r.families| - 1] == f
  }

  function Last(part: seq<Input>): Input
    requires part != []
  {
    part[|part| - 1]
  }

  // The later part goes on in the configuration of the earlier one, or that one
  // ended together with a short record.
  ghost predicate Joined(part: seq<Input>, next: Input, log: seq<Record>)
    requires part != []
  {
    SameConfiguration(part[0], next) || EndsShort(log, Last(part))
  }

  ghost predicate JoinedAt(parts: seq<seq<Input>>, k: nat, log: seq<Record>)
    requires 0 < k < |parts| && Whole(parts)
  {
    Joined(parts[k - 1], parts[k][0], log)
  }

  ghost predicate EachJoined(parts: seq<seq<Input>>, log: seq<Record>)
    requires Whole(parts)
  {
    forall k :: 0 < k < |parts| ==> JoinedAt(parts, k, log)
  }

  // The short tier ends with the family that closed the last part, or is empty
  // since a short record ended with it.
  ghost predicate Boundary(short: seq<Input>, f: Input, log: seq<Record>) {
    if short == [] then EndsShort(log, f) else Last(short) == f
  }

  ghost predicate Changes(s: State, log: seq<Record>)
    requires Whole(s.two.parts)
  {
    s.ready ==>
      && EachJoined(s.two.parts, log)
      && (s.two.parts != [] ==>
          var part := s.two.parts[|s.two.parts| - 1];
          if s.ten.families == [] then Boundary(s.short.families, Last(part), log)
          else Joined(part, s.ten.families[0], log))
  }

  lemma EndsShortGrows(log: seq<Record>, more: seq<Record>, f: Input)
    ensures EndsShort(log, f) || EndsShort(more, f) ==> EndsShort(log + more, f)
  {
    if EndsShort(log, f) {
      var k :| 0 <= k < |log| && ShortEndsWith(log[k], f);
      assert ShortEndsWith((log + more)[k], f);
    }
    if EndsShort(more, f) {
      var k :| 0 <= k < |more| && ShortEndsWith(more[k], f);
      assert ShortEndsWith((log + more)[|log| + k], f);
    }
  }

  lemma EachJoinedGrows(parts: seq<seq<Input>>, log: seq<Record>, more: seq<Record>)
    requires Whole(parts) && EachJoined(parts, log)
    ensures EachJoined(parts, log + more)
  {
    hide EndsShort, SameConfiguration;
    forall k | 0 < k < |parts| ensures JoinedAt(parts, k, log + more) {
      assert JoinedAt(parts, k, log);
      EndsShortGrows(log, more, Last(parts[k - 1]));
    }
  }

  lemma EachJoinedExtends(parts: seq<seq<Input>>, part: seq<Input>, log: seq<Record>)
    requires Whole(parts) && Whole(parts + [part]) && EachJoined(parts, log)
    requires parts != [] ==> part != [] && Joined(parts[|parts| - 1], part[0], log)
    ensures EachJoined(parts + [part], log)
  {
    hide Joined, Whole;
    forall k | 0 < k < |parts + [part]| ensures JoinedAt(parts + [part], k, log) {
      if k < |parts| { assert JoinedAt(parts, k, log); }
    }
  }

  // A family that finds the short tier compatible joins the last part.
  lemma CompatibleJoins(part: seq<Input>, short: seq<Input>, i: Input, log: seq<Record>)
    requires part != [] && OneConfiguration(part) && OneConfiguration(short)
    requires Boundary(short, Last(part), log) && !Incompatible(short, i)
    ensures Joined(part, i, log)
  {
    if short != [] {
      assert SameConfiguration(part[0], part[|part| - 1]);
      assert SameConfiguration(short[0], short[|short| - 1]);
    }
    hide EndsShort;
  }

  // What the tiers hold once family `i` has been admitted to them.
  ghost predicate Admitted(s: State, i: Input, log: seq<Record>)
    requires Whole(s.two.parts)
  {
    && EachJoined(s.two.parts, log)
    && (s.two.parts != [] ==> Joined(s.two.parts[|s.two.parts| - 1], (s.ten.families + [i])[0], log))
  }

  lemma PrepareChanges(s: State, i: Input, log: seq<Record>)
    requires Inv(s) && AcceptSequence(s, i).1 && s.ready && Changes(s, log)
    ensures var t := Prepare(AcceptSequence(s, i).0, i);
            Whole(t.two.parts) && Changes(t, log) && (Eligible(i) ==> Admitted(t, i, log))
  {
    var accepted := AcceptSequence(s, i).0;
    PrepareShape(accepted, i);
    PrepareReady(s, i);
    var t := Prepare(accepted, i);
    hide Prepare, EachJoined, Eligible, Incompatible, Boundary, Joined, Follows, Consecutive;
    if Cleared(t) {
      NoneJoined(log);
    } else if t.two.parts != [] && t.ten.families == [] {
      var part := t.two.parts[|t.two.parts| - 1];
      CompatibleJoins(part, t.short.families, i, log);
    }
  }

  lemma NoneJoined(log: seq<Record>)
    ensures Whole([]) && EachJoined([], log)
  {
  }

  lemma FoldShortBoundary(s: State, i: Input, accepted: bool)
    ensures var (t, records) := FoldShort(s, i, accepted);
            t.ready ==> Boundary(t.short.families, i, records)
  {
    var (t, records) := FoldShort(s, i, accepted);
    if t.ready && t.short.families == [] { assert ShortEndsWith(records[0], i); }
  }

  lemma AdmittedGrows(s: State, i: Input, log: seq<Record>, more: seq<Record>)
    requires Whole(s.two.parts) && Admitted(s, i, log)
    ensures Admitted(s, i, log + more)
  {
    EachJoinedGrows(s.two.parts, log, more);
    if s.two.parts != [] { EndsShortGrows(log, more, Last(s.two.parts[|s.two.parts| - 1])); }
    hide EachJoined, EndsShort, SameConfiguration;
  }

  // Every two-hour record is joined by the short records before it.
  ghost predicate RecordJoined(log: seq<Record>, k: nat)
    requires k < |log|
  {
    log[k].period == Hours2 ==> Whole(log[k].parts) && EachJoined(log[k].parts, log[..k])
  }

  ghost predicate AllJoined(log: seq<Record>) { forall k :: 0 <= k < |log| ==> RecordJoined(log, k) }

  lemma AllJoinedAppend(log: seq<Record>, r: Record)
    requires AllJoined(log)
    requires r.period == Hours2 ==> Whole(r.parts) && EachJoined(r.parts, log)
    ensures AllJoined(log + [r])
  {
    hide Whole, EachJoined;
    var all := log + [r];
    forall k | 0 <= k < |all| ensures RecordJoined(all, k) {
      if k < |log| {
        assert RecordJoined(log, k) && all[..k] == log[..k];
      } else {
        assert all[..k] == log;
      }
    }
  }

  lemma AllJoinedAppendAll(log: seq<Record>, a: seq<Record>, b: seq<Record>, parts: seq<seq<Input>>)
    requires AllJoined(log) && |a| <= 1 && (a != [] ==> a[0].period != Hours2)
    requires |b| <= 1 && (b != [] ==> b[0].period == Hours2 && b[0].parts == parts)
    requires Whole(parts) && EachJoined(parts, log)
    ensures AllJoined(log + (a + b))
  {
    hide Whole, EachJoined, AllJoined;
    var first := log + a;
    if a == [] { assert first == log; } else { AllJoinedAppend(log, a[0]); assert first == log + [a[0]]; }
    EachJoinedGrows(parts, log, a);
    if b == [] {
      assert log + (a + b) == first;
    } else {
      AllJoinedAppend(first, b[0]);
      assert log + (a + b) == first + [b[0]];
    }
  }

  lemma ShortJoined(log: seq<Record>, s: State, i: Input, accepted: bool)
    requires AllJoined(log)
    ensures AllJoined(log + FoldShort(s, i, accepted).1)
  {
    hide AllJoined;
    var more := FoldShort(s, i, accepted).1;
    if more == [] { assert log + more == log; } else { AllJoinedAppend(log, more[0]); assert more == [more[0]]; }
  }

  lemma WholeExtends(parts: seq<seq<Input>>, part: seq<Input>)
    requires Whole(parts) && part != [] && OneConfiguration(part)
    ensures Whole(parts + [part])
  {
    hide OneConfiguration;
  }

  lemma BoundaryGrows(short: seq<Input>, f: Input, log: seq<Record>, more: seq<Record>)
    requires Boundary(short, f, log)
    ensures Boundary(short, f, log + more)
  {
    EndsShortGrows(log, more, f);
    hide EndsShort;
  }

  // The ten-minute tier closes with family `i`.
  lemma CloseTenChanges(s: State, i: Input, sink: Sink, log: seq<Record>)
    requires Whole(s.two.parts) && s.ten.families != [] && OneConfiguration(s.ten.families)
    requires Last(s.ten.families) == i && (s.contaminated ==> s.two.parts == []) && AllJoined(log)
    requires s.ready ==> EachJoined(s.two.parts + [s.ten.families], log) && Boundary(s.short.families, i, log)
    ensures var (t, more) := CloseTen(s, i, sink);
            Whole(t.two.parts) && Changes(t, log + more) && AllJoined(log + more)
  {
    hide Whole, EachJoined, Boundary, AllJoined, OneConfiguration, SameConfiguration;
    var overshoot, part := Overshoot(s, i), s.ten.families;
    var parts := s.two.parts + [part];
    var (emitted, first) := EmitTen(s, overshoot, sink.tenMinute);
    var (folded, second) := CascadeTen(emitted, overshoot, sink.twoHour);
    NoneJoined(log);
    NoneJoined(log + (first + second));
    WholeExtends(s.two.parts, part);
    if s.contaminated || !emitted.ready {
      AllJoinedAppendAll(log, first, [], []);
    } else {
      AllJoinedAppendAll(log, first, second, parts);
      EachJoinedGrows(parts, log, first + second);
      BoundaryGrows(s.short.families, i, log, first + second);
    }
  }

  lemma FoldTenChanges(s: State, i: Input, sink: Sink, log: seq<Record>)
    requires Whole(s.two.parts) && Flags(s) && AllJoined(log) && OneConfiguration(s.ten.families + [i])
    requires s.ready ==> Admitted(s, i, log) && Boundary(s.short.families, i, log)
    ensures var (t, more) := FoldTen(s, i, sink);
            Whole(t.two.parts) && Changes(t, log + more) && AllJoined(log + more)
  {
    hide Whole, EachJoined, Boundary, AllJoined, OneConfiguration, CloseTen;
    var t := s.(ten := s.ten.(families := s.ten.families + [i]));
    NoneJoined(log);
    assert log + [] == log;
    if s.targetValid && Add64(LastSample(i), 1) >= s.target {
      WholeExtends(s.two.parts, t.ten.families);
      if s.ready { EachJoinedExtends(s.two.parts, t.ten.families, log); }
      CloseTenChanges(t, i, sink, log);
    }
    hide Joined;
  }

  lemma ProcessChanges(s: State, i: Input, sink: Sink, log: seq<Record>)
    requires Inv(s) && Changes(s, log) && AllJoined(log)
    ensures var (t, more) := Process(s, i, sink);
            Whole(t.two.parts) && Changes(t, log + more) && AllJoined(log + more)
  {
    hide Whole, Changes, AllJoined, Prepare, AcceptSequence, Eligible, FoldTen, FoldShort;
    assert log + [] == log;
    if s.ready && AcceptSequence(s, i).1 {
      PrepareChanges(s, i, log);
      if Eligible(i) { FoldsChange(s, i, sink, log); }
    } else {
      InvWhole(s);
      RefusedUnchanged(s, i);
    }
  }

  lemma InvWhole(s: State)
    requires Inv(s)
    ensures Whole(s.two.parts)
  {
  }

  lemma FoldsChange(s: State, i: Input, sink: Sink, log: seq<Record>)
    requires Inv(s) && Changes(s, log) && AllJoined(log) && s.ready && AcceptSequence(s, i).1 && Eligible(i)
    ensures var (t, more) := Process(s, i, sink);
            Whole(t.two.parts) && Changes(t, log + more) && AllJoined(log + more)
  {
    hide Changes, AllJoined, Prepare, AcceptSequence, Eligible, FoldTen, Admitted, Boundary, TierReachesTo, Whole;
    PrepareChanges(s, i, log);
    PrepareReady(s, i);
    var p := Prepare(AcceptSequence(s, i).0, i);
    FoldShortPreserves(p, i, sink.short, s.lastSequence);
    var (t, more) := FoldShort(p, i, sink.short);
    ShortJoined(log, p, i, sink.short);
    FoldShortBoundary(p, i, sink.short);
    AdmittedGrows(p, i, log, more);
    hide FoldShort;
    if t.ready { BoundaryFrom(t.short.families, i, log, more); }
    TierIsOne(p, i, s.lastSequence);
    SameAdmitted(p, t, i, log + more);
    FoldTenChanges(t, i, sink, log + more);
    assert (log + more) + FoldTen(t, i, sink).1 == log + (more + FoldTen(t, i, sink).1);
  }

  lemma BoundaryFrom(short: seq<Input>, f: Input, log: seq<Record>, more: seq<Record>)
    requires Boundary(short, f, more)
    ensures Boundary(short, f, log + more)
  {
    EndsShortGrows(log, more, f);
    hide EndsShort;
  }

  lemma TierIsOne(s: State, i: Input, previous: u32)
    requires LongTiers(s.ten.families, s.two.parts, s.ready, previous) && !Incompatible(s.ten.families, i)
    ensures OneConfiguration(s.ten.families + [i])
  {
  }

  lemma SameAdmitted(s: State, t: State, i: Input, log: seq<Record>)
    requires Whole(s.two.parts) && Admitted(s, i, log) && t.two == s.two && t.ten == s.ten
    ensures Whole(t.two.parts) && Admitted(t, i, log)
  {
  }

  lemma StepChanges(s: State, e: Event, log: seq<Record>)
    requires Inv(s) && Changes(s, log) && AllJoined(log)
    ensures var (t, more) := Step(s, e);
            Whole(t.two.parts) && Changes(t, log + more) && AllJoined(log + more)
  {
    hide AllJoined, Process, EachJoined, Boundary, Joined;
    assert log + [] == log;
    NoneJoined(log);
    InvWhole(s);
    match e {
      case Family(i, sink) => ProcessChanges(s, i, sink, log);
      case TimingUpdate(t) =>
      case TransportGap =>
    }
    hide Whole;
  }

  // Over every run: two consecutive parts of a two-hour record have one
  // configuration unless a short record ended together with the earlier one.
  lemma {:induction false} EveryRunJoins(events: seq<Event>)
    ensures var (s, log) := Run(events);
            Inv(s) && Whole(s.two.parts) && Changes(s, log) && AllJoined(log)
  {
    EveryRun(events);
    if events == [] {
      NoneJoined([]);
    } else {
      EveryRunJoins(events[..|events| - 1]);
      var (s, log) := Run(events[..|events| - 1]);
      StepChanges(s, events[|events| - 1], log);
      InvWhole(Run(events).0);
      hide Step, Inv, Changes, AllJoined, Whole;
    }
  }

  // A family next in sequence that starts the next part.
  ghost predicate StartsPart(s: State, i: Input) {
    && s.ready && s.haveInput && !s.discontinuity && s.two.parts != [] && s.ten.families == []
    && !i.firstAfterGap && Eligible(i)
    && i.sequence == Add32(s.lastSequence, 1) && Abs(i.firstSample - s.expectedFirst) <= 2
  }

  // Exactly when a change of configuration goes unnoticed: over every run, such
  // a family of another configuration than the last part leaves the two-hour
  // interval in progress if and only if the short tier is empty, which a short
  // record that ended with the last family of that part has left so.
  lemma ChangeUnnoticed(events: seq<Event>, i: Input)
    requires var s := Run(events).0;
             StartsPart(s, i) && s.two.parts[|s.two.parts| - 1] != [] &&
             !SameConfiguration(s.two.parts[|s.two.parts| - 1][0], i)
    ensures var (s, log) := Run(events);
            var part := s.two.parts[|s.two.parts| - 1];
            && (Prepare(AcceptSequence(s, i).0, i).two.parts == s.two.parts <==> s.short.families == [])
            && (s.short.families == [] ==> EndsShort(log, Last(part)))
            && (s.short.families != [] ==> Last(s.short.families) == Last(part))
  {
    EveryRunJoins(events);
    var (s, log) := Run(events);
    var part := s.two.parts[|s.two.parts| - 1];
    assert OneConfiguration(part) && OneConfiguration(s.short.families);
    hide Run, EndsShort, AllJoined, EachJoined;
    if s.short.families != [] && !Incompatible(s.short.families, i) {
      CompatibleIsSame(part, s.short.families, i);
    }
    hide Consecutive, OneConfiguration;
    TwoHourSurvivesConfigurationChange(s, i);
    hide Prepare, AcceptSequence, Eligible;
  }

  lemma CompatibleIsSame(part: seq<Input>, short: seq<Input>, i: Input)
    requires part != [] && short != [] && OneConfiguration(part) && OneConfiguration(short)
    requires Last(short) == Last(part) && !Incompatible(short, i)
    ensures SameConfiguration(part[0], i)
  {
    assert SameConfiguration(part[0], part[|part| - 1]) && SameConfiguration(short[0], short[|short| - 1]);
  }

  // What that means for a published record.
  lemma RecordChanges(events: seq<Event>, n: nat, k: nat)
    requires n < |Run(events).1| && Run(events).1[n].period == Hours2
    requires 0 < k < |Run(events).1[n].parts|
    ensures var (log, parts) := (Run(events).1, Run(events).1[n].parts);
            && parts[k - 1] != [] && parts[k] != []
            && (!SameConfiguration(parts[k - 1][0], parts[k][0]) ==> EndsShort(log[..n], Last(parts[k - 1])))
  {
    EveryRunJoins(events);
    var log := Run(events).1;
    hide Run, Inv, Changes, EndsShort;
    assert RecordJoined(log, n);
    assert JoinedAt(log[n].parts, k, log[..n]);
  }
}
