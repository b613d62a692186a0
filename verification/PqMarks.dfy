/** What becomes of a discontinuity the transport has noted: which input of a list
    is evaluated under it, and when it is lost. */
module PqMarks {
  import opened Words
  import opened PqEvaluation
  import opened PqLifecycles
  import opened PqMachine

  // A noted mark is left alone by an input that does not name the configuration
  // in force or carries a mark of its own. Any other input takes it: one in
  // sequence is evaluated under it, a stale one drops it.
  lemma ProcessTakesMark(m: Machine, staged: Option<Configuration>, i: Input)
    requires ShapedMachine(m) && ShapedInput(i) && (staged.Some? ==> Shaped(staged.value))
    requires m.external && !m.core.trapped
    ensures Process(m, staged, i).external <==> !Named(m, staged, i) || i.discontinuity
    ensures Named(m, staged, i) ==> Adopt(m, staged, i).configuration.Some?
    ensures Named(m, staged, i) && !Stale(m, i) ==>
      Process(m, staged, i) == Measure(AcceptSequence(Adopt(m, staged, i), i).0, i, true)
    ensures Named(m, staged, i) && Stale(m, i) ==> Process(m, staged, i).core == Adopt(m, staged, i).core
  {
    AdoptShape(m, staged, i);
    hide Adopt, AbortFirst, ShapedState, Shaped, StepTypes;
  }

  // No input notes a mark by itself.
  lemma ProcessNotesNothing(m: Machine, staged: Option<Configuration>, i: Input)
    requires ShapedMachine(m) && ShapedInput(i) && (staged.Some? ==> Shaped(staged.value))
    ensures Process(m, staged, i).external ==> m.external
    ensures m.core.trapped ==> Process(m, staged, i) == m
  {
    AdoptShape(m, staged, i);
    hide Adopt, AbortFirst, ShapedState, Shaped, StepTypes;
  }

  // ---- Lists of inputs --------------------------------------------------------

  datatype Arrival = Arrival(staged: Option<Configuration>, input: Input)

  ghost predicate ShapedArrivals(list: seq<Arrival>) {
    forall k :: 0 <= k < |list| ==> ShapedArrival(list[k])
  }

  ghost predicate ShapedArrival(a: Arrival) { ShapedInput(a.input) && (a.staged.Some? ==> Shaped(a.staged.value)) }

  // The machine before arrival k.
  ghost function Before(m: Machine, list: seq<Arrival>, k: nat): (r: Machine)
    requires ShapedMachine(m) && ShapedArrivals(list) && k <= |list|
    ensures ShapedMachine(r)
  {
    if k == 0 then m
    else
      assert ShapedArrival(list[k - 1]);
      Process(Before(m, list, k - 1), list[k - 1].staged, list[k - 1].input)
  }

  // Arrival k takes a noted mark: it is evaluated or dropped, and carries none
  // of its own.
  ghost predicate Takes(m: Machine, list: seq<Arrival>, k: nat)
    requires ShapedMachine(m) && ShapedArrivals(list) && k < |list|
  {
    var s := Before(m, list, k);
    !s.core.trapped && Named(s, list[k].staged, list[k].input) && !list[k].input.discontinuity
  }

  ghost predicate Drops(m: Machine, list: seq<Arrival>, k: nat)
    requires ShapedMachine(m) && ShapedArrivals(list) && k < |list|
  {
    Takes(m, list, k) && Stale(Before(m, list, k), list[k].input)
  }

  ghost predicate Evaluates(m: Machine, list: seq<Arrival>, k: nat)
    requires ShapedMachine(m) && ShapedArrivals(list) && k < |list|
  {
    Takes(m, list, k) && !Stale(Before(m, list, k), list[k].input)
  }

  // Arrival k is evaluated under the noted mark, or loses it.
  ghost predicate Reached(m: Machine, list: seq<Arrival>, k: nat)
    requires ShapedMachine(m) && ShapedArrivals(list) && k < |list|
  {
    Evaluates(m, list, k) && Before(m, list, k).external
  }

  ghost predicate Lost(m: Machine, list: seq<Arrival>, k: nat)
    requires ShapedMachine(m) && ShapedArrivals(list) && k < |list|
  {
    Drops(m, list, k) && Before(m, list, k).external
  }

  lemma BeforeNext(m: Machine, list: seq<Arrival>, k: nat)
    requires ShapedMachine(m) && ShapedArrivals(list) && k < |list|
    ensures ShapedArrival(list[k])
    ensures Before(m, list, k + 1) == Process(Before(m, list, k), list[k].staged, list[k].input)
  {
    hide Process;
  }

  // The mark is still noted exactly while no arrival has taken it.
  lemma {:induction false} NotedUntilTaken(m: Machine, list: seq<Arrival>, k: nat)
    requires ShapedMachine(m) && ShapedArrivals(list) && k <= |list| && m.external
    ensures Before(m, list, k).external <==> forall j :: 0 <= j < k ==> !Takes(m, list, j)
  {
    hide Process, Named;
    if k > 0 {
      NotedUntilTaken(m, list, k - 1);
      BeforeNext(m, list, k - 1);
      var s, a := Before(m, list, k - 1), list[k - 1];
      ProcessNotesNothing(s, a.staged, a.input);
      if s.external && !s.core.trapped { ProcessTakesMark(s, a.staged, a.input); }
      assert Takes(m, list, k - 1) || !Takes(m, list, k - 1);
    }
  }

  lemma {:induction false} TrapLasts(m: Machine, list: seq<Arrival>, j: nat, k: nat)
    requires ShapedMachine(m) && ShapedArrivals(list) && j <= k <= |list|
    requires Before(m, list, j).core.trapped
    ensures Before(m, list, k).core.trapped
  {
    hide Process;
    if j < k {
      TrapLasts(m, list, j, k - 1);
      BeforeNext(m, list, k - 1);
      ProcessNotesNothing(Before(m, list, k - 1), list[k - 1].staged, list[k - 1].input);
    }
  }

  // What an arrival does with the mark is settled by the arrivals before it.
  lemma FirstTaker(m: Machine, list: seq<Arrival>, k: nat)
    requires ShapedMachine(m) && ShapedArrivals(list) && k < |list| && m.external
    ensures Reached(m, list, k) <==> Evaluates(m, list, k) && forall j :: 0 <= j < k ==> !Takes(m, list, j)
    ensures Lost(m, list, k) <==> Drops(m, list, k) && forall j :: 0 <= j < k ==> !Takes(m, list, j)
  {
    NotedUntilTaken(m, list, k);
    hide Before, Takes;
  }

  ghost predicate ReachedIn(m: Machine, list: seq<Arrival>)
    requires ShapedMachine(m) && ShapedArrivals(list)
  {
    exists k :: 0 <= k < |list| && Reached(m, list, k)
  }

  ghost predicate DroppedBefore(m: Machine, list: seq<Arrival>, k: nat)
    requires ShapedMachine(m) && ShapedArrivals(list) && k <= |list|
  {
    exists j :: 0 <= j < k && Drops(m, list, j)
  }

  // The first arrival among k + 1 that takes the mark.
  lemma {:induction false} LeastTaker(m: Machine, list: seq<Arrival>, k: nat) returns (j: nat)
    requires ShapedMachine(m) && ShapedArrivals(list) && k < |list| && Takes(m, list, k)
    ensures j <= k && Takes(m, list, j) && forall n :: 0 <= n < j ==> !Takes(m, list, n)
  {
    hide Takes;
    if n :| 0 <= n < k && Takes(m, list, n) {
      j := LeastTaker(m, list, n);
    } else {
      j := k;
    }
  }

  // A noted mark reaches an evaluated input of the list if and only if some input
  // without a mark of its own is evaluated and no stale one comes before it.
  lemma MarkReaches(m: Machine, list: seq<Arrival>)
    requires ShapedMachine(m) && ShapedArrivals(list) && m.external
    ensures ReachedIn(m, list) <==>
            exists k :: 0 <= k < |list| && Evaluates(m, list, k) && !DroppedBefore(m, list, k)
  {
    hide Before;
    if ReachedIn(m, list) {
      var k :| 0 <= k < |list| && Reached(m, list, k);
      FirstTaker(m, list, k);
      assert Evaluates(m, list, k) && !DroppedBefore(m, list, k);
    }
    if k :| 0 <= k < |list| && Evaluates(m, list, k) && !DroppedBefore(m, list, k) {
      var j := LeastTaker(m, list, k);
      FirstTaker(m, list, j);
      assert !Drops(m, list, j);
      assert Reached(m, list, j);
    }
  }

  // The first arrival that takes the mark decides: evaluated, every lifecycle in
  // progress is aborted first; stale, the mark goes without effect.
  lemma MarkEffect(m: Machine, list: seq<Arrival>, k: nat)
    requires ShapedMachine(m) && ShapedArrivals(list) && k < |list| && m.external
    ensures ShapedArrival(list[k])
    ensures var s := Before(m, list, k);
            var (a, adopted) := (list[k], Adopt(s, list[k].staged, list[k].input));
            && (Reached(m, list, k) ==>
                  && adopted.configuration.Some?
                  && Before(m, list, k + 1) == Measure(AcceptSequence(adopted, a.input).0, a.input, true))
            && (Lost(m, list, k) ==> Before(m, list, k + 1).core == adopted.core && !Before(m, list, k + 1).external)
  {
    hide Process, Measure, Adopt, AcceptSequence, Named;
    BeforeNext(m, list, k);
    var s := Before(m, list, k);
    if s.external && !s.core.trapped { ProcessTakesMark(s, list[k].staged, list[k].input); }
    hide Before;
  }

  // ---- A run that loses the mark -----------------------------------------------

  // A note from the transport sets the mark.
  datatype Event = Arrive(arrival: Arrival) | Note

  ghost predicate ShapedEvents(events: seq<Event>) {
    forall k :: 0 <= k < |events| ==> ShapedEvent(events[k])
  }

  ghost predicate ShapedEvent(e: Event) { e.Arrive? ==> ShapedArrival(e.arrival) }

  ghost function Happen(m: Machine, e: Event): (r: Machine)
    requires ShapedMachine(m) && ShapedEvent(e)
    ensures ShapedMachine(r)
  {
    match e
    case Note => m.(external := true)
    case Arrive(a) => Process(m, a.staged, a.input)
  }

  ghost function Run(events: seq<Event>): (r: Machine)
    requires ShapedEvents(events)
    ensures ShapedMachine(r)
  {
    if events == [] then
      StartedShape();
      Started()
    else
      assert ShapedEvent(events[|events| - 1]);
      Happen(Run(events[..|events| - 1]), events[|events| - 1])
  }

  lemma StartedShape()
    ensures ShapedMachine(Started())
  {
    assert forall key :: 0 <= key < KEYS ==> SILENT[key] == Blank();
  }

  // A voltage sag below nine tenths of 230 V, everything else off.
  function SagProfile(): Profile { Profile(true, false, 9000, 200, [true, true, true]) }

  function SagOnly(): Configuration {
    Configuration(1, 230_000_000, 1_000_000,
      [SagProfile(), Quiet(), Quiet(), Quiet(), Quiet(), Quiet(), Quiet(), Quiet(), Quiet()])
  }

  // One half-cycle with the same voltage on every phase.
  function HalfCycle(sequence: u32, microvolts: u32): Input {
    Input(sequence, 1, 32000, false, sequence * 320, [microvolts * B16, microvolts * B16, microvolts * B16],
          [0, 0, 0], [true, true, true], [true, true, true])
  }

  // Only the first type and slot are ever stepped.
  lemma {:induction false} StepsSag(cycleAgo: seq<Option<u32>>, m: Core, i: Input, n: nat)
    requires ShapedInput(i) && ShapedCore(m) && |cycleAgo| == PHASES && 0 < n <= KEYS && !m.trapped
    requires Shaped(SagOnly())
    ensures StepTypes(SagOnly(), cycleAgo, m, i, n) == StepOne(SagOnly(), cycleAgo, m, 0, 0, i)
  {
    hide StepOne, ShapedState;
    StepNone(SagOnly(), cycleAgo, m, i);
    if n > 1 {
      StepsSag(cycleAgo, m, i, n - 1);
      assert !Evaluated(SagOnly().events[(n - 1) / 3], (n - 1) % 3);
    }
  }

  function SagEvaluation(v: u32): Evaluation {
    Evaluation(true, v * 10000 < 230_000_000 * 9000, v * 10000 >= 230_000_000 * 9200, [true, true, true], [v, v, v])
  }

  lemma EvaluatesSag(sequence: u32, v: u32, before: Option<u32>)
    requires sequence < 1000
    ensures Shaped(SagOnly()) && ValidProfile(SagProfile()) && ShapedInput(HalfCycle(sequence, v))
    ensures Evaluate(0, 0, SagProfile(), SagOnly(), HalfCycle(sequence, v), before) == Done(SagEvaluation(v))
  {
    assert v * B16 / B16 == v;
    assert Values(HalfCycle(sequence, v).voltage) == [v, v, v];
    hide Values;
  }

  lemma SagStep(m: Core, cycleAgo: seq<Option<u32>>, sequence: u32, v: u32)
    requires ShapedCore(m) && |cycleAgo| == PHASES && !m.trapped && sequence < 1000
    requires Shaped(SagOnly()) && ShapedInput(HalfCycle(sequence, v))
    ensures StepTypes(SagOnly(), cycleAgo, m, HalfCycle(sequence, v), KEYS)
         == Committed(m, 0, Stepped(m.states[0], NextId(m.counter), 0, SagProfile(), SagOnly(), SagEvaluation(v),
                                    HalfCycle(sequence, v)))
  {
    hide StepTypes, Evaluate, Stepped, Committed, HalfCycle, SagEvaluation;
    StepsSag(cycleAgo, m, HalfCycle(sequence, v), KEYS);
    EvaluatesSag(sequence, v, cycleAgo[0]);
  }

  // With one lifecycle in progress, aborting all is aborting that one.
  lemma {:induction false} AbortsFirst(m: Core, i: Input, n: nat)
    requires ShapedCore(m) && 0 < n <= KEYS && m.states[0].active
    requires forall key :: 0 < key < KEYS ==> !m.states[key].active
    ensures AbortFirst(m, i, n) == Committed(m, 0, AbortStep(m.states[0], i))
  {
    hide ShapedState;
    if n > 1 {
      AbortsFirst(m, i, n - 1);
    } else {
      assert AbortFirst(m, i, 0) == m;
    }
  }

  const LOW: u32 := 184_000_000
  const MIDDLE: u32 := 209_300_000

  // Eight tenths start the sag; within the hysteresis it neither starts nor ends.
  function Begun(): EventState {
    Begin(1, 0, SagProfile(), SagOnly(), SagEvaluation(LOW), HalfCycle(1, LOW))
  }

  // After the first half-cycle: one lifecycle in progress.
  function Opened(external: bool): Machine {
    Machine(Some(SagOnly()), true, 1, external, [Some(LOW), Some(LOW), Some(LOW)], [None, None, None],
            Core(1, SILENT[0 := Begun()], [false, false, false], [Sent(0, Start, Begun())], false))
  }

  lemma OpenedShape(external: bool)
    ensures ShapedMachine(Opened(external)) && Shaped(SagOnly()) && Opened(external).core.states[0] == Begun()
    ensures Begun().active && forall key :: 0 < key < KEYS ==> !Opened(external).core.states[key].active
  {
    assert forall key :: 0 < key < KEYS ==> SILENT[key] == Blank();
    var states := Opened(external).core.states;
    assert forall key :: 0 < key < KEYS ==> states[key] == SILENT[key];
    hide HalfCycle;
  }

  lemma StartsSag()
    ensures Stepped(Blank(), 1, 0, SagProfile(), SagOnly(), SagEvaluation(LOW), HalfCycle(1, LOW))
         == Step(Some(Start), Begun(), Begun())
  {
    hide HalfCycle;
  }

  lemma FirstOpens()
    ensures ShapedMachine(Started()) && Shaped(SagOnly()) && ShapedInput(HalfCycle(1, LOW))
    ensures Process(Started(), Some(SagOnly()), HalfCycle(1, LOW)) == Opened(false)
  {
    StartedShape();
    EvaluatesSag(1, LOW, None);
    var i := HalfCycle(1, LOW);
    assert SILENT[0] == Blank();
    assert Recent(i) == [Some(LOW), Some(LOW), Some(LOW)];
    hide HalfCycle, StepTypes, Begun, Stepped, SagEvaluation, Recent, SagOnly;
    var adopted := Forget(Started().(configuration := Some(SagOnly())));
    SagStep(adopted.core, adopted.cycleAgo, 1, LOW);
    StartsSag();
  }

  // The repeated half-cycle takes the mark and leaves everything else.
  lemma RepeatTakes()
    ensures ShapedMachine(Opened(true)) && Shaped(SagOnly()) && ShapedInput(HalfCycle(1, LOW))
    ensures Process(Opened(true), Some(SagOnly()), HalfCycle(1, LOW)) == Opened(false)
  {
    OpenedShape(true);
    EvaluatesSag(1, LOW, None);
    hide StepTypes, Begun, SagOnly, AbortFirst;
  }

  lemma KeepsSag(s: EventState)
    requires s.active && s.lastEmit == Begun().lastEmit && |s.minimum| == |s.maximum| == PHASES
    ensures var step := Stepped(s, 2, 0, SagProfile(), SagOnly(), SagEvaluation(MIDDLE), HalfCycle(2, MIDDLE));
            step.emits == None && step.next.active && step.next.id == s.id
  {
  }

  lemma MiddleStartsNothing(s: EventState)
    requires !s.active && |s.minimum| == |s.maximum| == PHASES
    ensures Stepped(s, 2, 0, SagProfile(), SagOnly(), SagEvaluation(MIDDLE), HalfCycle(2, MIDDLE)) == Step(None, s, s)
  {
    hide HalfCycle;
  }

  // Unmarked, the next half-cycle lets the lifecycle go on; marked, it aborts it.
  lemma NextUnmarked()
    ensures ShapedMachine(Opened(false)) && Shaped(SagOnly()) && ShapedInput(HalfCycle(2, MIDDLE))
    ensures var core := Process(Opened(false), Some(SagOnly()), HalfCycle(2, MIDDLE)).core;
            && |core.states| == KEYS && core.states[0].active && core.states[0].id == 1
            && core.sent == [Sent(0, Start, Begun())]
  {
    OpenedShape(false);
    EvaluatesSag(2, MIDDLE, None);
    KeepsSag(Begun());
    var i := HalfCycle(2, MIDDLE);
    assert i.sequence == 2 && i.generation == 1 && !i.discontinuity;
    assert Begun().id == 1;
    SagStep(Opened(false).core, Opened(false).cycleAgo, 2, MIDDLE);
    assert SagOnly().generation == 1;
    hide HalfCycle, StepTypes, Begun, Stepped, SagEvaluation, Recent, SagOnly;
  }

  lemma NextMarked()
    ensures ShapedMachine(Opened(true)) && Shaped(SagOnly()) && ShapedInput(HalfCycle(2, MIDDLE))
    ensures var core := Process(Opened(true), Some(SagOnly()), HalfCycle(2, MIDDLE)).core;
            && |core.states| == KEYS && !core.states[0].active
            && core.sent == [Sent(0, Start, Begun()), Sent(0, Abort, Aborted(Begun(), HalfCycle(2, MIDDLE)))]
  {
    OpenedShape(true);
    EvaluatesSag(2, MIDDLE, None);
    var m, i := Opened(true), HalfCycle(2, MIDDLE);
    assert i.sequence == 2 && i.generation == 1 && !i.discontinuity && SagOnly().generation == 1;
    assert |Begun().minimum| == |Begun().maximum| == PHASES;
    AbortsFirst(m.core, i, KEYS);
    MiddleStartsNothing(Aborted(Begun(), i).(active := false));
    var t := Forget(AbortAll(m, i));
    SagStep(t.core, t.cycleAgo, 2, MIDDLE);
    hide HalfCycle, StepTypes, Begun, Stepped, SagEvaluation, Recent, SagOnly, AbortFirst;
  }

  // ---- The two runs ------------------------------------------------------------------

  function First(): Event { Arrive(Arrival(Some(SagOnly()), HalfCycle(1, LOW))) }

  function Second(): Event { Arrive(Arrival(Some(SagOnly()), HalfCycle(2, MIDDLE))) }

  lemma RunNext(events: seq<Event>, e: Event)
    requires ShapedEvents(events) && ShapedEvent(e)
    ensures ShapedEvents(events + [e]) && Run(events + [e]) == Happen(Run(events), e)
  {
    hide ShapedEvent, Happen;
    assert (events + [e])[..|events|] == events;
    forall k | 0 <= k < |events + [e]| ensures ShapedEvent((events + [e])[k]) {
      if k < |events| { assert ShapedEvent(events[k]); }
    }
  }

  lemma RunOpens()
    ensures ShapedEvents([First(), Note]) && ShapedEvent(First()) && ShapedEvent(Second())
    ensures Run([First(), Note]) == Opened(true)
  {
    FirstOpens();
    EvaluatesSag(2, MIDDLE, None);
    hide HalfCycle, SagOnly, Process, Begun;
    RunNext([], First());
    RunNext([] + [First()], Note);
    assert [] + [First()] + [Note] == [First(), Note];
  }

  // A sag is in progress and a discontinuity is noted. With the first half-cycle
  // repeated before the next, that next one is evaluated unmarked and the
  // lifecycle goes on; without the repetition it is aborted.
  lemma MarkIsLost()
    ensures ShapedEvents([First(), Note, First(), Second()]) && ShapedEvents([First(), Note, Second()])
    ensures var lost, kept := Run([First(), Note, First(), Second()]).core, Run([First(), Note, Second()]).core;
            && |lost.states| == |kept.states| == KEYS
            && lost.states[0].active && lost.states[0].id == 1 && |lost.sent| == 1 && lost.sent[0].kind == Start
            && !kept.states[0].active && |kept.sent| == 2
            && kept.sent[0].kind == Start && kept.sent[1].kind == Abort
            && kept.sent[1].state.id == kept.sent[0].state.id
  {
    RunOpens();
    RepeatTakes();
    NextUnmarked();
    NextMarked();
    hide HalfCycle, SagOnly, Process, Begun, Run;
    var noted := [First(), Note];
    RunNext(noted, First());
    RunNext(noted + [First()], Second());
    RunNext(noted, Second());
    assert noted + [First()] + [Second()] == [First(), Note, First(), Second()];
    assert noted + [Second()] == [First(), Note, Second()];
  }
}
