/** The power-quality event engine: nine event types on three slots each,
    configuration changes, discontinuities and a sink that may refuse. */
module PqEvents {
  import opened Words
  import opened PqEvaluation
  import opened PqLifecycles
  import opened M = PqMachine

  // The log holds what was asked for, in order, up to the first refusal.
  ghost predicate Follows(log: seq<Record>, sent: seq<Sent>, ready: bool) {
    && |log| <= |sent| && (ready ==> |log| == |sent|)
    && forall k :: 0 <= k < |log| ==> log[k] == Record(sent[k].key, sent[k].kind, sent[k].state, (k + 1) % B32)
  }

  lemma FollowsAppend(log: seq<Record>, sent: seq<Sent>, ready: bool, a: Sent)
    requires Follows(log, sent, ready)
    ensures ready ==> Follows(log + [Record(a.key, a.kind, a.state, (|log| + 1) % B32)], sent + [a], true)
    ensures Follows(log, sent + [a], false)
  {
  }

  class Engine {
    const states: array<EventState>
    var configuration: Option<Configuration>
    var haveInput: bool
    var lastInput: u32
    var counter: u64
    var external: bool
    var ready: bool
    var outputSequence: u32
    // How many more records the sink takes before it refuses one.
    var room: nat
    // Voltages half a cycle and a whole cycle ago, where valid.
    var halfCycleAgo: seq<Option<u32>>
    var cycleAgo: seq<Option<u32>>
    var rapidReady: seq<bool>
    // A division by zero was met; what the program does then is not defined.
    var trapped: bool
    // Everything published, and everything the sink was or would have been asked
    // to take.
    ghost var log: seq<Record>
    ghost var sent: seq<Sent>

    ghost function Lives(): Core
      reads this, states
    {
      Core(counter, states[..], rapidReady, sent, trapped)
    }

    ghost function View(): Machine
      reads this, states
    {
      Machine(configuration, haveInput, lastInput, external, halfCycleAgo, cycleAgo, Lives())
    }

    ghost predicate ShapesHold()
      reads this, states
    {
      && states.Length == KEYS
      && (forall key :: 0 <= key < KEYS ==> ShapedState(states[key]))
      && |halfCycleAgo| == |cycleAgo| == |rapidReady| == PHASES
      && (configuration.Some? ==> Shaped(configuration.value))
    }

    // While the engine is ready its states, counter and output sequence are
    // those of the log; once a record was refused the log stays as it is.
    ghost predicate Valid()
      reads this, states
    {
      && ShapesHold()
      && AllLegal(log) && Follows(log, sent, ready)
      && (ready ==>
          && Linked(states[..], log)
          && counter == IdOf(StartCount(log))
          && outputSequence == |log| % B32)
    }

    constructor (room: nat)
      ensures Valid() && fresh(states) && log == [] && ready && configuration == None && sent == [] && !trapped
    {
      states := new EventState[KEYS](_ => Blank());
      configuration, haveInput, lastInput, counter, external := None, false, 0, 0, false;
      ready, outputSequence, this.room := true, 0, room;
      halfCycleAgo, cycleAgo := [None, None, None], [None, None, None];
      rapidReady, trapped, log, sent := [false, false, false], false, [], [];
    }

    method NoteTransportDiscontinuity()
      requires Valid()
      modifies this`external
      ensures Valid() && View() == old(View()).(external := true)
    {
      external := true;
    }

    method Emit(key: nat, kind: Kind, s: EventState)
      requires AllLegal(log) && key < KEYS && Follows(log, sent, ready)
      requires ready ==> outputSequence == |log| % B32 && Legal(log, Record(key, kind, s, Add32(outputSequence, 1)))
      modifies this`ready, this`outputSequence, this`room, this`log, this`sent
      ensures AllLegal(log) && Follows(log, sent, ready) && sent == old(sent) + [Sent(key, kind, s)]
      ensures ready ==> old(ready) && outputSequence == |log| % B32
      ensures log == if ready then old(log) + [Record(key, kind, s, (|old(log)| + 1) % B32)] else old(log)
      ensures ready <==> old(ready) && old(room) > 0
    {
      FollowsAppend(log, sent, ready, Sent(key, kind, s));
      hide Follows;
      sent := sent + [Sent(key, kind, s)];
      if !ready {
        return;
      }
      outputSequence := Add32(outputSequence, 1);
      if room == 0 {
        ready := false;
        return;
      }
      room := room - 1;
      LegalAppend(log, Record(key, kind, s, outputSequence));
      hide Legal, AllLegal;
      log := log + [Record(key, kind, s, outputSequence)];
    }

    // Publish what one step of a lifecycle asks for, and keep its next state.
    method Commit(key: nat, step: Step)
      requires Valid() && key < KEYS && ShapedState(step.next)
      requires ready ==> StepFits(step, key, log)
      modifies this`ready, this`outputSequence, this`room, this`log, this`sent, this`counter, states
      ensures Valid() && Lives() == Committed(old(Lives()), key, step)
      ensures old(log) <= log && (ready ==> old(ready))
    {
      hide AllLegal, Legal, LinkedAt, Follows;
      ghost var before, oldLog := states[..], log;
      if ready { CommitLinked(before, log, key, step); }
      if step.emits == Some(Start) {
        counter := NextId(counter);
      }
      if step.emits.Some? {
        Emit(key, step.emits.value, step.published);
      }
      states[key] := step.next;
      assert states[..] == before[key := step.next];
    }

    method ProcessState(t: nat, slot: nat, input: Input)
      requires Valid() && configuration.Some? && t < TYPES && slot < PHASES && ShapedInput(input) && !trapped
      modifies this`ready, this`outputSequence, this`room, this`log, this`sent, this`counter, this`rapidReady,
               this`trapped, states
      ensures Valid() && ShapedCore(old(Lives()))
      ensures Lives() == StepOne(configuration.value, cycleAgo, old(Lives()), t, slot, input)
      ensures old(log) <= log && (ready ==> old(ready))
    {
      hide AllLegal, LinkedAt, Evaluate, Stepped, Follows;
      var c := configuration.value;
      var outcome := Evaluate(t, slot, c.events[t], c, input, cycleAgo[slot]);
      EvaluateShape(t, slot, c.events[t], c, input, cycleAgo[slot]);
      if outcome.Trap? {
        trapped := true;
        return;
      }
      var e := outcome.evaluation;
      if IsRapidChange(t) && !rapidReady[slot] {
        rapidReady := rapidReady[slot := e.valid && e.recovered];
        return;
      }
      var s := states[Key(t, slot)];
      var step := Stepped(s, NextId(counter), t, c.events[t], c, e, input);
      SteppedShape(s, NextId(counter), t, c.events[t], c, e, input);
      if ready { StepIsFit(s, log, Key(t, slot), counter, t, c.events[t], c, e, input); }
      Commit(Key(t, slot), step);
    }

    // Every lifecycle in progress is closed by an ABORT.
    method AbortAll(input: Input)
      requires Valid()
      modifies this`ready, this`outputSequence, this`room, this`log, this`sent, this`counter, states
      ensures Valid() && ShapedMachine(old(View())) && View() == M.AbortAll(old(View()), input)
      ensures old(log) <= log && (ready ==> old(ready))
    {
      hide AllLegal, LinkedAt, Follows, Committed;
      ghost var before := Lives();
      for key := 0 to KEYS
        invariant Valid() && ShapedCore(before) && Lives() == AbortFirst(before, input, key)
        invariant old(log) <= log && (ready ==> old(ready))
      {
        if states[key].active {
          if ready { AbortIsFit(states[key], log, key, input); }
          Commit(key, AbortStep(states[key], input));
        }
      }
    }

    method ForgetVoltages()
      requires Valid()
      modifies this`halfCycleAgo, this`cycleAgo, this`rapidReady
      ensures Valid() && View() == Forget(old(View()))
    {
      hide AllLegal, Linked, Follows;
      halfCycleAgo, cycleAgo := [None, None, None], [None, None, None];
      rapidReady := [false, false, false];
    }

    method ApplyMatching(staged: Option<Configuration>, input: Input)
      requires Valid() && (staged.Some? ==> Shaped(staged.value))
      modifies this, states
      ensures Valid() && ShapedMachine(old(View())) && View() == Adopt(old(View()), staged, input)
      ensures old(log) <= log && (ready ==> old(ready))
    {
      hide AllLegal, Linked, ShapedState, Follows, AbortFirst;
      if staged.None? || staged.value.generation != input.generation {
        return;
      }
      if configuration.Some? && configuration.value.generation == staged.value.generation {
        return;
      }
      if configuration.Some? {
        AbortAll(input);
      }
      configuration := staged;
      ForgetVoltages();
    }

    // The next type and slot in order, if it is evaluated at all.
    method StepSlot(t: nat, slot: nat, input: Input, ghost before: Core)
      requires Valid() && configuration.Some? && ShapedInput(input) && t < TYPES && slot < PHASES
      requires ShapedCore(before) && Lives() == StepTypes(configuration.value, cycleAgo, before, input, 3 * t + slot)
      modifies this`ready, this`outputSequence, this`room, this`log, this`sent, this`counter, this`rapidReady,
               this`trapped, states
      ensures Valid() && Lives() == StepTypes(configuration.value, cycleAgo, before, input, 3 * t + slot + 1)
      ensures old(log) <= log && (ready ==> old(ready))
    {
      hide AllLegal, Linked, Follows, ShapedState, StepOne;
      assert (3 * t + slot) / 3 == t && (3 * t + slot) % 3 == slot;
      if !trapped && Evaluated(configuration.value.events[t], slot) {
        ProcessState(t, slot, input);
      }
    }

    method ProcessTypes(input: Input)
      requires Valid() && configuration.Some? && ShapedInput(input)
      modifies this`ready, this`outputSequence, this`room, this`log, this`sent, this`counter, this`rapidReady,
               this`trapped, states
      ensures Valid() && ShapedCore(old(Lives()))
      ensures Lives() == StepTypes(configuration.value, cycleAgo, old(Lives()), input, KEYS)
      ensures old(log) <= log && (ready ==> old(ready))
    {
      hide Valid, StepOne, StepTypes, ShapedState;
      ghost var before := Lives();
      Shapes();
      StepNone(configuration.value, cycleAgo, before, input);
      for t := 0 to TYPES
        invariant Valid() && ShapedCore(before)
        invariant Shaped(configuration.value) && |cycleAgo| == PHASES
        invariant Lives() == StepTypes(configuration.value, cycleAgo, before, input, 3 * t)
        invariant old(log) <= log && (ready ==> old(ready))
      {
        for slot := 0 to PHASES
          invariant Valid() && Lives() == StepTypes(configuration.value, cycleAgo, before, input, 3 * t + slot)
          invariant old(log) <= log && (ready ==> old(ready))
        {
          StepSlot(t, slot, input, before);
        }
      }
    }

    lemma Shapes()
      requires Valid()
      ensures ShapedMachine(View())
      ensures ShapedCore(Lives()) && |cycleAgo| == PHASES && (configuration.Some? ==> Shaped(configuration.value))
    {
    }

    method ShiftVoltages(input: Input)
      requires Valid() && ShapedInput(input)
      modifies this`halfCycleAgo, this`cycleAgo
      ensures Valid() && View() == old(View()).(cycleAgo := old(halfCycleAgo), halfCycleAgo := Recent(input))
    {
      hide AllLegal, Linked, Follows;
      cycleAgo := halfCycleAgo;
      var v := Values(input.voltage);
      halfCycleAgo := [if input.voltageValid[0] then Some(v[0]) else None,
                       if input.voltageValid[1] then Some(v[1]) else None,
                       if input.voltageValid[2] then Some(v[2]) else None];
      assert halfCycleAgo == Recent(input);
    }

    method AcceptSequence(input: Input) returns (current: bool, discontinuity: bool)
      requires Valid()
      modifies this`external, this`haveInput, this`lastInput
      ensures Valid() && (View(), current, discontinuity) == M.AcceptSequence(old(View()), input)
    {
      hide AllLegal, Linked, ShapedState, Shaped, IdOf, StartCount, Follows;
      discontinuity := input.discontinuity;
      if !discontinuity {
        discontinuity, external := external, false;
      }
      current := true;
      if haveInput {
        var delta := Distance32(input.sequence, Add32(lastInput, 1));
        if delta < 0 {
          return false, discontinuity;
        }
        discontinuity := discontinuity || delta > 0;
      }
      haveInput, lastInput := true, input.sequence;
    }

    method Measure(input: Input, discontinuity: bool)
      requires Valid() && ShapedInput(input) && configuration.Some?
      modifies this, states
      ensures Valid() && ShapedMachine(old(View())) && View() == M.Measure(old(View()), input, discontinuity)
      ensures old(log) <= log && (ready ==> old(ready))
    {
      hide AllLegal, Linked, Follows, ShapedState, StepTypes, AbortFirst, Shaped;
      if discontinuity {
        AbortAll(input);
        ForgetVoltages();
      }
      ProcessTypes(input);
      if !trapped {
        ShiftVoltages(input);
      }
    }

    // One input. A refused record stops the engine for good, with the log it
    // had; until then the log is everything asked for. A division by zero is
    // met exactly at the inputs ProcessTraps names.
    method Process(staged: Option<Configuration>, input: Input)
      requires Valid() && ShapedInput(input) && (staged.Some? ==> Shaped(staged.value))
      modifies this, states
      ensures Valid() && ShapedMachine(old(View()))
      ensures View() == if old(ready) then M.Process(old(View()), staged, input) else old(View())
      ensures InForce(old(View()), staged, input).Some? ==> Shaped(InForce(old(View()), staged, input).value)
      ensures trapped <==>
        || old(trapped)
        || (old(ready) && Measures(old(View()), staged, input)
            && !DividesSafely(InForce(old(View()), staged, input).value, input))
      ensures old(log) <= log && (ready ==> old(ready)) && (!old(ready) ==> log == old(log))
    {
      hide AllLegal, Linked, Follows, ShapedState, M.AbortAll, Adopt, M.Measure, M.AcceptSequence, Shaped,
           DividesSafely;
      Shapes();
      if !trapped { ProcessTraps(View(), staged, input); }
      if !ready || trapped {
        return;
      }
      ApplyMatching(staged, input);
      if configuration.None? || configuration.value.generation != input.generation {
        if configuration.Some? {
          AbortAll(input);
        }
        return;
      }
      var current, discontinuity := AcceptSequence(input);
      if !current {
        return;
      }
      Measure(input, discontinuity);
    }
  }

  // What Commit needs of a step: its record is legal and its next state linked.
  ghost predicate StepFits(step: Step, key: nat, log: seq<Record>) {
    match step.emits
    case None => LinkedAt(step.next, OpenIn(log, key))
    case Some(kind) =>
      var r := Record(key, kind, step.published, (|log| + 1) % B32);
      Legal(log, r) && LinkedAt(step.next, OpenIn(log + [r], key))
  }

  lemma CommitLinked(states: seq<EventState>, log: seq<Record>, key: nat, step: Step)
    requires Linked(states, log) && key < KEYS && StepFits(step, key, log)
    ensures step.emits.None? ==> Linked(states[key := step.next], log)
    ensures step.emits.Some? ==>
      var r := Record(key, step.emits.value, step.published, (|log| + 1) % B32);
      && Linked(states[key := step.next], log + [r])
      && IdOf(StartCount(log + [r]))
         == (if step.emits == Some(Start) then NextId(IdOf(StartCount(log))) else IdOf(StartCount(log)))
      && Add32(|log| % B32, 1) == |log + [r]| % B32 == r.sequence
      && Legal(log, r)
    ensures IdOf(StartCount(log)) < B64
  {
    hide Legal, LinkedAt, OpenIn, StartCount, IdOf, NextId;
    if step.emits.Some? {
      var r := Record(key, step.emits.value, step.published, (|log| + 1) % B32);
      LinkedAppend(states, log, r, step.next);
      OpenAppend(log, r, key);
      IdNext(StartCount(log));
    }
  }

  lemma AbortIsFit(s: EventState, log: seq<Record>, key: nat, i: Input)
    requires s.active && LinkedAt(s, OpenIn(log, key))
    ensures StepFits(AbortStep(s, i), key, log)
  {
    OpenAppend(log, Record(key, Abort, Aborted(s, i), (|log| + 1) % B32), key);
    hide OpenIn, StartCount;
  }

  lemma StepIsFit(s: EventState, log: seq<Record>, key: nat, counter: u64,
    t: nat, p: Profile, c: Configuration, e: Evaluation, i: Input)
    requires ShapedState(s) && |e.values| == PHASES
    requires LinkedAt(s, OpenIn(log, key)) && counter == IdOf(StartCount(log))
    ensures StepFits(Stepped(s, NextId(counter), t, p, c, e, i), key, log)
  {
    IdNext(StartCount(log));
    SteppedLinked(s, log, key, NextId(counter), t, p, c, e, i);
    hide Legal, LinkedAt, OpenIn, StartCount, Stepped;
  }
}
