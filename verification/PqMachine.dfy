/** The power-quality event engine as a function of its inputs: which states it
    keeps and which records it asks to publish, in order. */
module PqMachine {
  import opened Words
  import opened PqEvaluation
  import opened PqLifecycles

  function Key(t: nat, slot: nat): nat { t * 3 + slot }

  ghost predicate ShapedState(s: EventState) { |s.minimum| == |s.maximum| == |s.current| == PHASES }

  // A record the engine asks its sink to take.
  datatype Sent = Sent(key: nat, kind: Kind, state: EventState)

  // The lifecycles of every type and slot, and everything asked for so far.
  // `trapped` says that a division by zero was met: nothing is defined after
  // it, so nothing happens after it.
  datatype Core = Core(counter: u64, states: seq<EventState>, rapid: seq<bool>, sent: seq<Sent>, trapped: bool)

  ghost predicate ShapedCore(m: Core) {
    |m.states| == KEYS && |m.rapid| == PHASES && forall key :: 0 <= key < KEYS ==> ShapedState(m.states[key])
  }

  function Committed(m: Core, key: nat, step: Step): Core
    requires key < |m.states|
  {
    m.(counter := if step.emits == Some(Start) then NextId(m.counter) else m.counter,
       states := m.states[key := step.next],
       sent := m.sent + if step.emits.Some? then [Sent(key, step.emits.value, step.published)] else [])
  }

  lemma EvaluateShape(t: nat, slot: nat, p: Profile, c: Configuration, i: Input, before: Option<u32>)
    requires ShapedInput(i) && slot < PHASES && |p.phases| == PHASES
    ensures var o := Evaluate(t, slot, p, c, i, before); o.Done? ==> |o.evaluation.values| == PHASES
  {
    hide Metric, Starts, Recovers;
  }

  lemma SteppedShape(s: EventState, id: u64, t: nat, p: Profile, c: Configuration, e: Evaluation, i: Input)
    requires ShapedState(s) && |e.values| == PHASES
    ensures ShapedState(Stepped(s, id, t, p, c, e, i).next)
  {
  }

  // One type and slot. A rapid change must first be seen inside its recovery
  // band; that comparison only arms the detector.
  ghost function StepOne(c: Configuration, cycleAgo: seq<Option<u32>>, m: Core, t: nat, slot: nat, i: Input): (r: Core)
    requires Shaped(c) && ShapedInput(i) && ShapedCore(m) && |cycleAgo| == PHASES && t < TYPES && slot < PHASES
    ensures ShapedCore(r)
  {
    EvaluateShape(t, slot, c.events[t], c, i, cycleAgo[slot]);
    match Evaluate(t, slot, c.events[t], c, i, cycleAgo[slot])
    case Trap => m.(trapped := true)
    case Done(e) =>
      if IsRapidChange(t) && !m.rapid[slot] then m.(rapid := m.rapid[slot := e.valid && e.recovered])
      else
        var step := Stepped(m.states[Key(t, slot)], NextId(m.counter), t, c.events[t], c, e, i);
        SteppedShape(m.states[Key(t, slot)], NextId(m.counter), t, c.events[t], c, e, i);
        Committed(m, Key(t, slot), step)
  }

  // The first `n` pairs of type and slot, in order.
  ghost function StepTypes(c: Configuration, cycleAgo: seq<Option<u32>>, m: Core, i: Input, n: nat): (r: Core)
    requires Shaped(c) && ShapedInput(i) && ShapedCore(m) && |cycleAgo| == PHASES && n <= KEYS
    ensures ShapedCore(r)
  {
    if n == 0 then m
    else
      var before := StepTypes(c, cycleAgo, m, i, n - 1);
      var t, slot := (n - 1) / 3, (n - 1) % 3;
      if !before.trapped && Evaluated(c.events[t], slot) then StepOne(c, cycleAgo, before, t, slot, i) else before
  }

  lemma StepNone(c: Configuration, cycleAgo: seq<Option<u32>>, m: Core, i: Input)
    requires Shaped(c) && ShapedInput(i) && ShapedCore(m) && |cycleAgo| == PHASES
    ensures StepTypes(c, cycleAgo, m, i, 0) == m
  {
  }

  ghost predicate UnsafeBefore(c: Configuration, i: Input, n: nat)
    requires Shaped(c) && ShapedInput(i) && n <= KEYS
  {
    exists key :: 0 <= key < n && UnsafeAt(c, i, key)
  }

  ghost predicate UnsafeAt(c: Configuration, i: Input, key: nat)
    requires Shaped(c) && ShapedInput(i) && key < KEYS
  {
    Evaluated(c.events[key / 3], key % 3) && !SafeFor(key / 3, c.events[key / 3], i)
  }

  // Stepping traps exactly when it reaches an unsafe unbalance.
  lemma {:induction false} TypesTrap(c: Configuration, cycleAgo: seq<Option<u32>>, m: Core, i: Input, n: nat)
    requires Shaped(c) && ShapedInput(i) && ShapedCore(m) && |cycleAgo| == PHASES && n <= KEYS && !m.trapped
    ensures StepTypes(c, cycleAgo, m, i, n).trapped <==> UnsafeBefore(c, i, n)
  {
    hide Evaluate, SafeFor, Stepped, ShapedState;
    if n > 0 {
      TypesTrap(c, cycleAgo, m, i, n - 1);
      var t, slot := (n - 1) / 3, (n - 1) % 3;
      if Evaluated(c.events[t], slot) { EvaluateTraps(t, slot, c.events[t], c, i, cycleAgo[slot]); }
      assert UnsafeBefore(c, i, n) <==> UnsafeBefore(c, i, n - 1) || UnsafeAt(c, i, n - 1);
    }
  }

  lemma SomewhereUnsafe(c: Configuration, i: Input)
    requires Shaped(c) && ShapedInput(i)
    ensures UnsafeBefore(c, i, KEYS) <==> !DividesSafely(c, i)
  {
    hide SafeFor, Evaluated;
    if !DividesSafely(c, i) {
      var t :| 0 <= t < TYPES && !SafeFor(t, c.events[t], i);
      var slot := UnsafeIsEvaluated(t, c.events[t], i);
      assert Key(t, slot) / 3 == t && Key(t, slot) % 3 == slot && Key(t, slot) < KEYS;
      assert UnsafeAt(c, i, Key(t, slot));
    }
  }

  function AbortStep(s: EventState, i: Input): Step {
    Step(Some(Abort), Aborted(s, i), Aborted(s, i).(active := false))
  }

  // Every lifecycle in progress among the first `n` is closed by an ABORT.
  ghost function AbortFirst(m: Core, i: Input, n: nat): (r: Core)
    requires ShapedCore(m) && n <= KEYS
    ensures ShapedCore(r)
  {
    if n == 0 then m
    else
      var before := AbortFirst(m, i, n - 1);
      if before.states[n - 1].active then Committed(before, n - 1, AbortStep(before.states[n - 1], i)) else before
  }

  lemma {:induction false} AbortClears(m: Core, i: Input, n: nat)
    requires ShapedCore(m) && n <= KEYS
    ensures var r := AbortFirst(m, i, n);
            && r.counter == m.counter && r.rapid == m.rapid && m.sent <= r.sent && r.trapped == m.trapped
            && (forall key :: 0 <= key < n ==> !r.states[key].active)
            && (forall key :: n <= key < KEYS ==> r.states[key] == m.states[key])
  {
    hide ShapedState;
    if n > 0 { AbortClears(m, i, n - 1); }
  }

  // ---- The whole engine -----------------------------------------------------------

  datatype Machine = Machine(
    configuration: Option<Configuration>, haveInput: bool, lastInput: u32, external: bool,
    halfCycleAgo: seq<Option<u32>>, cycleAgo: seq<Option<u32>>, core: Core)

  ghost predicate ShapedMachine(m: Machine) {
    && ShapedCore(m.core) && |m.halfCycleAgo| == |m.cycleAgo| == PHASES
    && (m.configuration.Some? ==> Shaped(m.configuration.value))
  }

  ghost function AbortAll(m: Machine, i: Input): (r: Machine)
    requires ShapedMachine(m)
    ensures ShapedMachine(r)
  {
    m.(core := AbortFirst(m.core, i, KEYS))
  }

  ghost function Forget(m: Machine): Machine {
    m.(halfCycleAgo := [None, None, None], cycleAgo := [None, None, None],
       core := m.core.(rapid := [false, false, false]))
  }

  // A staged configuration takes over when the input names its generation;
  // whatever is in progress under the old one is aborted first.
  ghost function Adopt(m: Machine, staged: Option<Configuration>, i: Input): (r: Machine)
    requires ShapedMachine(m) && (staged.Some? ==> Shaped(staged.value))
    ensures ShapedMachine(r)
  {
    if staged.None? || staged.value.generation != i.generation then m
    else if m.configuration.Some? && m.configuration.value.generation == staged.value.generation then m
    else
      var cleared := if m.configuration.Some? then AbortAll(m, i) else m;
      Forget(cleared.(configuration := staged))
  }

  // Stale inputs are dropped, but a noted discontinuity is taken first; it is
  // not looked at when the input itself marks one.
  function AcceptSequence(m: Machine, i: Input): (Machine, bool, bool) {
    var external := m.external && i.discontinuity;
    var marked := i.discontinuity || m.external;
    var delta := Distance32(i.sequence, Add32(m.lastInput, 1));
    if m.haveInput && delta < 0 then (m.(external := external), false, marked)
    else
      (m.(external := external, haveInput := true, lastInput := i.sequence), true,
       marked || (m.haveInput && delta > 0))
  }

  function Recent(i: Input): seq<Option<u32>>
    requires ShapedInput(i)
  {
    seq(PHASES, k requires 0 <= k < PHASES => if i.voltageValid[k] then Some(Values(i.voltage)[k]) else None)
  }

  ghost function Measure(m: Machine, i: Input, discontinuity: bool): (r: Machine)
    requires ShapedMachine(m) && ShapedInput(i) && m.configuration.Some?
    ensures ShapedMachine(r)
  {
    var t := if discontinuity then Forget(AbortAll(m, i)) else m;
    var core := StepTypes(m.configuration.value, t.cycleAgo, t.core, i, KEYS);
    if core.trapped then t.(core := core)
    else t.(core := core, cycleAgo := t.halfCycleAgo, halfCycleAgo := Recent(i))
  }

  // One input: the configuration it names, its place in the sequence, then
  // every enabled type and slot.
  ghost function Process(m: Machine, staged: Option<Configuration>, i: Input): (r: Machine)
    requires ShapedMachine(m) && ShapedInput(i) && (staged.Some? ==> Shaped(staged.value))
    ensures ShapedMachine(r)
  {
    var adopted := Adopt(m, staged, i);
    if m.core.trapped then m
    else if adopted.configuration.None? then adopted
    else if adopted.configuration.value.generation != i.generation then AbortAll(adopted, i)
    else
      var (accepted, current, discontinuity) := AcceptSequence(adopted, i);
      if current then Measure(accepted, i, discontinuity) else accepted
  }

  // Whether an input gets as far as the evaluations, and under which
  // configuration.
  predicate Measures(m: Machine, staged: Option<Configuration>, i: Input) { Named(m, staged, i) && !Stale(m, i) }

  // The input names the configuration that is in force when it arrives.
  predicate Named(m: Machine, staged: Option<Configuration>, i: Input) {
    InForce(m, staged, i).Some? && InForce(m, staged, i).value.generation == i.generation
  }

  predicate Stale(m: Machine, i: Input) { m.haveInput && Distance32(i.sequence, Add32(m.lastInput, 1)) < 0 }

  function InForce(m: Machine, staged: Option<Configuration>, i: Input): Option<Configuration> {
    if staged.None? || staged.value.generation != i.generation then m.configuration
    else if m.configuration.Some? && m.configuration.value.generation == i.generation then m.configuration
    else staged
  }

  lemma AdoptShape(m: Machine, staged: Option<Configuration>, i: Input)
    requires ShapedMachine(m) && (staged.Some? ==> Shaped(staged.value))
    ensures var t := Adopt(m, staged, i);
            && t.configuration == InForce(m, staged, i) && t.core.trapped == m.core.trapped
            && t.haveInput == m.haveInput && t.lastInput == m.lastInput && t.external == m.external
  {
    AbortClears(m.core, i, KEYS);
    hide AbortFirst, ShapedState, Shaped;
  }

  lemma MeasureTraps(m: Machine, i: Input, discontinuity: bool)
    requires ShapedMachine(m) && ShapedInput(i) && m.configuration.Some? && !m.core.trapped
    ensures Measure(m, i, discontinuity).core.trapped <==> !DividesSafely(m.configuration.value, i)
  {
    AbortClears(m.core, i, KEYS);
    var t := if discontinuity then Forget(AbortAll(m, i)) else m;
    TypesTrap(m.configuration.value, t.cycleAgo, t.core, i, KEYS);
    SomewhereUnsafe(m.configuration.value, i);
    hide StepTypes, AbortFirst, ShapedState, Shaped, DividesSafely, UnsafeBefore;
  }

  // A whole input meets no division by zero if and only if it does not get as
  // far as the evaluations or is safe for the configuration in force.
  lemma ProcessTraps(m: Machine, staged: Option<Configuration>, i: Input)
    requires ShapedMachine(m) && ShapedInput(i) && (staged.Some? ==> Shaped(staged.value)) && !m.core.trapped
    ensures InForce(m, staged, i).Some? ==> Shaped(InForce(m, staged, i).value)
    ensures Process(m, staged, i).core.trapped <==>
            Measures(m, staged, i) && !DividesSafely(InForce(m, staged, i).value, i)
  {
    AdoptShape(m, staged, i);
    var adopted := Adopt(m, staged, i);
    AbortClears(adopted.core, i, KEYS);
    var (accepted, current, discontinuity) := AcceptSequence(adopted, i);
    if Measures(m, staged, i) { MeasureTraps(accepted, i, discontinuity); }
    hide Adopt, Measure, AbortFirst, ShapedState, Shaped, DividesSafely;
  }

  // ---- Inputs that show it ----------------------------------------------------------

  function Quiet(): Profile { Profile(false, false, 500, 10, [true, true, true]) }

  // Voltage unbalance over three phases, everything else off.
  function UnbalanceOnly(): Configuration {
    Configuration(1, 230_000_000, 1_000_000,
      [Quiet(), Quiet(), Quiet(), Quiet(), Quiet().(enabled := true), Quiet(), Quiet(), Quiet(), Quiet()])
  }

  const SILENT: seq<EventState> :=
    [Blank(), Blank(), Blank(), Blank(), Blank(), Blank(), Blank(), Blank(), Blank(),
     Blank(), Blank(), Blank(), Blank(), Blank(), Blank(), Blank(), Blank(), Blank(),
     Blank(), Blank(), Blank(), Blank(), Blank(), Blank(), Blank(), Blank(), Blank()]

  function Started(): Machine {
    Machine(None, false, 0, false, [None, None, None], [None, None, None],
            Core(0, SILENT, [false, false, false], [], false))
  }

  function OneUnit(): Input {
    Input(1, 1, 32000, false, 0, [B16, 0, 0], [0, 0, 0], [true, true, true], [true, true, true])
  }

  // From the start, with a valid profile, the first input can meet it.
  lemma FirstInputCanTrap()
    ensures ValidProfile(UnbalanceOnly().events[4]) && Shaped(UnbalanceOnly()) && ShapedMachine(Started())
    ensures ShapedInput(OneUnit()) && Process(Started(), Some(UnbalanceOnly()), OneUnit()).core.trapped
  {
    var c, i := UnbalanceOnly(), OneUnit();
    assert Values(i.voltage) == [1, 0, 0];
    OneUnitDividesByZero();
    assert !SafeFor(4, c.events[4], i);
    assert forall key :: 0 <= key < KEYS ==> SILENT[key] == Blank();
    ProcessTraps(Started(), Some(c), i);
    hide Process;
  }
}
