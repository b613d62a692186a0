/** The published power-quality lifecycles: START, UPDATEs, then END or ABORT. */
module PqLifecycles {
  import opened Words
  import opened PqEvaluation

  const KEYS: nat := 27

  // One lifecycle in progress, or the remains of the last one.
  datatype EventState = EventState(
    active: bool, mask: seq<bool>, id: u64, firstSample: u64, triggerSample: u64, lastSample: u64, lastEmit: u64,
    minimum: seq<u32>, maximum: seq<u32>, current: seq<u32>,
    profile: Profile, generation: u32, reference: u32, updates: u32, discontinuities: u32)

  function Blank(): EventState {
    EventState(false, [false, false, false], 0, 0, 0, 0, 0, [0, 0, 0], [0, 0, 0], [0, 0, 0],
               Profile(false, false, 0, 0, [false, false, false]), 0, 0, 0, 0)
  }

  datatype Kind = Start | Update | End | Abort

  // A published record carries the state it was emitted from.
  datatype Record = Record(key: nat, kind: Kind, state: EventState, sequence: u32)

  // ---- One lifecycle ---------------------------------------------------------

  function Begin(id: u64, t: nat, p: Profile, c: Configuration, e: Evaluation, i: Input): EventState {
    EventState(true, e.mask, id, i.lastSample, i.lastSample, i.lastSample, i.lastSample,
               e.values, e.values, e.values, p, c.generation,
               if IsVoltage(t) then c.referenceVoltage else c.referenceCurrent, 1, 0)
  }

  function MinEach(a: seq<u32>, b: seq<u32>): (m: seq<u32>)
    requires |a| == |b| == PHASES
    ensures |m| == PHASES
  {
    [Min(a[0], b[0]), Min(a[1], b[1]), Min(a[2], b[2])]
  }

  function MaxEach(a: seq<u32>, b: seq<u32>): (m: seq<u32>)
    requires |a| == |b| == PHASES
    ensures |m| == PHASES
  {
    [Max(a[0], b[0]), Max(a[1], b[1]), Max(a[2], b[2])]
  }

  function Aborted(s: EventState, i: Input): EventState {
    s.(lastSample := i.lastSample, discontinuities := Add32(s.discontinuities, 1))
  }

  function Observed(s: EventState, e: Evaluation, i: Input): EventState
    requires |e.values| == |s.minimum| == |s.maximum| == PHASES
  {
    s.(lastSample := i.lastSample, current := e.values, updates := Add32(s.updates, 1),
       minimum := MinEach(s.minimum, e.values), maximum := MaxEach(s.maximum, e.values))
  }

  predicate UpdateDue(s: EventState, i: Input) { (i.lastSample - s.lastEmit) % B64 >= i.sampleRate }

  // ---- The published log --------------------------------------------------------

  // The state behind the latest record of a lifecycle still open.
  ghost function OpenIn(log: seq<Record>, key: nat): Option<EventState> {
    if log == [] then None
    else
      var last := log[|log| - 1];
      if last.key != key then OpenIn(log[..|log| - 1], key)
      else if last.kind == Start || last.kind == Update then Some(last.state)
      else None
  }

  ghost function StartCount(log: seq<Record>): nat {
    if log == [] then 0
    else StartCount(log[..|log| - 1]) + if log[|log| - 1].kind == Start then 1 else 0
  }

  // The identifier of the n-th lifecycle; the 64-bit counter skips zero.
  function IdOf(n: nat): u64 { if n == 0 then 0 else (n - 1) % (B64 - 1) + 1 }

  function NextId(counter: u64): u64 { if counter == U64_MAX then 1 else counter + 1 }

  // Identity, configuration and origin never change within a lifecycle, and the
  // extremes only widen.
  ghost predicate SameLifecycle(a: EventState, b: EventState) {
    && a.id == b.id && a.profile == b.profile && a.generation == b.generation && a.reference == b.reference
    && a.mask == b.mask && a.firstSample == b.firstSample && a.triggerSample == b.triggerSample
    && Below(b.minimum, a.minimum) && Below(a.maximum, b.maximum)
  }

  ghost predicate Below(a: seq<u32>, b: seq<u32>) {
    |a| == |b| == PHASES && a[0] <= b[0] && a[1] <= b[1] && a[2] <= b[2]
  }

  ghost predicate Ordered(s: EventState) { Below(s.minimum, s.current) && Below(s.current, s.maximum) }

  // What a record owes to the records published before it.
  ghost predicate Legal(before: seq<Record>, r: Record) {
    && Ordered(r.state)
    && r.sequence == (|before| + 1) % B32
    && match r.kind
       case Start => OpenIn(before, r.key) == None && r.state.id == IdOf(StartCount(before) + 1)
       case _ => OpenIn(before, r.key).Some? && SameLifecycle(OpenIn(before, r.key).value, r.state)
  }

  ghost predicate LegalAt(log: seq<Record>, k: nat)
    requires k < |log|
  {
    Legal(log[..k], log[k])
  }

  ghost predicate AllLegal(log: seq<Record>) { forall k :: 0 <= k < |log| ==> LegalAt(log, k) }

  lemma LegalAppend(log: seq<Record>, r: Record)
    requires AllLegal(log) && Legal(log, r)
    ensures AllLegal(log + [r])
  {
    hide Legal;
    var all := log + [r];
    forall k | 0 <= k < |all| ensures LegalAt(all, k) {
      if k < |log| {
        assert LegalAt(log, k);
        assert all[..k] == log[..k];
      } else {
        assert all[..k] == log;
      }
    }
  }

  lemma OpenAppend(log: seq<Record>, r: Record, key: nat)
    ensures OpenIn(log + [r], key)
         == if r.key != key then OpenIn(log, key)
            else if r.kind == Start || r.kind == Update then Some(r.state) else None
    ensures StartCount(log + [r]) == StartCount(log) + if r.kind == Start then 1 else 0
  {
    assert (log + [r])[..|log|] == log;
  }

  lemma IdNext(n: nat)
    ensures NextId(IdOf(n)) == IdOf(n + 1)
  {
    if n > 0 {
      var q, rest := (n - 1) / (B64 - 1), (n - 1) % (B64 - 1);
      assert n - 1 == q * (B64 - 1) + rest;
      if rest == B64 - 2 {
        ModUnique(n, B64 - 1, q + 1, 0);
      } else {
        ModUnique(n, B64 - 1, q, rest + 1);
      }
    }
  }

  // Identifiers grow with every lifecycle until the counter has wrapped.
  lemma IdsIncrease(m: nat, n: nat)
    requires m < n < B64
    ensures IdOf(m) < IdOf(n)
  {
  }

  lemma {:induction false} CountGrows(log: seq<Record>, j: nat)
    requires j <= |log|
    ensures StartCount(log[..j]) <= StartCount(log)
    decreases |log|
  {
    if j < |log| {
      CountGrows(log[..|log| - 1], j);
      assert log[..|log| - 1][..j] == log[..j];
    } else {
      assert log[..j] == log;
    }
  }

  lemma StartIs(log: seq<Record>, k: nat)
    requires AllLegal(log) && k < |log| && log[k].kind == Start
    ensures log[k].state.id == IdOf(StartCount(log[..k]) + 1)
    ensures StartCount(log[..k + 1]) == StartCount(log[..k]) + 1
  {
    hide IdOf, StartCount, OpenIn, Ordered;
    assert LegalAt(log, k);
    assert log[..k + 1] == log[..k] + [log[k]];
    OpenAppend(log[..k], log[k], log[k].key);
  }

  // In every legal log that has not used up the 64-bit identifiers, each START
  // carries a strictly larger one than every START before it.
  lemma StartsIncrease(log: seq<Record>, j: nat, k: nat)
    requires AllLegal(log) && StartCount(log) < B64 && j < k < |log|
    requires log[j].kind == Start && log[k].kind == Start
    ensures log[j].state.id < log[k].state.id
  {
    hide AllLegal, IdOf, StartCount;
    StartIs(log, j);
    StartIs(log, k);
    assert log[..k][..j + 1] == log[..j + 1];
    CountGrows(log[..k], j + 1);
    CountGrows(log, k + 1);
    IdsIncrease(StartCount(log[..j]) + 1, StartCount(log[..k]) + 1);
  }

  // ---- The language of one lifecycle ------------------------------------------------

  ghost function Projection(log: seq<Record>, key: nat): seq<Kind> {
    if log == [] then []
    else
      var before, last := Projection(log[..|log| - 1], key), log[|log| - 1];
      if last.key == key then before + [last.kind] else before
  }

  ghost predicate Opened(kinds: seq<Kind>) {
    kinds != [] && (kinds[|kinds| - 1] == Start || kinds[|kinds| - 1] == Update)
  }

  // Prefixes of (START UPDATE* (END | ABORT))*.
  ghost predicate Lifecycles(kinds: seq<Kind>) {
    kinds != [] ==>
      var before := kinds[..|kinds| - 1];
      Lifecycles(before) && (kinds[|kinds| - 1] == Start <==> !Opened(before))
  }

  lemma {:induction false} LegalLogIsLifecycles(log: seq<Record>, key: nat)
    requires AllLegal(log)
    ensures Lifecycles(Projection(log, key))
    ensures Opened(Projection(log, key)) <==> OpenIn(log, key).Some?
  {
    if log != [] {
      var n := |log| - 1;
      InitLegal(log);
      LegalLogIsLifecycles(log[..n], key);
      assert LegalAt(log, n);
      var before := Projection(log[..n], key);
      assert (before + [log[n].kind])[..|before|] == before;
    }
  }

  // ---- One step of one lifecycle --------------------------------------------------

  // The state to publish and keep, if the step publishes, and the state after.
  datatype Step = Step(emits: Option<Kind>, published: EventState, next: EventState)

  function Stepped(s: EventState, id: u64, t: nat, p: Profile, c: Configuration, e: Evaluation, i: Input): Step
    requires |e.values| == |s.minimum| == |s.maximum| == PHASES
  {
    if !s.active then
      if e.valid && e.start then
        var begun := Begin(id, t, p, c, e, i);
        Step(Some(Start), begun, begun)
      else Step(None, s, s)
    else if !e.valid then
      var aborted := Aborted(s, i);
      Step(Some(Abort), aborted, aborted.(active := false))
    else
      var observed := Observed(s, e, i);
      if e.recovered then Step(Some(End), observed, observed.(active := false))
      else if UpdateDue(s, i) then
        var updated := observed.(lastEmit := i.lastSample);
        Step(Some(Update), updated, updated)
      else Step(None, observed, observed)
  }

  // ---- States against the log -----------------------------------------------------

  ghost predicate LinkedAt(s: EventState, open: Option<EventState>) {
    match open
    case None => !s.active
    case Some(before) => s.active && Ordered(s) && SameLifecycle(before, s)
  }

  ghost predicate Linked(states: seq<EventState>, log: seq<Record>) {
    |states| == KEYS && forall key :: 0 <= key < KEYS ==> LinkedAt(states[key], OpenIn(log, key))
  }

  // The step keeps the state linked to the log, published or not.
  lemma SteppedLinked(s: EventState, log: seq<Record>, key: nat, id: u64,
    t: nat, p: Profile, c: Configuration, e: Evaluation, i: Input)
    requires |e.values| == |s.minimum| == |s.maximum| == PHASES
    requires LinkedAt(s, OpenIn(log, key)) && id == IdOf(StartCount(log) + 1)
    ensures var step := Stepped(s, id, t, p, c, e, i);
            match step.emits
            case None => LinkedAt(step.next, OpenIn(log, key))
            case Some(kind) =>
              var r := Record(key, kind, step.published, (|log| + 1) % B32);
              Legal(log, r) && LinkedAt(step.next, OpenIn(log + [r], key))
  {
    var step := Stepped(s, id, t, p, c, e, i);
    if s.active { ObservedKeeps(OpenIn(log, key).value, s, e, i); }
    if step.emits.Some? {
      OpenAppend(log, Record(key, step.emits.value, step.published, (|log| + 1) % B32), key);
      if Ordered(step.published) { ItselfSame(step.published); }
    }
    hide OpenIn, StartCount, MinEach, MaxEach;
  }

  // Publishing from one state leaves the others linked.
  lemma LinkedAppend(states: seq<EventState>, log: seq<Record>, r: Record, next: EventState)
    requires Linked(states, log) && r.key < KEYS
    requires LinkedAt(next, OpenIn(log + [r], r.key))
    ensures Linked(states[r.key := next], log + [r])
  {
    hide LinkedAt;
    forall key | 0 <= key < KEYS ensures LinkedAt(states[r.key := next][key], OpenIn(log + [r], key)) {
      OpenAppend(log, r, key);
    }
  }

  lemma ObservedKeeps(before: EventState, s: EventState, e: Evaluation, i: Input)
    requires Ordered(s) && SameLifecycle(before, s) && |e.values| == PHASES
    ensures Ordered(Observed(s, e, i)) && SameLifecycle(before, Observed(s, e, i))
  {
  }

  ghost predicate StartsLifecycle(r: Record, key: nat, s: EventState) {
    r.key == key && r.kind == Start && SameLifecycle(r.state, s)
  }

  // A lifecycle still open at the end of a legal log carries the identifier and
  // the profile of a START of its key.
  lemma {:induction false} OpenSharesStart(log: seq<Record>, key: nat)
    requires AllLegal(log) && OpenIn(log, key).Some?
    ensures exists k :: 0 <= k < |log| && StartsLifecycle(log[k], key, OpenIn(log, key).value)
  {
    var n := |log| - 1;
    var init, last := log[..n], log[n];
    assert LegalAt(log, n);
    if last.key == key && last.kind == Start {
      ItselfSame(last.state);
      assert StartsLifecycle(log[n], key, OpenIn(log, key).value);
    } else {
      InitLegal(log);
      OpenSharesStart(init, key);
      var k :| 0 <= k < |init| && StartsLifecycle(init[k], key, OpenIn(init, key).value);
      assert StartsLifecycle(log[k], key, OpenIn(log, key).value);
    }
  }

  lemma ItselfSame(s: EventState)
    requires Ordered(s)
    ensures SameLifecycle(s, s)
  {
  }

  lemma InitLegal(log: seq<Record>)
    requires AllLegal(log) && log != []
    ensures AllLegal(log[..|log| - 1])
  {
    hide Legal;
    var init := log[..|log| - 1];
    forall k | 0 <= k < |init| ensures LegalAt(init, k) {
      assert LegalAt(log, k);
      assert init[..k] == log[..k];
    }
  }
}
