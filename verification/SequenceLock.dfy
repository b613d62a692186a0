/** The sequence locks that hand a configuration from one writer task to one
    reader task, as single shared loads and stores in any interleaving. */
module SequenceLock {
  import opened Words

  // A protocol's number of words, the order in which the reader loads them,
  // whether revision zero means "nothing staged", and how often a torn load is
  // tried again.
  datatype Protocol = Protocol(words: nat, order: seq<nat>, rejectZero: bool, attempts: nat)

  predicate Sensible(p: Protocol) {
    && (forall k :: 0 <= k < |p.order| ==> p.order[k] < p.words)
    && (forall i :: 0 <= i < p.words ==> i in p.order)
  }

  // load_staged: every word in order, at most three attempts.
  function Staged(words: nat): Protocol { Protocol(words, seq(words, i => i), true, 3) }

  // apply_demand_configuration: the generation, then the packed profile, once.
  const DEMAND := Protocol(2, [1, 0], false, 1)

  datatype Writer = Idle | Storing(value: seq<u32>, next: nat)

  // `before` is the 32-bit revision the attempt saw; `at` is the same revision
  // counted without wrapping.
  datatype Reader =
    | Outside
    | Starting(attempt: nat)
    | Loading(attempt: nat, before: u32, at: nat, next: nat)
    | Succeeded(at: nat)
    | Failed

  // `completed` lists the initial value and then every finished configuration.
  datatype Lock = Lock(
    protocol: Protocol, words: seq<u32>, revision: nat, writer: Writer,
    reader: Reader, buffer: seq<u32>, completed: seq<seq<u32>>)

  // The revision register holds the count modulo 2^32.
  function Register(s: Lock): u32 { s.revision % B32 }

  datatype Action = Configure(value: seq<u32>) | Write | Load | Read

  function WriteStep(s: Lock): Lock
    requires s.writer.Storing? ==> |s.writer.value| == s.protocol.words == |s.words|
  {
    match s.writer
    case Idle => s
    case Storing(value, next) =>
      if next < s.protocol.words then
        s.(words := s.words[next := value[next]], writer := Storing(value, next + 1))
      else
        s.(revision := s.revision + 1, completed := s.completed + [value], writer := Idle)
  }

  function ReadStep(s: Lock): Lock
    requires Sensible(s.protocol) && |s.words| == |s.buffer| == s.protocol.words
  {
    match s.reader
    case Starting(attempt) =>
      if attempt == s.protocol.attempts then s.(reader := Failed)
      else if (s.protocol.rejectZero && Register(s) == 0) || Register(s) % 2 != 0 then s.(reader := Failed)
      else s.(reader := Loading(attempt, Register(s), s.revision, 0))
    case Loading(attempt, before, at, next) =>
      if next < |s.protocol.order| then
        var i := s.protocol.order[next];
        s.(buffer := s.buffer[i := s.words[i]], reader := Loading(attempt, before, at, next + 1))
      else if Register(s) == before then s.(reader := Succeeded(at))
      else s.(reader := Starting(attempt + 1))
    case _ => s
  }

  function Step(s: Lock, a: Action): Lock
    requires WellFormed(s)
  {
    match a
    case Configure(value) =>
      if s.writer.Idle? && |value| == s.protocol.words then
        s.(revision := s.revision + 1, writer := Storing(value, 0))
      else s
    case Write => WriteStep(s)
    case Load => if s.reader.Starting? || s.reader.Loading? then s else s.(reader := Starting(0))
    case Read => ReadStep(s)
  }

  // ---- Every reachable state ---------------------------------------------------

  ghost predicate WellFormed(s: Lock) {
    && Sensible(s.protocol)
    && |s.words| == |s.buffer| == s.protocol.words
    && (s.writer.Storing? ==> |s.writer.value| == s.protocol.words)
  }

  ghost predicate WriterInv(s: Lock)
    requires WellFormed(s)
  {
    && |s.completed| == s.revision / 2 + 1
    && (forall k :: 0 <= k < |s.completed| ==> |s.completed[k]| == s.protocol.words)
    && match s.writer
       case Idle => s.revision % 2 == 0 && s.words == s.completed[s.revision / 2]
       case Storing(value, next) =>
         && s.revision % 2 == 1 && next <= s.protocol.words
         && forall i :: 0 <= i < s.protocol.words ==>
              s.words[i] == if i < next then value[i] else s.completed[s.revision / 2][i]
  }

  // While the revision stands still, what was loaded is the staged value.
  ghost predicate Loaded(s: Lock, at: nat, next: nat)
    requires WellFormed(s) && WriterInv(s) && at <= s.revision && next <= |s.protocol.order|
  {
    s.revision == at ==>
      forall k :: 0 <= k < next ==> s.buffer[s.protocol.order[k]] == s.completed[at / 2][s.protocol.order[k]]
  }

  ghost predicate ReaderInv(s: Lock)
    requires WellFormed(s) && WriterInv(s)
  {
    match s.reader
    case Loading(_, before, at, next) =>
      && before == at % B32 && at % 2 == 0 && at <= s.revision && next <= |s.protocol.order|
      && (s.protocol.rejectZero ==> at >= 2)
      && Loaded(s, at, next)
    case _ => true
  }

  ghost predicate Inv(s: Lock) { WellFormed(s) && WriterInv(s) && ReaderInv(s) }

  lemma EvenThroughWrap(n: nat)
    ensures (n % B32) % 2 == n % 2
  {
    assert n == n / B32 * B32 + n % B32;
    assert B32 == 2 * 0x8000_0000;
    ModUnique(n, 2, n / B32 * 0x8000_0000 + (n % B32) / 2, (n % B32) % 2);
  }

  lemma StandingStill(at: nat, now: nat)
    requires at <= now < at + B32
    ensures at % B32 == now % B32 ==> at == now
  {
    if at % B32 == now % B32 {
      assert now - at == (now / B32 - at / B32) * B32;
    }
  }

  lemma ConfigurePreserves(s: Lock, value: seq<u32>)
    requires Inv(s)
    ensures Inv(Step(s, Configure(value)))
  {
    if s.writer.Idle? { assert (s.revision + 1) / 2 == s.revision / 2; }
  }

  lemma WritePreserves(s: Lock)
    requires Inv(s)
    ensures Inv(WriteStep(s))
  {
    if s.writer.Storing? && s.writer.next == s.protocol.words {
      assert (s.revision + 1) / 2 == s.revision / 2 + 1;
      assert s.words == s.writer.value;
    }
  }

  lemma ReadPreserves(s: Lock)
    requires Inv(s)
    ensures Inv(ReadStep(s))
  {
    if s.reader.Starting? { EvenThroughWrap(s.revision); }
    if s.reader.Loading? && s.revision == s.reader.at { assert s.writer.Idle?; }
  }

  lemma StepPreserves(s: Lock, a: Action)
    requires Inv(s)
    ensures Inv(Step(s, a))
  {
    match a {
      case Configure(value) => ConfigurePreserves(s, value);
      case Write => WritePreserves(s);
      case Load =>
      case Read => ReadPreserves(s);
    }
  }

  // A load that succeeds, while the revision moved by less than 2^32, returns
  // all words of one single completed configuration, the latest one; with a
  // zero revision refused it is never the initial value.
  lemma SuccessIsUntorn(s: Lock)
    requires Inv(s) && s.reader.Loading?
    requires s.revision < s.reader.at + B32
    ensures var t := ReadStep(s);
            t.reader.Succeeded? ==>
              && s.writer.Idle? && |s.completed| > 0
              && t.buffer == s.completed[|s.completed| - 1]
              && t.reader.at == s.revision
              && (s.protocol.rejectZero ==> |s.completed| >= 2)
  {
    var (before, at) := (s.reader.before, s.reader.at);
    StandingStill(at, s.revision);
    if ReadStep(s).reader.Succeeded? {
      forall i | 0 <= i < s.protocol.words ensures s.buffer[i] == s.completed[at / 2][i] {
        assert i in s.protocol.order;
        var k :| 0 <= k < |s.protocol.order| && s.protocol.order[k] == i;
      }
      assert s.buffer == s.completed[at / 2];
    }
  }

  // The bound is needed: after exactly 2^32 further revisions the attempt is
  // accepted whatever its words are.
  lemma WrapIsUnnoticed(s: Lock)
    requires Inv(s) && s.reader.Loading? && s.reader.next == |s.protocol.order|
    requires s.revision == s.reader.at + B32
    ensures ReadStep(s).reader == Succeeded(s.reader.at)
  {
    assert (s.reader.at + B32) % B32 == s.reader.at % B32;
  }

  // ---- Whole runs -----------------------------------------------------------------

  function Initial(p: Protocol, value: seq<u32>): Lock
    requires |value| == p.words
  {
    Lock(p, value, 0, Idle, Outside, value, [value])
  }

  ghost function Run(p: Protocol, value: seq<u32>, actions: seq<Action>): Lock
    requires Sensible(p) && |value| == p.words
    ensures Inv(Run(p, value, actions))
  {
    if actions == [] then Initial(p, value)
    else
      var s := Run(p, value, actions[..|actions| - 1]);
      StepPreserves(s, actions[|actions| - 1]);
      Step(s, actions[|actions| - 1])
  }

  // In every run, whatever the interleaving, the moment a load succeeds its
  // words are those of the configuration completed last.
  lemma EveryLoad(p: Protocol, value: seq<u32>, actions: seq<Action>)
    requires Sensible(p) && |value| == p.words && actions != []
    requires var before := Run(p, value, actions[..|actions| - 1]);
             before.reader.Loading? && before.revision < before.reader.at + B32
    requires Run(p, value, actions).reader.Succeeded?
    ensures var s := Run(p, value, actions);
            s.buffer == s.completed[|s.completed| - 1] && |s.completed| >= if p.rejectZero then 2 else 1
  {
    var before := Run(p, value, actions[..|actions| - 1]);
    ProtocolStays(p, value, actions[..|actions| - 1]);
    OnlyReadsSucceed(before, actions[|actions| - 1]);
    SuccessIsUntorn(before);
    hide Inv, Step;
  }

  lemma OnlyReadsSucceed(s: Lock, a: Action)
    requires WellFormed(s) && s.reader.Loading? && Step(s, a).reader.Succeeded?
    ensures Step(s, a) == ReadStep(s)
    ensures ReadStep(s).completed == s.completed
  {
  }

  lemma {:induction false} ProtocolStays(p: Protocol, value: seq<u32>, actions: seq<Action>)
    requires Sensible(p) && |value| == p.words
    ensures Run(p, value, actions).protocol == p
  {
    if actions != [] {
      ProtocolStays(p, value, actions[..|actions| - 1]);
    }
  }

  lemma ProtocolsAreSensible(words: nat)
    ensures Sensible(Staged(words)) && Sensible(DEMAND)
  {
    var order := Staged(words).order;
    forall i | 0 <= i < words ensures i in order {
      assert order[i] == i;
    }
    assert DEMAND.order[0] == 1 && DEMAND.order[1] == 0;
  }

  // ---- A load accepted too late ---------------------------------------------------

  // The reader has loaded the generation; then n configurations are written.
  function Rounds(n: nat): seq<Action> {
    if n == 0 then [Load, Read, Read]
    else Rounds(n - 1) + [Configure([7, 7])] + [Write] + [Write] + [Write]
  }

  function After(n: nat): Lock {
    Lock(DEMAND, if n == 0 then [0, 0] else [7, 7], 2 * n, Idle, Loading(0, 0, 0, 1), [0, 0],
         [[0, 0]] + seq(n, _ => [7, 7]))
  }

  lemma RunNext(p: Protocol, value: seq<u32>, actions: seq<Action>, a: Action)
    requires Sensible(p) && |value| == p.words
    ensures Inv(Run(p, value, actions))
    ensures Run(p, value, actions + [a]) == Step(Run(p, value, actions), a)
  {
    assert (actions + [a])[..|actions|] == actions;
    hide Inv, Step;
  }

  lemma Opening()
    requires Sensible(DEMAND)
    ensures Run(DEMAND, [0, 0], Rounds(0)) == After(0)
  {
    RunNext(DEMAND, [0, 0], [], Load);
    RunNext(DEMAND, [0, 0], [Load], Read);
    RunNext(DEMAND, [0, 0], [Load, Read], Read);
    assert [] + [Load] == [Load] && [Load] + [Read] == [Load, Read];
    assert [Load, Read] + [Read] == [Load, Read, Read];
    hide Run;
  }

  lemma OneRound(s: Lock, n: nat)
    requires s == After(n) && Inv(s)
    ensures var a := Step(s, Configure([7, 7]));
            && WellFormed(a) && WellFormed(WriteStep(a)) && WellFormed(WriteStep(WriteStep(a)))
            && WriteStep(WriteStep(WriteStep(a))) == After(n + 1)
  {
    assert seq(n, _ => [7, 7]) + [[7, 7]] == seq(n + 1, _ => [7, 7]);
  }

  lemma {:induction false} AfterRounds(n: nat)
    requires Sensible(DEMAND)
    ensures Run(DEMAND, [0, 0], Rounds(n)) == After(n)
  {
    if n == 0 {
      Opening();
    } else {
      AfterRounds(n - 1);
      var r := Rounds(n - 1);
      var c := r + [Configure([7, 7])];
      RunNext(DEMAND, [0, 0], r, Configure([7, 7]));
      RunNext(DEMAND, [0, 0], c, Write);
      RunNext(DEMAND, [0, 0], c + [Write], Write);
      RunNext(DEMAND, [0, 0], c + [Write] + [Write], Write);
      OneRound(After(n - 1), n - 1);
      hide Run, Inv, After, WellFormed, WriteStep;
    }
  }

  // The state behind `WrapIsUnnoticed` is reached: after 2^31 configurations
  // between its two words, the demand load accepts one word of the first and
  // one of the last, which no completed configuration ever held.
  lemma TornAfterWrap()
    ensures Sensible(DEMAND)
    ensures var s := Run(DEMAND, [0, 0], Rounds(0x8000_0000) + [Read] + [Read]);
            s.reader.Succeeded? && s.buffer == [7, 0] && s.buffer !in s.completed
  {
    ProtocolsAreSensible(2);
    var n := 0x8000_0000;
    AfterRounds(n);
    RunNext(DEMAND, [0, 0], Rounds(n), Read);
    RunNext(DEMAND, [0, 0], Rounds(n) + [Read], Read);
    LastWord(n);
    hide Run, Rounds, Inv;
  }

  lemma LastWord(n: nat)
    requires n == 0x8000_0000 && Sensible(DEMAND)
    ensures var s := Step(After(n), Read);
            && WellFormed(s) && Step(s, Read).reader.Succeeded?
            && Step(s, Read).buffer == [7, 0] && [7, 0] !in Step(s, Read).completed
  {
    assert (2 * n) % B32 == 0;
  }
}
