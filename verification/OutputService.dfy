/** Delivery of records to the transport: start-up, the record ring, the
    notification count and the retry loop, in any interleaving and under any
    transport results. */
module OutputService {
  import opened Words
  import R = SpscRing

  datatype WriteResult = Written | WouldBlock | HardwareError

  // The producer is outside try_enqueue, in try_push, about to load the output
  // task's handle, or about to notify the task it found.
  datatype Sender = Away | InPush | Loading | Giving

  // The output task waits to be started, is about to pop, inside try_pop, in the
  // notification take, or holds a record the transport has not accepted yet.
  datatype Writer = Starting | Looping | InPop | Taking | Holding

  // The input task stores the handle and then gives the starting notification.
  datatype Starter = Storing | Releasing | Started

  datatype Service = Service(
    ring: R.Ring, sender: Sender, writer: Writer, starter: Starter, handle: bool, notified: nat,
    written: seq<R.Frame>)

  function Initial(words: nat): Service {
    Service(R.Initial(R.Shape(R.RECORD_SLOTS, words)), Away, Starting, Storing, false, 0, [])
  }

  datatype Action = Enqueue(record: R.Frame) | Send | Receive(result: WriteResult) | Start

  function SendStep(s: Service): Service
    requires R.WellFormed(s.ring)
  {
    match s.sender
    case Away => s
    case InPush =>
      var ring := R.ProduceStep(s.ring);
      if !ring.producer.Outside? then s.(ring := ring)
      else if ring.producer.last == R.Pushed then s.(ring := ring, sender := Loading)
      else s.(ring := ring, sender := Away)
    case Loading => s.(sender := if s.handle then Giving else Away)
    case Giving => s.(notified := s.notified + 1, sender := Away)
  }

  function StartStep(s: Service): Service {
    match s.starter
    case Storing => s.(handle := true, starter := Releasing)
    case Releasing => s.(notified := s.notified + 1, starter := Started)
    case Started => s
  }

  // A take with a zero count blocks: the step leaves everything as it is. A
  // record the transport refuses stays with the output task, which tries it again.
  function ReceiveStep(s: Service, result: WriteResult): Service
    requires R.WellFormed(s.ring)
  {
    match s.writer
    case Starting => if s.notified == 0 then s else s.(notified := 0, writer := Looping)
    case Looping => s.(ring := R.Step(s.ring, R.BeginPop), writer := InPop)
    case InPop =>
      var ring := R.ConsumeStep(s.ring);
      if !ring.consumer.Away? then s.(ring := ring)
      else if ring.consumer.got then s.(ring := ring, writer := Holding)
      else s.(ring := ring, writer := Taking)
    case Taking => if s.notified == 0 then s else s.(notified := 0, writer := Looping)
    case Holding =>
      if result == Written then s.(written := s.written + [R.Active(s.ring.scratch)], writer := Looping) else s
  }

  function Step(s: Service, a: Action): Service
    requires R.WellFormed(s.ring)
  {
    match a
    case Enqueue(record) =>
      if s.sender == Away && |record| <= s.ring.shape.width then
        s.(ring := R.Step(s.ring, R.BeginPush(record)), sender := InPush)
      else s
    case Send => SendStep(s)
    case Receive(result) => ReceiveStep(s, result)
    case Start => StartStep(s)
  }

  // ---- Every reachable state -------------------------------------------------

  ghost predicate InStep(s: Service) {
    && (s.sender == InPush <==> !s.ring.producer.Outside?)
    && (s.sender == Loading || s.sender == Giving ==> s.ring.producer == R.Outside(R.Pushed))
    && (s.writer == InPop <==> !s.ring.consumer.Away?)
    && !s.ring.producer.Measuring?
  }

  // Everything popped has been written, except the record in hand.
  ghost predicate Delivered(s: Service) {
    s.ring.popped == if s.writer == Holding then s.written + [R.Active(s.ring.scratch)] else s.written
  }

  // Nothing notifies the output task, and so nothing starts it, before its
  // handle is stored.
  ghost predicate Released(s: Service) {
    && (s.handle <==> s.starter != Storing)
    && (s.writer != Starting || s.notified > 0 || s.sender == Giving ==> s.handle)
  }

  // No lost wake-up: the output task is not asleep on a non-empty ring unless a
  // notification is pending or about to be given.
  ghost predicate Wakes(s: Service)
    requires |s.ring.popped| <= |s.ring.pushed|
  {
    s.writer == Taking && s.notified == 0 && R.Queue(s.ring) != [] ==> s.sender == Loading || s.sender == Giving
  }

  ghost predicate Inv(s: Service) {
    R.Inv(s.ring) && InStep(s) && Delivered(s) && Released(s) && Wakes(s)
  }

  lemma InitialInv(words: nat)
    ensures Inv(Initial(words))
  {
    R.BothRingsAreSensible(words);
    R.InitialInv(R.Shape(R.RECORD_SLOTS, words));
  }

  lemma EnqueuePreserves(s: Service, record: R.Frame)
    requires Inv(s)
    ensures Inv(Step(s, Enqueue(record)))
  {
    R.StepRefinesQueue(s.ring, R.BeginPush(record));
    hide R.Inv, R.Queue;
  }

  // One step inside try_push: nothing is popped, and a frame is queued only by
  // the step that returns with success.
  lemma SendRing(s: R.Ring)
    requires R.Inv(s) && !s.producer.Outside? && !s.producer.Measuring?
    ensures var t := R.ProduceStep(s);
            && R.Inv(t) && t.popped == s.popped && t.consumer == s.consumer && t.scratch == s.scratch
            && !t.producer.Measuring?
            && (t.producer != R.Outside(R.Pushed) ==> R.Queue(t) == R.Queue(s))
  {
    R.StepRefinesQueue(s, R.Produce);
    hide R.Inv, R.Queue;
  }

  lemma SendPreserves(s: Service)
    requires Inv(s)
    ensures Inv(SendStep(s))
  {
    hide R.Inv, R.Queue, R.ProduceStep;
    if s.sender == InPush { SendRing(s.ring); }
  }

  lemma ReceivePreserves(s: Service, result: WriteResult)
    requires Inv(s)
    ensures Inv(ReceiveStep(s, result))
  {
    R.StepRefinesQueue(s.ring, if s.writer == InPop then R.Consume else R.BeginPop);
    hide R.Inv, R.Queue;
  }

  lemma StartPreserves(s: Service)
    requires Inv(s)
    ensures Inv(StartStep(s))
  {
    hide R.Inv, R.Queue;
  }

  ghost function Run(words: nat, actions: seq<Action>): Service
    ensures Inv(Run(words, actions))
  {
    InitialInv(words);
    if actions == [] then Initial(words)
    else
      var s := Run(words, actions[..|actions| - 1]);
      StepPreserves(s, actions[|actions| - 1]);
      Step(s, actions[|actions| - 1])
  }

  lemma StepPreserves(s: Service, a: Action)
    requires Inv(s)
    ensures Inv(Step(s, a))
  {
    match a {
      case Enqueue(record) => EnqueuePreserves(s, record);
      case Send => SendPreserves(s);
      case Receive(result) => ReceivePreserves(s, result);
      case Start => StartPreserves(s);
    }
  }

  // Over every interleaving and every pattern of transport results: the records
  // written are a prefix, in order and without repeats, of the records
  // enqueued, missing at most the queued ones and the one in hand.
  lemma WrittenIsPrefix(words: nat, actions: seq<Action>)
    ensures var s := Run(words, actions);
            && s.written <= s.ring.pushed
            && |s.ring.pushed| - |s.written| <= R.RECORD_SLOTS + 1
            && (s.writer != Holding && R.Queue(s.ring) == [] ==> s.written == s.ring.pushed)
  {
    RingShapeStays(words, actions);
    var s := Run(words, actions);
    assert s.ring.popped == s.ring.pushed[..|s.ring.popped|];
    assert s.written <= s.ring.popped;
  }

  lemma StepKeepsShape(s: Service, a: Action)
    requires R.WellFormed(s.ring)
    ensures Step(s, a).ring.shape == s.ring.shape
  {
    hide R.WellFormed;
  }

  lemma {:induction false} RingShapeStays(words: nat, actions: seq<Action>)
    ensures Run(words, actions).ring.shape == R.Shape(R.RECORD_SLOTS, words)
  {
    if actions != [] {
      RingShapeStays(words, actions[..|actions| - 1]);
      StepKeepsShape(Run(words, actions[..|actions| - 1]), actions[|actions| - 1]);
      hide Inv, Step, R.Inv, R.WellFormed;
    }
  }

  // The output task never sleeps on queued records for good: a notification is
  // pending, or the producer is on its way to one, whose handle it will find. A
  // record enqueued before the handle was stored is there for the first pop.
  lemma NoLostWakeup(words: nat, actions: seq<Action>)
    ensures var s := Run(words, actions);
            s.writer == Taking && R.Queue(s.ring) != [] ==>
              s.notified > 0 || (s.handle && (s.sender == Loading || s.sender == Giving))
  {
  }

  // Nor does it wait for its start once the handle has been stored and released.
  lemma {:induction false} StartIsNotLost(words: nat, actions: seq<Action>)
    ensures var s := Run(words, actions); s.writer == Starting && s.starter == Started ==> s.notified > 0
  {
    if actions != [] {
      StartIsNotLost(words, actions[..|actions| - 1]);
      StepPends(Run(words, actions[..|actions| - 1]), actions[|actions| - 1]);
      hide Inv, Step, R.Inv, R.WellFormed;
    }
  }

  lemma StepPends(s: Service, a: Action)
    requires R.WellFormed(s.ring) && (s.writer == Starting && s.starter == Started ==> s.notified > 0)
    ensures var t := Step(s, a); t.writer == Starting && t.starter == Started ==> t.notified > 0
  {
    hide R.WellFormed;
  }

  // A record the transport refuses stays in hand, unchanged, through any step.
  lemma HeldRecordIsRetried(s: Service, a: Action)
    requires Inv(s) && s.writer == Holding && a != Receive(Written)
    ensures Step(s, a).writer == Holding && R.Active(Step(s, a).ring.scratch) == R.Active(s.ring.scratch)
    ensures Step(s, a).written == s.written
  {
  }
}
