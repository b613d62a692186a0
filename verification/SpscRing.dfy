/** The single-producer, single-consumer rings as steps: every shared load,
    store and copied word is one transition, in any interleaving. */
module SpscRing {
  import opened Words

  // The active words of a frame.
  type Frame = seq<u32>

  // A slot's word count and its whole buffer, of which `count` words are active.
  datatype Slot = Slot(count: nat, words: seq<u32>)

  // Capacity in slots and buffer size in words. The capacity divides 2^32, so
  // the 32-bit indices may wrap.
  datatype Shape = Shape(capacity: nat, width: nat)

  predicate Sensible(shape: Shape) { 0 < shape.capacity < B32 && B32 % shape.capacity == 0 }

  const FRAME_SLOTS: nat := 64
  const RECORD_SLOTS: nat := 256

  datatype Outcome = Nothing | Pushed | Full | Vacant(free: nat)

  // Where the producer is: outside any call, in available_capacity having read
  // the write index, or at some point of try_push. `assured` marks a push that
  // follows a non-zero available_capacity.
  datatype Producer =
    | Outside(last: Outcome)
    | Measuring(w: u32)
    | Entered(frame: Frame, assured: bool)
    | HaveWrite(frame: Frame, w: u32, assured: bool)
    | Copying(frame: Frame, w: u32, next: nat)

  datatype Consumer =
    | Away(got: bool)
    | HaveRead(r: u32)
    | Draining(r: u32, next: nat)

  // The indices and slots are shared, `scratch` is the consumer's own frame.
  // `pushed` and `popped` record the frames whose calls have completed.
  datatype Ring = Ring(
    shape: Shape, slots: seq<Slot>, read: u32, write: u32,
    producer: Producer, consumer: Consumer, scratch: Slot,
    pushed: seq<Frame>, popped: seq<Frame>)

  function Blank(shape: Shape): Slot { Slot(0, seq(shape.width, _ => 0)) }

  function Initial(shape: Shape): Ring {
    Ring(shape, seq(shape.capacity, _ => Blank(shape)), 0, 0,
         Outside(Nothing), Away(false), Blank(shape), [], [])
  }

  // A choice of who moves. Begin... starts a call when its task is outside one.
  datatype Action = BeginPush(frame: Frame) | BeginMeasure | Produce | BeginPop | Consume

  function Minus(x: u32, y: u32): u32 { (x - y) % B32 }

  function Free(shape: Shape, used: u32): nat { if used >= shape.capacity then 0 else shape.capacity - used }

  function ProduceStep(s: Ring): Ring
    requires WellFormed(s)
  {
    match s.producer
    case Outside(_) => s
    case Measuring(w) => s.(producer := Outside(Vacant(Free(s.shape, Minus(w, s.read)))))
    case Entered(frame, assured) => s.(producer := HaveWrite(frame, s.write, assured))
    case HaveWrite(frame, w, assured) =>
      if Minus(w, s.read) >= s.shape.capacity then s.(producer := Outside(Full))
      else s.(producer := Copying(frame, w, 0))
    case Copying(frame, w, next) =>
      var index := w % s.shape.capacity;
      if next == 0 then
        s.(slots := s.slots[index := s.slots[index].(count := |frame|)], producer := Copying(frame, w, 1))
      else if next <= |frame| then
        var words := s.slots[index].words[next - 1 := frame[next - 1]];
        s.(slots := s.slots[index := s.slots[index].(words := words)], producer := Copying(frame, w, next + 1))
      else
        s.(write := Add32(w, 1), pushed := s.pushed + [frame], producer := Outside(Pushed))
  }

  function ConsumeStep(s: Ring): Ring
    requires WellFormed(s)
  {
    match s.consumer
    case Away(_) => s
    case HaveRead(r) => if r == s.write then s.(consumer := Away(false)) else s.(consumer := Draining(r, 0))
    case Draining(r, next) =>
      var source := s.slots[r % s.shape.capacity];
      if next == 0 then
        s.(scratch := s.scratch.(count := source.count), consumer := Draining(r, 1))
      else if next <= s.scratch.count then
        s.(scratch := s.scratch.(words := s.scratch.words[next - 1 := source.words[next - 1]]),
           consumer := Draining(r, next + 1))
      else
        s.(read := Add32(r, 1), popped := s.popped + [Active(s.scratch)], consumer := Away(true))
  }

  function Active(s: Slot): Frame { if s.count <= |s.words| then s.words[..s.count] else s.words }

  function Step(s: Ring, a: Action): Ring
    requires WellFormed(s)
  {
    match a
    case BeginPush(frame) =>
      if s.producer.Outside? && |frame| <= s.shape.width then
        s.(producer := Entered(frame, s.producer.last.Vacant? && s.producer.last.free != 0))
      else s
    case BeginMeasure => if s.producer.Outside? then s.(producer := Measuring(s.write)) else s
    case Produce => ProduceStep(s)
    case BeginPop => if s.consumer.Away? then s.(consumer := HaveRead(s.read)) else s
    case Consume => ConsumeStep(s)
  }

  // ---- Every reachable state ----------------------------------------------

  ghost predicate SlotFits(s: Slot, width: nat) { |s.words| == width && s.count <= width }

  ghost predicate AllFit(slots: seq<Slot>, shape: Shape) {
    |slots| == shape.capacity && forall k :: 0 <= k < |slots| ==> SlotFits(slots[k], shape.width)
  }

  ghost predicate WellFormed(s: Ring) {
    && Sensible(s.shape)
    && AllFit(s.slots, s.shape)
    && SlotFits(s.scratch, s.shape.width)
    && (match s.producer
        case Entered(frame, _) => |frame| <= s.shape.width
        case HaveWrite(frame, _, _) => |frame| <= s.shape.width
        case Copying(frame, _, next) => |frame| <= s.shape.width && next <= |frame| + 1
        case _ => true)
    && (match s.consumer
        case Draining(_, next) => next <= s.scratch.count + 1
        case _ => true)
  }

  // The first `next` items (the count, then words) of `frame` are in the slot.
  ghost predicate Copied(s: Slot, frame: Frame, next: nat) {
    next > 0 ==>
      && next <= |frame| + 1 && next - 1 <= |s.words|
      && s.count == |frame|
      && s.words[..next - 1] == frame[..next - 1]
  }

  function Index(n: nat, capacity: nat): nat
    requires capacity > 0
  {
    n % capacity
  }

  // The slots between the indices hold the queued frames.
  ghost predicate Holds(slots: seq<Slot>, capacity: nat, pushed: seq<Frame>, from: nat)
    requires 0 < capacity == |slots|
  {
    forall k :: from <= k < |pushed| ==> Copied(slots[Index(k, capacity)], pushed[k], |pushed[k]| + 1)
  }

  ghost predicate ProducerInv(s: Ring)
    requires Sensible(s.shape) && |s.slots| == s.shape.capacity
  {
    var room := |s.pushed| < |s.popped| + s.shape.capacity;
    match s.producer
    case Outside(last) => last.Vacant? && last.free != 0 ==> room
    case Measuring(w) => w == s.write
    case Entered(_, assured) => assured ==> room
    case HaveWrite(_, w, assured) => w == s.write && (assured ==> room)
    case Copying(frame, w, next) =>
      w == s.write && room && Copied(s.slots[Index(|s.pushed|, s.shape.capacity)], frame, next)
  }

  ghost predicate ConsumerInv(s: Ring) {
    match s.consumer
    case Away(got) => got ==> s.popped != [] && Active(s.scratch) == s.popped[|s.popped| - 1]
    case HaveRead(r) => r == s.read
    case Draining(r, next) =>
      r == s.read && |s.popped| < |s.pushed| && Copied(s.scratch, s.pushed[|s.popped|], next)
  }

  ghost predicate Inv(s: Ring) {
    && WellFormed(s)
    && s.read == |s.popped| % B32
    && s.write == |s.pushed| % B32
    && |s.popped| <= |s.pushed| <= |s.popped| + s.shape.capacity
    && s.popped == s.pushed[..|s.popped|]
    && Holds(s.slots, s.shape.capacity, s.pushed, |s.popped|)
    && ProducerInv(s)
    && ConsumerInv(s)
  }

  // The bounded queue the ring stands for.
  ghost function Queue(s: Ring): seq<Frame>
    requires |s.popped| <= |s.pushed|
  {
    s.pushed[|s.popped|..]
  }

  // ---- Indices --------------------------------------------------------------

  lemma IndexSurvivesWrap(n: nat, capacity: nat)
    requires 0 < capacity && B32 % capacity == 0
    ensures (n % B32) % capacity == Index(n, capacity)
  {
    var laps, rest, q := n / B32, n % B32, B32 / capacity;
    var m := rest / capacity;
    assert B32 == q * capacity;
    assert laps * B32 == laps * (q * capacity) == (laps * q) * capacity;
    assert n == laps * B32 + rest;
    assert rest == m * capacity + rest % capacity;
    assert (laps * q) * capacity + m * capacity == (laps * q + m) * capacity;
    ModUnique(n, capacity, laps * q + m, rest % capacity);
  }

  lemma OccupiedElsewhere(k: nat, w: nat, capacity: nat)
    requires k < w < k + capacity
    ensures Index(k, capacity) != Index(w, capacity)
  {
    var a, b := k / capacity, w / capacity;
    assert k == a * capacity + k % capacity && w == b * capacity + w % capacity;
    if k % capacity == w % capacity {
      assert w - k == b * capacity - a * capacity == (b - a) * capacity;
      if b > a { MulLe(1, b - a, capacity); }
      if b < a { MulLe(b - a, -1, capacity); }
    }
  }

  lemma UsedSlots(pushed: nat, popped: nat, capacity: nat)
    requires popped <= pushed <= popped + capacity && capacity < B32
    ensures Minus(pushed % B32, popped % B32) == pushed - popped
  {
    ModUnique(pushed % B32 - popped % B32, B32, popped / B32 - pushed / B32, pushed - popped);
  }

  // ---- Preservation ------------------------------------------------------------

  lemma InitialInv(shape: Shape)
    requires Sensible(shape)
    ensures Inv(Initial(shape))
  {
  }

  // Writing the free slot disturbs no queued frame.
  lemma WriteKeeps(slots: seq<Slot>, shape: Shape, pushed: seq<Frame>, from: nat, slot: Slot)
    requires Sensible(shape) && AllFit(slots, shape) && SlotFits(slot, shape.width)
    requires from <= |pushed| < from + shape.capacity && Holds(slots, shape.capacity, pushed, from)
    ensures var after := slots[Index(|pushed|, shape.capacity) := slot];
            AllFit(after, shape) && Holds(after, shape.capacity, pushed, from)
  {
    var index := Index(|pushed|, shape.capacity);
    var after := slots[index := slot];
    forall k | from <= k < |pushed|
      ensures Copied(after[Index(k, shape.capacity)], pushed[k], |pushed[k]| + 1)
    {
      OccupiedElsewhere(k, |pushed|, shape.capacity);
    }
  }

  lemma CopiedNext(s: Slot, frame: Frame, next: nat)
    requires next <= |frame| <= |s.words| && Copied(s, frame, next)
    ensures next == 0 ==> Copied(s.(count := |frame|), frame, 1)
    ensures next > 0 ==> Copied(s.(words := s.words[next - 1 := frame[next - 1]]), frame, next + 1)
  {
    if next > 0 {
      var words := s.words[next - 1 := frame[next - 1]];
      assert words[..next] == words[..next - 1] + [words[next - 1]];
      assert frame[..next] == frame[..next - 1] + [frame[next - 1]];
    }
  }

  lemma CopyPreserves(s: Ring, frame: Frame, w: u32, next: nat)
    requires Inv(s) && s.producer == Copying(frame, w, next) && next <= |frame|
    ensures Inv(ProduceStep(s)) && ProduceStep(s).pushed == s.pushed && ProduceStep(s).popped == s.popped
  {
    var index := Index(|s.pushed|, s.shape.capacity);
    IndexSurvivesWrap(|s.pushed|, s.shape.capacity);
    CopiedNext(s.slots[index], frame, next);
    var slot :=
      if next == 0 then s.slots[index].(count := |frame|)
      else s.slots[index].(words := s.slots[index].words[next - 1 := frame[next - 1]]);
    WriteKeeps(s.slots, s.shape, s.pushed, |s.popped|, slot);
    hide Holds, AllFit, Copied, SlotFits;
  }

  lemma PublishHolds(slots: seq<Slot>, capacity: nat, pushed: seq<Frame>, from: nat, frame: Frame)
    requires 0 < capacity == |slots| && from <= |pushed| && Holds(slots, capacity, pushed, from)
    requires Copied(slots[Index(|pushed|, capacity)], frame, |frame| + 1)
    ensures Holds(slots, capacity, pushed + [frame], from)
  {
  }

  lemma PublishPreserves(s: Ring, frame: Frame, w: u32, next: nat)
    requires Inv(s) && s.producer == Copying(frame, w, next) && next > |frame|
    ensures Inv(ProduceStep(s)) && ProduceStep(s).pushed == s.pushed + [frame]
  {
    PublishHolds(s.slots, s.shape.capacity, s.pushed, |s.popped|, frame);
    ModAdd(|s.pushed|, 1, B32);
    hide Holds, AllFit, Copied;
  }

  lemma DrainPreserves(s: Ring, r: u32, next: nat)
    requires Inv(s) && s.consumer == Draining(r, next) && !(next > 0 && next > s.scratch.count)
    ensures Inv(ConsumeStep(s)) && ConsumeStep(s).pushed == s.pushed && ConsumeStep(s).popped == s.popped
  {
    var frame := s.pushed[|s.popped|];
    IndexSurvivesWrap(|s.popped|, s.shape.capacity);
    var source := s.slots[Index(|s.popped|, s.shape.capacity)];
    assert Copied(source, frame, |frame| + 1);
    CopiedNext(s.scratch, frame, next);
    if next > 0 { assert source.words[..|frame|][next - 1] == frame[next - 1]; }
    hide Holds, AllFit;
  }

  lemma ReleasePreserves(s: Ring, r: u32, next: nat)
    requires Inv(s) && s.consumer == Draining(r, next) && next > 0 && next > s.scratch.count
    ensures Inv(ConsumeStep(s)) && ConsumeStep(s).popped == s.popped + [s.pushed[|s.popped|]]
  {
    var frame := s.pushed[|s.popped|];
    assert Active(s.scratch) == frame;
    ModAdd(|s.popped|, 1, B32);
    assert s.pushed[..|s.popped| + 1] == s.pushed[..|s.popped|] + [frame];
    hide AllFit, Copied;
  }

  lemma CallsPreserve(s: Ring, a: Action)
    requires Inv(s)
    requires a.BeginPush? || a.BeginMeasure? || a.BeginPop?
    ensures Inv(Step(s, a))
  {
    hide Holds, AllFit, Copied;
  }

  lemma TestsPreserve(s: Ring)
    requires Inv(s)
    ensures !s.producer.Copying? ==> Inv(ProduceStep(s))
    ensures !s.consumer.Draining? ==> Inv(ConsumeStep(s))
  {
    UsedSlots(|s.pushed|, |s.popped|, s.shape.capacity);
    hide Holds, AllFit;
  }

  lemma StepPreserves(s: Ring, a: Action)
    requires Inv(s)
    ensures Inv(Step(s, a))
  {
    match a {
      case Produce =>
        TestsPreserve(s);
        if s.producer.Copying? {
          if s.producer.next <= |s.producer.frame| {
            CopyPreserves(s, s.producer.frame, s.producer.w, s.producer.next);
          } else {
            PublishPreserves(s, s.producer.frame, s.producer.w, s.producer.next);
          }
        }
      case Consume =>
        TestsPreserve(s);
        if s.consumer.Draining? {
          if s.consumer.next > 0 && s.consumer.next > s.scratch.count {
            ReleasePreserves(s, s.consumer.r, s.consumer.next);
          } else {
            DrainPreserves(s, s.consumer.r, s.consumer.next);
          }
        }
      case _ => CallsPreserve(s, a);
    }
  }

  // ---- Refinement of a bounded FIFO queue ------------------------------------------

  ghost predicate Publishing(s: Ring) { s.producer.Copying? && s.producer.next > |s.producer.frame| }

  ghost predicate Releasing(s: Ring) {
    s.consumer.Draining? && s.consumer.next > 0 && s.consumer.next > s.scratch.count
  }

  // Each step is a silent step of the queue, one whole-frame enqueue into a
  // free place, or one dequeue of the oldest frame, which the call returns. A
  // push is refused only when the queue is full, a pop only when it is empty.
  lemma StepRefinesQueue(s: Ring, a: Action)
    requires Inv(s)
    ensures Inv(Step(s, a))
    ensures var t := Step(s, a);
            if a.Produce? && Publishing(s) then
              |Queue(s)| < s.shape.capacity && Queue(t) == Queue(s) + [s.producer.frame] && t.popped == s.popped
            else if a.Consume? && Releasing(s) then
              && Queue(s) != [] && Queue(t) == Queue(s)[1..] && t.popped == s.popped + [Queue(s)[0]]
              && Active(t.scratch) == Queue(s)[0]
            else Queue(t) == Queue(s) && t.pushed == s.pushed && t.popped == s.popped
    ensures a.Produce? && s.producer.HaveWrite? && Step(s, a).producer == Outside(Full) ==>
      |Queue(s)| == s.shape.capacity
    ensures a.Consume? && s.consumer.HaveRead? && Step(s, a).consumer == Away(false) ==> Queue(s) == []
  {
    hide Holds, AllFit, Copied;
    StepPreserves(s, a);
    if a.Produce? && s.producer.HaveWrite? { UsedSlots(|s.pushed|, |s.popped|, s.shape.capacity); }
    if a.Consume? && s.consumer.HaveRead? { EqualIndicesMeanEmpty(|s.pushed|, |s.popped|, s.shape.capacity); }
    if a.Consume? && Releasing(s) { ReleasePreserves(s, s.consumer.r, s.consumer.next); }
  }

  lemma EqualIndicesMeanEmpty(pushed: nat, popped: nat, capacity: nat)
    requires popped <= pushed <= popped + capacity && capacity < B32
    ensures pushed % B32 == popped % B32 <==> pushed == popped
  {
    UsedSlots(pushed, popped, capacity);
  }

  // After a non-zero available_capacity the producer's next push is never refused.
  lemma AssuredPushSucceeds(s: Ring)
    requires Inv(s) && s.producer.HaveWrite? && s.producer.assured
    ensures ProduceStep(s).producer == Copying(s.producer.frame, s.producer.w, 0)
  {
    UsedSlots(|s.pushed|, |s.popped|, s.shape.capacity);
  }

  ghost function Run(shape: Shape, actions: seq<Action>): Ring
    requires Sensible(shape)
    ensures Inv(Run(shape, actions))
  {
    InitialInv(shape);
    if actions == [] then Initial(shape)
    else
      var s := Run(shape, actions[..|actions| - 1]);
      StepPreserves(s, actions[|actions| - 1]);
      Step(s, actions[|actions| - 1])
  }

  // Over every interleaving: what has been popped is, frame for frame, the
  // front of what has been pushed, and never more than the capacity is queued.
  lemma EveryInterleaving(shape: Shape, actions: seq<Action>)
    requires Sensible(shape)
    ensures var s := Run(shape, actions);
            && s.popped <= s.pushed
            && |s.pushed| - |s.popped| <= shape.capacity
  {
    ShapeStays(shape, actions);
  }

  lemma {:induction false} ShapeStays(shape: Shape, actions: seq<Action>)
    requires Sensible(shape)
    ensures Run(shape, actions).shape == shape
  {
    if actions != [] {
      ShapeStays(shape, actions[..|actions| - 1]);
    }
  }

  // The input task measures the ring before it takes a frame from the transport.
  ghost predicate Guarded(s: Ring, a: Action) {
    a.BeginPush? && s.producer.Outside? ==> s.producer.last.Vacant? && s.producer.last.free != 0
  }

  ghost predicate GuardedRun(shape: Shape, actions: seq<Action>)
    requires Sensible(shape)
  {
    actions != [] ==>
      && GuardedRun(shape, actions[..|actions| - 1])
      && Guarded(Run(shape, actions[..|actions| - 1]), actions[|actions| - 1])
  }

  ghost predicate NoOverflow(s: Ring) {
    match s.producer
    case Outside(last) => last != Full
    case Entered(_, assured) => assured
    case HaveWrite(_, _, assured) => assured
    case _ => true
  }

  lemma NoOverflowStep(s: Ring, a: Action)
    requires Inv(s) && NoOverflow(s) && Guarded(s, a)
    ensures NoOverflow(Step(s, a))
  {
    if a.Produce? && s.producer.HaveWrite? { AssuredPushSucceeds(s); }
    hide Inv;
  }

  // Hence the input task's overflow branch is unreachable.
  lemma {:induction false} InputTaskNeverOverflows(shape: Shape, actions: seq<Action>)
    requires Sensible(shape) && GuardedRun(shape, actions)
    ensures NoOverflow(Run(shape, actions))
  {
    if actions != [] {
      var init := actions[..|actions| - 1];
      InputTaskNeverOverflows(shape, init);
      NoOverflowStep(Run(shape, init), actions[|actions| - 1]);
      hide Inv, NoOverflow, Step;
    }
  }

  lemma BothRingsAreSensible(words: nat)
    ensures Sensible(Shape(FRAME_SLOTS, words)) && Sensible(Shape(RECORD_SLOTS, words))
  {
  }
}
