/**
 The agent message bus: a bounded channel, a map of in-flight messages and a sequence counter.

 Every operation is split at its await points, so that a run of `Next` steps is an arbitrary
 interleaving of any number of concurrent publishers, consumers, ackers and retriers:
 publish and retry leave a message in `sending` until the channel has room, and consume
 takes a message out of the channel before it enters it into the in-flight map.
 */
module MessageBus {
  import opened Codec
  import opened Sequences

  const CHANNEL_CAPACITY := 256
  const SEQUENCE_RANGE: nat := 0x1_0000_0000_0000_0000

  /**
   A message id is the printed value of a 64-bit counter. Messages are keyed here by the
   counter value itself; `PrintedIdsDiffer` shows that the two stand for each other.
   */
  type Id = nat

  datatype Topic = TaskDispatch | TaskResult | TaskError

  datatype Message = Message(
    id: Id, topic: Topic, session: string, content: string, retryCount: nat, maxRetries: nat)

  /** The bus together with the history that the properties speak about. */
  datatype State = State(
    sending: seq<Message>,            // publish and retry calls waiting for room in the channel
    queue: seq<Message>,              // the channel
    receiving: seq<Message>,          // taken from the channel, not yet entered as in flight
    inFlight: map<Id, Message>,
    nextSeq: nat,                     // the 64-bit counter, which wraps around
    issued: nat,                      // history: number of ids issued
    published: map<Id, nat>,       // history: each issued id with its retry limit
    delivered: multiset<Id>,      // history: one entry per message handed to a consumer
    acked: set<Id>,               // history: ids acknowledged at least once
    dropped: set<Id>)             // history: ids dropped at their retry limit

  datatype Step =
    | Publish(topic: Topic, session: string, content: string, maxRetries: nat)
    | Send(slot: nat)
    | Receive
    | Deliver(slot: nat)
    | Ack(id: Id)
    | Retry(id: Id)

  // ---------------------------------------------------------------- message ids

  const ID_WIDTH: nat := 16

  /** The lowest `width` hexadecimal digits of n, most significant first. */
  function HexPadded(n: nat, width: nat): (r: string)
    ensures |r| == width
  {
    if width == 0 then "" else HexPadded(n / 16, width - 1) + [HexDigit(n % 16)]
  }

  function PrintId(id: Id): string {
    "msg-" + HexPadded(id, ID_WIDTH)
  }

  function Pow(b: nat, e: nat): nat {
    if e == 0 then 1 else b * Pow(b, e - 1)
  }

  lemma HexDigitsDiffer(i: nat, j: nat)
    requires i < 16 && j < 16 && HexDigit(i) == HexDigit(j)
    ensures i == j
  {
  }

  lemma {:induction false} HexPaddedInjective(a: nat, b: nat, width: nat)
    requires a < Pow(16, width) && b < Pow(16, width)
    requires HexPadded(a, width) == HexPadded(b, width)
    ensures a == b
  {
    if width > 0 {
      assert HexPadded(a / 16, width - 1) == HexPadded(a, width)[..width - 1];
      assert HexPadded(b / 16, width - 1) == HexPadded(b, width)[..width - 1];
      HexPaddedInjective(a / 16, b / 16, width - 1);
      assert Last(HexPadded(a, width)) == Last(HexPadded(b, width));
      HexDigitsDiffer(a % 16, b % 16);
    }
  }

  /** The number that hexadecimal digits stand for. */
  function HexNumber(s: string): Option<nat> {
    if s == "" then Some(0)
    else
      match (HexNumber(s[..|s| - 1]), HexValue(Last(s)))
      case (Some(high), Some(d)) => if d >= 0 then Some(16 * high + d) else None
      case _ => None
  }

  lemma {:induction false} HexPaddedIsRead(n: nat, width: nat)
    requires n < Pow(16, width)
    ensures HexNumber(HexPadded(n, width)) == Some(n)
    ensures forall i :: 0 <= i < width ==> IsHexChar(HexPadded(n, width)[i])
  {
    if width > 0 {
      HexPaddedIsRead(n / 16, width - 1);
      assert HexPadded(n, width)[..width - 1] == HexPadded(n / 16, width - 1);
    }
  }

  /** A message id is "msg-" and sixteen small hexadecimal digits that are read as the counter value. */
  lemma PrintedIdIsRead(id: Id)
    requires id < SEQUENCE_RANGE
    ensures PrintId(id)[..4] == "msg-" && |PrintId(id)| == 20 && HexNumber(PrintId(id)[4..]) == Some(id)
    ensures forall i :: 4 <= i < 20 ==> IsHexChar(PrintId(id)[i])
  {
    Pow16();
    HexPaddedIsRead(id, ID_WIDTH);
    assert PrintId(id)[4..] == HexPadded(id, ID_WIDTH);
    forall i | 4 <= i < 20 ensures IsHexChar(PrintId(id)[i]) {
      assert PrintId(id)[i] == HexPadded(id, ID_WIDTH)[i - 4];
    }
  }

  lemma Pow16()
    ensures Pow(16, 16) == SEQUENCE_RANGE
  {
    assert Pow(16, 4) == 0x1_0000;
    assert Pow(16, 8) == 0x1_0000 * 0x1_0000;
    assert Pow(16, 12) == 0x1_0000 * 0x1_0000 * 0x1_0000;
  }

  /** Different counter values are printed differently. */
  lemma PrintedIdsDiffer(a: Id, b: Id)
    requires a < SEQUENCE_RANGE && b < SEQUENCE_RANGE
    ensures PrintId(a) == PrintId(b) <==> a == b
  {
    Pow16();
    if PrintId(a) == PrintId(b) {
      assert PrintId(a)[4..] == PrintId(b)[4..];
      HexPaddedInjective(a, b, ID_WIDTH);
    }
  }

  // ---------------------------------------------------------------- steps

  const INIT := State([], [], [], map[], 1, 0, map[], multiset{}, {}, {})

  function DoPublish(s: State, topic: Topic, session: string, content: string, maxRetries: nat): State {
    var id := s.nextSeq;
    s.(sending := s.sending + [Message(id, topic, session, content, 0, maxRetries)],
       nextSeq := if s.nextSeq + 1 == SEQUENCE_RANGE then 0 else s.nextSeq + 1,
       issued := s.issued + 1,
       published := s.published[id := maxRetries])
  }

  function DoSend(s: State, slot: nat): State {
    if slot < |s.sending| && |s.queue| < CHANNEL_CAPACITY then
      s.(sending := RemoveAt(s.sending, slot), queue := s.queue + [s.sending[slot]])
    else s
  }

  function DoReceive(s: State): State {
    if s.queue != [] then
      s.(queue := RemoveAt(s.queue, 0), receiving := s.receiving + [s.queue[0]])
    else s
  }

  function DoDeliver(s: State, slot: nat): State {
    if slot < |s.receiving| then
      var m := s.receiving[slot];
      s.(receiving := RemoveAt(s.receiving, slot),
         inFlight := s.inFlight[m.id := m],
         delivered := s.delivered + multiset{m.id})
    else s
  }

  function DoAck(s: State, id: Id): State {
    if id in s.inFlight then s.(inFlight := s.inFlight - {id}, acked := s.acked + {id}) else s
  }

  function DoRetry(s: State, id: Id): State {
    if id !in s.inFlight then s
    else if s.inFlight[id].retryCount >= s.inFlight[id].maxRetries then
      s.(inFlight := s.inFlight - {id}, dropped := s.dropped + {id})
    else
      var m := s.inFlight[id].(retryCount := s.inFlight[id].retryCount + 1);
      s.(inFlight := s.inFlight[id := m], sending := s.sending + [m])
  }

  /** Steps that are not enabled (a full or an empty channel, an unknown slot) change nothing. */
  function Next(s: State, step: Step): State {
    match step
    case Publish(topic, session, content, maxRetries) => DoPublish(s, topic, session, content, maxRetries)
    case Send(slot) => DoSend(s, slot)
    case Receive => DoReceive(s)
    case Deliver(slot) => DoDeliver(s, slot)
    case Ack(id) => DoAck(s, id)
    case Retry(id) => DoRetry(s, id)
  }

  function Run(s: State, steps: seq<Step>): State {
    if steps == [] then s else Next(Run(s, steps[..|steps| - 1]), Last(steps))
  }

  lemma {:induction false} RunConcat(s: State, a: seq<Step>, b: seq<Step>)
    ensures Run(s, a + b) == Run(Run(s, a), b)
  {
    if b == [] {
      assert a + b == a;
    } else {
      assert (a + b)[..|a + b| - 1] == a + b[..|b| - 1];
      RunConcat(s, a, b[..|b| - 1]);
    }
  }

  // ---------------------------------------------------------------- invariant

  ghost predicate Genuine(published: map<Id, nat>, m: Message) {
    m.id in published && published[m.id] == m.maxRetries && m.retryCount <= m.maxRetries
  }

  ghost predicate AllGenuine(published: map<Id, nat>, ms: seq<Message>) {
    forall i :: 0 <= i < |ms| ==> Genuine(published, ms[i])
  }

  /** No more ids have been issued than the counter can tell apart. */
  predicate NotWrapped(s: State) {
    s.issued <= SEQUENCE_RANGE
  }

  /** The counter starts at one, so that zero is the last id it issues before it repeats itself. */
  function Turn(id: Id): nat {
    if id == 0 then SEQUENCE_RANGE else id
  }

  /** The counter value once n ids have been issued. */
  function CounterAfter(n: nat): nat {
    if n + 1 < SEQUENCE_RANGE then n + 1 else n + 1 - SEQUENCE_RANGE
  }

  /** Every message anywhere carries an issued id, its own limit, and a count within it. */
  ghost predicate Valid(s: State) {
    && NotWrapped(s) && s.nextSeq == CounterAfter(s.issued)
    && AllGenuine(s.published, s.sending)
    && AllGenuine(s.published, s.queue)
    && AllGenuine(s.published, s.receiving)
    && (forall id :: id in s.inFlight ==> s.inFlight[id].id == id && Genuine(s.published, s.inFlight[id]))
    && (forall id :: id in s.published ==> Turn(id) <= s.issued)
    && (forall id :: id in s.delivered ==> id in s.published)
  }

  lemma PublishValid(s: State, step: Step)
    requires Valid(s) && step.Publish? && NotWrapped(Next(s, step))
    ensures Valid(Next(s, step)) && s.nextSeq !in s.published
  {
    var t := Next(s, step);
    assert forall m :: Genuine(s.published, m) ==> Genuine(t.published, m);
    assert AllGenuine(t.published, s.sending);
  }

  lemma MoveKeepsGenuine(published: map<Id, nat>, ms: seq<Message>, i: nat, m: Message)
    requires AllGenuine(published, ms)
    ensures i < |ms| ==> AllGenuine(published, RemoveAt(ms, i))
    ensures Genuine(published, m) ==> AllGenuine(published, ms + [m])
  {
  }

  lemma SendValid(s: State, slot: nat)
    requires Valid(s)
    ensures Valid(DoSend(s, slot))
  {
    if slot < |s.sending| {
      MoveKeepsGenuine(s.published, s.sending, slot, s.sending[slot]);
      MoveKeepsGenuine(s.published, s.queue, 0, s.sending[slot]);
    }
  }

  lemma ReceiveValid(s: State)
    requires Valid(s)
    ensures Valid(DoReceive(s))
  {
    if s.queue != [] {
      MoveKeepsGenuine(s.published, s.queue, 0, s.queue[0]);
      MoveKeepsGenuine(s.published, s.receiving, 0, s.queue[0]);
    }
  }

  lemma DeliverValid(s: State, slot: nat)
    requires Valid(s)
    ensures Valid(DoDeliver(s, slot))
  {
    if slot < |s.receiving| {
      MoveKeepsGenuine(s.published, s.receiving, slot, s.receiving[slot]);
    }
  }

  lemma RetryValid(s: State, id: Id)
    requires Valid(s)
    ensures Valid(DoRetry(s, id))
  {
    if id in DoRetry(s, id).inFlight {
      MoveKeepsGenuine(s.published, s.sending, 0, DoRetry(s, id).inFlight[id]);
    }
  }

  lemma NextValid(s: State, step: Step)
    requires Valid(s) && NotWrapped(Next(s, step))
    ensures Valid(Next(s, step))
  {
    match step
    case Publish(_, _, _, _) => PublishValid(s, step);
    case Send(slot) => SendValid(s, slot);
    case Receive => ReceiveValid(s);
    case Deliver(slot) => DeliverValid(s, slot);
    case Ack(_) =>
    case Retry(id) => RetryValid(s, id);
  }

  lemma NextKeepsIssued(s: State, step: Step, id: Id)
    requires Valid(s) && NotWrapped(Next(s, step)) && id in s.published
    ensures id in Next(s, step).published && Next(s, step).published[id] == s.published[id]
  {
  }

  lemma CounterGrows(s: State, step: Step)
    ensures s.issued <= Next(s, step).issued
  {
  }

  lemma {:induction false} RunValid(s: State, steps: seq<Step>)
    requires Valid(s) && NotWrapped(Run(s, steps))
    ensures Valid(Run(s, steps))
  {
    if steps != [] {
      var t := Run(s, steps[..|steps| - 1]);
      CounterGrows(t, Last(steps));
      RunValid(s, steps[..|steps| - 1]);
      NextValid(t, Last(steps));
    }
  }

  lemma {:induction false} RunKeepsLimits(s: State, steps: seq<Step>, id: Id)
    requires Valid(s) && NotWrapped(Run(s, steps)) && id in s.published
    ensures id in Run(s, steps).published && Run(s, steps).published[id] == s.published[id]
  {
    if steps != [] {
      RunValid(s, steps[..|steps| - 1]);
      RunKeepsLimits(s, steps[..|steps| - 1], id);
      NextKeepsIssued(Run(s, steps[..|steps| - 1]), Last(steps), id);
    }
  }

  // ---------------------------------------------------------------- the potential

  function Pow2(n: nat): (r: nat)
    ensures r > 0
  {
    if n == 0 then 1 else 2 * Pow2(n - 1)
  }

  /** What one undelivered copy can still lead to. */
  function CopyWeight(m: Message, id: Id): nat {
    if m.id == id && m.retryCount <= m.maxRetries then Pow2(m.maxRetries - m.retryCount) else 0
  }

  function Weight(ms: seq<Message>, id: Id): nat {
    if ms == [] then 0 else Weight(ms[..|ms| - 1], id) + CopyWeight(Last(ms), id)
  }

  function FlightWeight(s: State, id: Id): nat {
    if id in s.inFlight && s.inFlight[id].retryCount <= s.inFlight[id].maxRetries
    then Pow2(s.inFlight[id].maxRetries - s.inFlight[id].retryCount) - 1 else 0
  }

  function Potential(s: State, id: Id): nat {
    Weight(s.sending, id) + Weight(s.queue, id) + Weight(s.receiving, id) + FlightWeight(s, id)
  }

  lemma WeightSnoc(ms: seq<Message>, m: Message, id: Id)
    ensures Weight(ms + [m], id) == Weight(ms, id) + CopyWeight(m, id)
  {
    assert (ms + [m])[..|ms|] == ms;
  }

  lemma {:induction false} WeightRemove(ms: seq<Message>, i: nat, id: Id)
    requires i < |ms|
    ensures Weight(ms, id) == Weight(RemoveAt(ms, i), id) + CopyWeight(ms[i], id)
  {
    if i == |ms| - 1 {
      assert RemoveAt(ms, i) == ms[..i];
    } else {
      var front := ms[..|ms| - 1];
      WeightRemove(front, i, id);
      assert RemoveAt(ms, i) == RemoveAt(front, i) + [Last(ms)];
      WeightSnoc(RemoveAt(front, i), Last(ms), id);
    }
  }

  lemma {:induction false} WeightPositive(ms: seq<Message>, id: Id, published: map<Id, nat>)
    requires AllGenuine(published, ms)
    ensures Weight(ms, id) > 0 <==> exists i :: 0 <= i < |ms| && ms[i].id == id
  {
    if ms != [] {
      WeightPositive(ms[..|ms| - 1], id, published);
      var front := ms[..|ms| - 1];
      assert Genuine(published, Last(ms));
      if Weight(front, id) > 0 {
        var i :| 0 <= i < |front| && front[i].id == id;
        assert ms[i].id == id;
      } else if Last(ms).id != id {
        forall i | 0 <= i < |ms| ensures ms[i].id != id {
          assert i < |front| ==> front[i].id != id;
        }
      }
    }
  }

  /** What a step does to the deliveries and the potential of an id that is already out. */
  datatype Effect = Kept | Spent | Lost

  function StepEffect(s: State, step: Step, id: Id): Effect {
    match step
    case Publish(_, _, _, _) => Kept
    case Send(_) => Kept
    case Receive => Kept
    case Deliver(slot) =>
      if slot >= |s.receiving| || s.receiving[slot].id != id then Kept
      else if FlightWeight(s, id) == 0 then Spent else Lost
    case Ack(other) => if other == id then Lost else Kept
    case Retry(_) => Kept
  }

  ghost predicate HasEffect(s: State, t: State, id: Id, effect: Effect) {
    match effect
    case Kept => t.delivered[id] == s.delivered[id] && Potential(t, id) == Potential(s, id)
    case Spent => t.delivered[id] == s.delivered[id] + 1 && Potential(t, id) == Potential(s, id) - 1
    case Lost => t.delivered[id] + Potential(t, id) <= s.delivered[id] + Potential(s, id)
  }

  lemma SendEffect(s: State, slot: nat, id: Id)
    ensures HasEffect(s, DoSend(s, slot), id, Kept)
  {
    if slot < |s.sending| && |s.queue| < CHANNEL_CAPACITY {
      WeightRemove(s.sending, slot, id);
      WeightSnoc(s.queue, s.sending[slot], id);
    }
  }

  lemma ReceiveEffect(s: State, id: Id)
    ensures HasEffect(s, DoReceive(s), id, Kept)
  {
    if s.queue != [] {
      WeightRemove(s.queue, 0, id);
      WeightSnoc(s.receiving, s.queue[0], id);
    }
  }

  lemma DeliverEffect(s: State, slot: nat, id: Id)
    requires AllGenuine(s.published, s.receiving)
    ensures HasEffect(s, DoDeliver(s, slot), id, StepEffect(s, Deliver(slot), id))
  {
    if slot < |s.receiving| {
      WeightRemove(s.receiving, slot, id);
      assert Genuine(s.published, s.receiving[slot]);
    }
  }

  /** A retry halves what the in-flight entry stands for and gives the other half to the copy. */
  lemma RetryEffect(s: State, other: Id, id: Id)
    requires forall k :: k in s.inFlight ==> s.inFlight[k].id == k && Genuine(s.published, s.inFlight[k])
    ensures HasEffect(s, DoRetry(s, other), id, Kept)
  {
    if other in s.inFlight && s.inFlight[other].retryCount < s.inFlight[other].maxRetries {
      WeightSnoc(s.sending, DoRetry(s, other).inFlight[other], id);
    }
  }

  lemma StepHasEffect(s: State, step: Step, id: Id)
    requires Valid(s) && NotWrapped(Next(s, step)) && id in s.published
    ensures HasEffect(s, Next(s, step), id, StepEffect(s, step, id))
  {
    match step
    case Publish(topic, session, content, maxRetries) =>
      WeightSnoc(s.sending, Last(Next(s, step).sending), id);
    case Send(slot) => SendEffect(s, slot, id);
    case Receive => ReceiveEffect(s, id);
    case Deliver(slot) => DeliverEffect(s, slot, id);
    case Ack(_) =>
    case Retry(other) => RetryEffect(s, other, id);
  }

  // ---------------------------------------------------------------- delivery bound

  /** From any valid state on, an id that is out is delivered at most `Potential` more times. */
  lemma {:induction false} RunSpendsPotential(s: State, steps: seq<Step>, id: Id)
    requires Valid(s) && NotWrapped(Run(s, steps)) && id in s.published
    ensures var t := Run(s, steps);
            id in t.published && t.delivered[id] + Potential(t, id) <= s.delivered[id] + Potential(s, id)
  {
    if steps != [] {
      var before := steps[..|steps| - 1];
      CounterGrows(Run(s, before), Last(steps));
      RunValid(s, before);
      RunSpendsPotential(s, before, id);
      StepSpends(Run(s, before), Last(steps), id);
    }
  }

  lemma StepSpends(s: State, step: Step, id: Id)
    requires Valid(s) && NotWrapped(Next(s, step)) && id in s.published
    ensures var t := Next(s, step);
            id in t.published && t.delivered[id] + Potential(t, id) <= s.delivered[id] + Potential(s, id)
  {
    StepHasEffect(s, step, id);
    NextKeepsIssued(s, step, id);
  }

  ghost predicate Bounded(s: State) {
    forall id :: id in s.published ==> s.delivered[id] + Potential(s, id) <= Pow2(s.published[id])
  }

  lemma UnissuedHasNoWeight(s: State, id: Id)
    requires Valid(s) && id !in s.published
    ensures Potential(s, id) == 0 && s.delivered[id] == 0
  {
    WeightPositive(s.sending, id, s.published);
    WeightPositive(s.queue, id, s.published);
    WeightPositive(s.receiving, id, s.published);
  }

  lemma PublishBounded(s: State, step: Step)
    requires Valid(s) && step.Publish? && NotWrapped(Next(s, step))
    ensures var t, id := Next(s, step), s.nextSeq;
            t.delivered[id] == 0 && Potential(t, id) == Pow2(t.published[id])
  {
    UnissuedHasNoWeight(s, s.nextSeq);
    var m := Message(s.nextSeq, step.topic, step.session, step.content, 0, step.maxRetries);
    WeightSnoc(s.sending, m, s.nextSeq);
    assert Next(s, step).sending == s.sending + [m];
  }

  lemma NextBounded(s: State, step: Step)
    requires Valid(s) && Bounded(s) && NotWrapped(Next(s, step))
    ensures Bounded(Next(s, step))
  {
    forall id | id in Next(s, step).published
      ensures Next(s, step).delivered[id] + Potential(Next(s, step), id) <= Pow2(Next(s, step).published[id])
    {
      if id in s.published {
        StepHasEffect(s, step, id);
        NextKeepsIssued(s, step, id);
      } else {
        PublishBounded(s, step);
      }
    }
  }

  lemma {:induction false} RunBounded(steps: seq<Step>)
    requires NotWrapped(Run(INIT, steps))
    ensures Valid(Run(INIT, steps)) && Bounded(Run(INIT, steps))
  {
    RunValid(INIT, steps);
    if steps != [] {
      CounterGrows(Run(INIT, steps[..|steps| - 1]), Last(steps));
      RunBounded(steps[..|steps| - 1]);
      NextBounded(Run(INIT, steps[..|steps| - 1]), Last(steps));
    }
  }

  /** In every interleaving, a message with retry limit m is delivered at most 2^m times. */
  lemma DeliveryBound(steps: seq<Step>, id: Id)
    requires var t := Run(INIT, steps); NotWrapped(t) && id in t.published
    ensures var t := Run(INIT, steps); t.delivered[id] <= Pow2(t.published[id])
  {
    RunBounded(steps);
  }

  // ---------------------------------------------------------------- the bus object

  /** The bus as an object; each method is one section of an operation between two awaits. */
  class Bus {
    var sending: seq<Message>
    var queue: seq<Message>
    var receiving: seq<Message>
    var inFlight: map<Id, Message>
    var nextSeq: nat
    ghost var history: State

    /** The fields, with the history kept beside them. */
    ghost function Abstract(): State
      reads this
    {
      history.(sending := sending, queue := queue, receiving := receiving, inFlight := inFlight, nextSeq := nextSeq)
    }

    constructor ()
      ensures Abstract() == INIT
    {
      sending, queue, receiving, inFlight, nextSeq := [], [], [], map[], 1;
      history := INIT;
    }

    /** Issues the id and starts sending; the call returns once `CompleteSend` has run. */
    method PublishAgentMessage(topic: Topic, session: string, content: string, maxRetries: nat) returns (id: Id)
      modifies this
      ensures Abstract() == Next(old(Abstract()), Publish(topic, session, content, maxRetries))
      ensures id == old(nextSeq)
      ensures sending == old(sending) + [Message(id, topic, session, content, 0, maxRetries)]
    {
      history := Next(Abstract(), Publish(topic, session, content, maxRetries));
      id := nextSeq;
      nextSeq := if nextSeq + 1 == SEQUENCE_RANGE then 0 else nextSeq + 1;
      sending := sending + [Message(id, topic, session, content, 0, maxRetries)];
    }

    method CompleteSend(slot: nat) returns (sent: bool)
      modifies this
      ensures Abstract() == Next(old(Abstract()), Send(slot))
      ensures sent == (slot < |old(sending)| && |old(queue)| < CHANNEL_CAPACITY)
      ensures queue == if sent then old(queue) + [old(sending)[slot]] else old(queue)
    {
      history := Next(Abstract(), Send(slot));
      sent := slot < |sending| && |queue| < CHANNEL_CAPACITY;
      if sent {
        queue := queue + [sending[slot]];
        sending := sending[..slot] + sending[slot + 1..];
      }
    }

    /** The first section of consume: takes the oldest message out of the channel. */
    method TakeFromChannel() returns (taken: bool)
      modifies this
      ensures Abstract() == Next(old(Abstract()), Receive)
      ensures taken == (old(queue) != [])
      ensures taken ==> old(queue) == [Last(receiving)] + queue && receiving[..|receiving| - 1] == old(receiving)
    {
      history := Next(Abstract(), Receive);
      taken := queue != [];
      if taken {
        receiving := receiving + [queue[0]];
        queue := queue[1..];
      }
    }

    /** The second section of consume: enters the message as in flight and returns it. */
    method ConsumeAgentMessage(slot: nat) returns (message: Option<Message>)
      modifies this
      ensures Abstract() == Next(old(Abstract()), Deliver(slot))
      ensures message == if slot < |old(receiving)| then Some(old(receiving)[slot]) else None
      ensures message.Some? ==> inFlight == old(inFlight)[message.value.id := message.value]
    {
      history := Next(Abstract(), Deliver(slot));
      if slot >= |receiving| {
        return None;
      }
      message := Some(receiving[slot]);
      receiving := receiving[..slot] + receiving[slot + 1..];
      inFlight := inFlight[message.value.id := message.value];
    }

    method AckAgentMessage(id: Id) returns (known: bool)
      modifies this
      ensures Abstract() == Next(old(Abstract()), Ack(id))
      ensures known == (id in old(inFlight)) && inFlight == old(inFlight) - {id}
    {
      history := Next(Abstract(), Ack(id));
      known := id in inFlight;
      inFlight := inFlight - {id};
    }

    method RetryAgentMessage(id: Id) returns (again: bool)
      modifies this
      ensures Abstract() == Next(old(Abstract()), Retry(id))
      ensures again == (id in old(inFlight) && old(inFlight)[id].retryCount < old(inFlight)[id].maxRetries)
      ensures !again ==> inFlight == old(inFlight) - {id} && sending == old(sending)
      ensures again ==>
        && inFlight == old(inFlight)[id := old(inFlight)[id].(retryCount := old(inFlight)[id].retryCount + 1)]
        && sending == old(sending) + [inFlight[id]]
    {
      history := Next(Abstract(), Retry(id));
      if id !in inFlight {
        return false;
      }
      var message := inFlight[id];
      if message.retryCount >= message.maxRetries {
        inFlight := inFlight - {id};
        return false;
      }
      message := message.(retryCount := message.retryCount + 1);
      inFlight := inFlight[id := message];
      sending := sending + [message];
      again := true;
    }
  }
}
