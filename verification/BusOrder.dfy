/**
 What the bus hands over, and in which order: messages leave the channel in the order in which they
 entered it, and every one of them carries what its publisher gave it.
 */
module BusOrder {
  import opened MessageBus
  import opened Sequences

  // ---------------------------------------------------------------- first in, first out

  /** What a step puts into the channel. */
  function Enters(t: State, step: Step): seq<Message> {
    if step.Send? && step.slot < |t.sending| && |t.queue| < CHANNEL_CAPACITY then [t.sending[step.slot]] else []
  }

  /** What a step takes out of the channel: the newest message under way to a consumer, if there is one more. */
  function Takes(t: State, after: State): seq<Message> {
    if |after.receiving| > |t.receiving| then [Last(after.receiving)] else []
  }

  /** The messages that steps put into the channel, in order. */
  function Entered(s: State, steps: seq<Step>): seq<Message> {
    if steps == [] then []
    else Entered(s, steps[..|steps| - 1]) + Enters(Run(s, steps[..|steps| - 1]), Last(steps))
  }

  /** The messages that steps took out of the channel, in order. */
  function Taken(s: State, steps: seq<Step>): seq<Message> {
    if steps == [] then []
    else Taken(s, steps[..|steps| - 1]) + Takes(Run(s, steps[..|steps| - 1]), Run(s, steps))
  }

  lemma EnterAtTheEnd<T>(a: seq<T>, b: seq<T>, c: seq<T>, d: seq<T>, more: seq<T>)
    requires a + b == c + d
    ensures a + (b + more) == c + (d + more)
  {
    assert a + (b + more) == (a + b) + more;
  }

  lemma TakeFromTheFront<T>(c: seq<T>, d: seq<T>, first: seq<T>, rest: seq<T>)
    requires d == first + rest
    ensures c + d == (c + first) + rest
  {
  }

  /** In one step: what was in the channel, and what enters it, is what is taken out, and what stays. */
  lemma StepOnChannel(t: State, step: Step)
    ensures t.queue + Enters(t, step) == Takes(t, Next(t, step)) + Next(t, step).queue
  {
    assert t.queue + [] == t.queue && [] + t.queue == t.queue;
  }

  /** Everything that was in the channel or entered it has been taken out, in that order, or is still there. */
  lemma {:induction false} FirstInFirstOut(s: State, steps: seq<Step>)
    ensures s.queue + Entered(s, steps) == Taken(s, steps) + Run(s, steps).queue
  {
    if steps == [] {
      assert s.queue + [] == s.queue && [] + s.queue == s.queue;
    } else {
      var before, step := steps[..|steps| - 1], Last(steps);
      var t := Run(s, before);
      FirstInFirstOut(s, before);
      StepOnChannel(t, step);
      EnterAtTheEnd(s.queue, Entered(s, before), Taken(s, before), t.queue, Enters(t, step));
      TakeFromTheFront(
        Taken(s, before), t.queue + Enters(t, step), Takes(t, Run(s, steps)), Run(s, steps).queue);
    }
  }

  /** From the empty bus on: the n-th message taken out of the channel is the n-th that entered it. */
  lemma TakenInOrder(steps: seq<Step>)
    ensures Entered(INIT, steps) == Taken(INIT, steps) + Run(INIT, steps).queue
    ensures forall n :: 0 <= n < |Taken(INIT, steps)| ==>
              n < |Entered(INIT, steps)| && Taken(INIT, steps)[n] == Entered(INIT, steps)[n]
  {
    FirstInFirstOut(INIT, steps);
    assert INIT.queue + Entered(INIT, steps) == Entered(INIT, steps);
  }

  /** The channel never holds more than 256 messages. */
  lemma {:induction false} ChannelIsBounded(steps: seq<Step>)
    ensures |Run(INIT, steps).queue| <= 256
  {
    if steps != [] {
      ChannelIsBounded(steps[..|steps| - 1]);
    }
  }

  // ---------------------------------------------------------------- one consumer at a time

  /** What a step returns to a consumer. */
  function Returns(t: State, step: Step): seq<Message> {
    if step.Deliver? && step.slot < |t.receiving| then [t.receiving[step.slot]] else []
  }

  /** The messages that consume returned, in order. */
  function Returned(s: State, steps: seq<Step>): seq<Message> {
    if steps == [] then []
    else Returned(s, steps[..|steps| - 1]) + Returns(Run(s, steps[..|steps| - 1]), Last(steps))
  }

  /** At no time more than one consumer has taken a message that it has not yet returned. */
  ghost predicate OneConsumer(s: State, steps: seq<Step>) {
    forall n :: 0 <= n <= |steps| ==> |Run(s, steps[..n]).receiving| <= 1
  }

  lemma StepOnConsumer(t: State, step: Step)
    requires |t.receiving| <= 1 && |Next(t, step).receiving| <= 1
    ensures t.receiving + Takes(t, Next(t, step)) == Returns(t, step) + Next(t, step).receiving
  {
    assert t.receiving + [] == t.receiving && [] + t.receiving == t.receiving;
    assert [] + Next(t, step).receiving == Next(t, step).receiving;
  }

  lemma {:induction false} OneConsumerReturnsInOrder(s: State, steps: seq<Step>)
    requires OneConsumer(s, steps)
    ensures s.receiving + Taken(s, steps) == Returned(s, steps) + Run(s, steps).receiving
  {
    if steps == [] {
      assert s.receiving + [] == s.receiving && [] + s.receiving == s.receiving;
    } else {
      var before, step := steps[..|steps| - 1], Last(steps);
      var t, after := Run(s, before), Run(s, steps);
      assert OneConsumer(s, before) by {
        assert forall n :: 0 <= n <= |before| ==> before[..n] == steps[..n];
      }
      assert before[..|before|] == before && steps[..|steps|] == steps;
      OneConsumerReturnsInOrder(s, before);
      StepOnConsumer(t, step);
      EnterAtTheEnd(s.receiving, Taken(s, before), Returned(s, before), t.receiving, Takes(t, after));
      TakeFromTheFront(
        Returned(s, before), t.receiving + Takes(t, after), Returns(t, step), after.receiving);
    }
  }

  /** Consumers that come one after the other get the messages in the order in which they entered the channel. */
  lemma ReturnedInOrder(steps: seq<Step>)
    requires OneConsumer(INIT, steps)
    ensures forall n :: 0 <= n < |Returned(INIT, steps)| ==>
              n < |Entered(INIT, steps)| && Returned(INIT, steps)[n] == Entered(INIT, steps)[n]
  {
    OneConsumerReturnsInOrder(INIT, steps);
    TakenInOrder(steps);
    var returned, taken := Returned(INIT, steps), Taken(INIT, steps);
    assert INIT.receiving + taken == taken;
    forall n | 0 <= n < |returned| ensures n < |taken| && returned[n] == taken[n] {
      assert (returned + Run(INIT, steps).receiving)[n] == returned[n];
    }
  }

  // ---------------------------------------------------------------- nothing is forged

  /** The message, retries aside, is what the n-th step published. */
  predicate IssuedAt(steps: seq<Step>, m: Message, n: nat) {
    && n < |steps| && steps[n] == Publish(m.topic, m.session, m.content, m.maxRetries)
    && m.id == Run(INIT, steps[..n]).nextSeq
  }

  ghost predicate Issued(steps: seq<Step>, m: Message) {
    exists n: nat :: IssuedAt(steps, m, n)
  }

  ghost predicate AllIssued(steps: seq<Step>, ms: seq<Message>) {
    forall i :: 0 <= i < |ms| ==> Issued(steps, ms[i])
  }

  ghost predicate NothingForged(steps: seq<Step>, t: State) {
    && AllIssued(steps, t.sending) && AllIssued(steps, t.queue) && AllIssued(steps, t.receiving)
    && AllInFlightIssued(steps, t.inFlight)
  }

  ghost predicate AllInFlightIssued(steps: seq<Step>, inFlight: map<Id, Message>) {
    forall id :: id in inFlight ==> Issued(steps, inFlight[id])
  }

  lemma IssuedStays(before: seq<Step>, step: Step, m: Message)
    requires Issued(before, m)
    ensures Issued(before + [step], m)
  {
    var n: nat :| IssuedAt(before, m, n);
    assert (before + [step])[..n] == before[..n];
    assert IssuedAt(before + [step], m, n);
  }

  lemma NothingForgedStays(before: seq<Step>, step: Step, t: State)
    requires NothingForged(before, t)
    ensures NothingForged(before + [step], t)
  {
    forall m | Issued(before, m) ensures Issued(before + [step], m) {
      IssuedStays(before, step, m);
    }
  }

  lemma PublishedIsIssued(before: seq<Step>, step: Step)
    requires step.Publish?
    ensures var t := Run(INIT, before);
            Issued(before + [step], Message(t.nextSeq, step.topic, step.session, step.content, 0, step.maxRetries))
  {
    var m := Message(Run(INIT, before).nextSeq, step.topic, step.session, step.content, 0, step.maxRetries);
    assert (before + [step])[..|before|] == before;
    assert IssuedAt(before + [step], m, |before|);
  }

  lemma RetriedIsIssued(steps: seq<Step>, m: Message, count: nat)
    requires Issued(steps, m)
    ensures Issued(steps, m.(retryCount := count))
  {
    var n: nat :| IssuedAt(steps, m, n);
    assert IssuedAt(steps, m.(retryCount := count), n);
  }

  lemma MovesForgeNothing(steps: seq<Step>, t: State, step: Step)
    requires NothingForged(steps, t) && !step.Publish? && !step.Retry?
    ensures NothingForged(steps, Next(t, step))
  {
  }

  lemma EntryIsIssued(steps: seq<Step>, inFlight: map<Id, Message>, id: Id, m: Message)
    requires AllInFlightIssued(steps, inFlight)
    ensures AllInFlightIssued(steps, inFlight - {id})
    ensures Issued(steps, m) ==> AllInFlightIssued(steps, inFlight[id := m])
  {
  }

  lemma CopyIsIssued(steps: seq<Step>, ms: seq<Message>, m: Message)
    requires AllIssued(steps, ms) && Issued(steps, m)
    ensures AllIssued(steps, ms + [m])
  {
  }

  lemma RetryForgesNothing(steps: seq<Step>, t: State, id: Id)
    requires NothingForged(steps, t)
    ensures NothingForged(steps, DoRetry(t, id))
  {
    if id in t.inFlight {
      var entry := t.inFlight[id];
      EntryIsIssued(steps, t.inFlight, id, entry);
      if entry.retryCount < entry.maxRetries {
        CopyForgesNothing(steps, t, id, entry.(retryCount := entry.retryCount + 1));
      }
    }
  }

  lemma CopyForgesNothing(steps: seq<Step>, t: State, id: Id, m: Message)
    requires NothingForged(steps, t) && id in t.inFlight && m == t.inFlight[id].(retryCount := m.retryCount)
    ensures NothingForged(steps, t.(inFlight := t.inFlight[id := m], sending := t.sending + [m]))
  {
    RetriedIsIssued(steps, t.inFlight[id], m.retryCount);
    CopyIsIssued(steps, t.sending, m);
    EntryIsIssued(steps, t.inFlight, id, m);
  }

  /**
   In every run, each message anywhere has the topic, the session, the content and the retry limit
   with which its id was published, however often it has been retried.
   */
  lemma {:induction false} RunForgesNothing(steps: seq<Step>)
    ensures NothingForged(steps, Run(INIT, steps))
  {
    if steps != [] {
      var before, step := steps[..|steps| - 1], Last(steps);
      RunForgesNothing(before);
      NothingForgedStays(before, step, Run(INIT, before));
      assert steps == before + [step];
      match step
      case Publish(_, _, _, _) => PublishedIsIssued(before, step);
      case Retry(id) => RetryForgesNothing(steps, Run(INIT, before), id);
      case _ => MovesForgeNothing(steps, Run(INIT, before), step);
    }
  }
}
