/** Messages that are retried only while no copy of them is under way. */
module BusDiscipline {
  import opened MessageBus
  import opened Sequences

  function CopyCount(ms: seq<Message>, id: Id): nat {
    if ms == [] then 0 else CopyCount(ms[..|ms| - 1], id) + if Last(ms).id == id then 1 else 0
  }

  function Copies(s: State, id: Id): nat {
    CopyCount(s.sending, id) + CopyCount(s.queue, id) + CopyCount(s.receiving, id)
  }

  lemma {:induction false} CopyCountRemove(ms: seq<Message>, i: nat, id: Id)
    requires i < |ms|
    ensures CopyCount(ms, id) == CopyCount(RemoveAt(ms, i), id) + if ms[i].id == id then 1 else 0
  {
    if i == |ms| - 1 {
      assert RemoveAt(ms, i) == ms[..i];
    } else {
      var front := ms[..|ms| - 1];
      CopyCountRemove(front, i, id);
      assert RemoveAt(ms, i) == RemoveAt(front, i) + [Last(ms)];
      CopyCountSnoc(RemoveAt(front, i), Last(ms), id);
    }
  }

  lemma CopyCountSnoc(ms: seq<Message>, m: Message, id: Id)
    ensures CopyCount(ms + [m], id) == CopyCount(ms, id) + if m.id == id then 1 else 0
  {
    assert (ms + [m])[..|ms|] == ms;
  }

  lemma CopyCountZero(ms: seq<Message>, id: Id)
    requires CopyCount(ms, id) == 0
    ensures forall i :: 0 <= i < |ms| ==> ms[i].id != id
  {
    forall i | 0 <= i < |ms| ensures ms[i].id != id {
      CopyCountRemove(ms, i, id);
    }
  }

  lemma NoCopies(s: State, id: Id)
    requires Copies(s, id) == 0
    ensures forall i :: 0 <= i < |s.sending| ==> s.sending[i].id != id
    ensures forall i :: 0 <= i < |s.queue| ==> s.queue[i].id != id
    ensures forall i :: 0 <= i < |s.receiving| ==> s.receiving[i].id != id
  {
    CopyCountZero(s.sending, id);
    CopyCountZero(s.queue, id);
    CopyCountZero(s.receiving, id);
  }

  /** Every copy of the id among ms has the given count. */
  ghost predicate CountsAre(ms: seq<Message>, id: Id, count: nat) {
    forall i :: 0 <= i < |ms| && ms[i].id == id ==> ms[i].retryCount == count
  }

  /** With at most one copy around, every retry count tells the number of deliveries. */
  ghost predicate InStep(s: State, id: Id) {
    && Copies(s, id) <= 1
    && CountsAre(s.sending, id, s.delivered[id])
    && CountsAre(s.queue, id, s.delivered[id])
    && CountsAre(s.receiving, id, s.delivered[id])
    && (id in s.inFlight ==> s.inFlight[id].retryCount + 1 == s.delivered[id] + Copies(s, id))
    && id in s.published
    && s.delivered[id] + Copies(s, id) <= s.published[id] + 1
  }

  lemma CountsSnoc(ms: seq<Message>, m: Message, id: Id, count: nat)
    requires CountsAre(ms, id, count) && (m.id == id ==> m.retryCount == count)
    ensures CountsAre(ms + [m], id, count)
    ensures CopyCount(ms + [m], id) == CopyCount(ms, id) + if m.id == id then 1 else 0
  {
    CopyCountSnoc(ms, m, id);
  }

  lemma CountsRemove(ms: seq<Message>, i: nat, id: Id, count: nat)
    requires CountsAre(ms, id, count) && i < |ms|
    ensures CountsAre(RemoveAt(ms, i), id, count)
    ensures CopyCount(ms, id) == CopyCount(RemoveAt(ms, i), id) + if ms[i].id == id then 1 else 0
  {
    CopyCountRemove(ms, i, id);
  }

  lemma SendInStep(s: State, slot: nat, id: Id)
    requires InStep(s, id)
    ensures InStep(Next(s, Send(slot)), id)
  {
    if slot < |s.sending| && |s.queue| < CHANNEL_CAPACITY {
      CountsRemove(s.sending, slot, id, s.delivered[id]);
      CountsSnoc(s.queue, s.sending[slot], id, s.delivered[id]);
    }
  }

  lemma ReceiveInStep(s: State, id: Id)
    requires InStep(s, id)
    ensures InStep(Next(s, Receive), id)
  {
    if s.queue != [] {
      CountsRemove(s.queue, 0, id, s.delivered[id]);
      CountsSnoc(s.receiving, s.queue[0], id, s.delivered[id]);
    }
  }

  lemma DeliverInStep(s: State, slot: nat, id: Id)
    requires InStep(s, id)
    ensures InStep(DoDeliver(s, slot), id)
  {
    if slot < |s.receiving| {
      CountsRemove(s.receiving, slot, id, s.delivered[id]);
      if s.receiving[slot].id == id {
        NoCopies(DoDeliver(s, slot), id);
      }
    }
  }

  /** Nothing about the id has changed but the other messages being sent. */
  lemma SameInStep(s: State, t: State, id: Id)
    requires InStep(s, id) && t.queue == s.queue && t.receiving == s.receiving
    requires t.delivered == s.delivered && t.published == s.published
    requires CountsAre(t.sending, id, s.delivered[id]) && CopyCount(t.sending, id) == CopyCount(s.sending, id)
    requires id in t.inFlight ==> id in s.inFlight && t.inFlight[id] == s.inFlight[id]
    ensures InStep(t, id)
  {
  }

  lemma RetryLeavesRest(s: State, other: Id, id: Id)
    requires other != id
    ensures var t := DoRetry(s, other);
            && t.queue == s.queue && t.receiving == s.receiving
            && t.delivered == s.delivered && t.published == s.published
            && (id in t.inFlight ==> id in s.inFlight && t.inFlight[id] == s.inFlight[id])
  {
  }

  lemma RetryOtherInStep(s: State, other: Id, id: Id)
    requires InStep(s, id) && other != id && (other in s.inFlight ==> s.inFlight[other].id == other)
    ensures InStep(DoRetry(s, other), id)
  {
    var t := DoRetry(s, other);
    RetryLeavesRest(s, other, id);
    assert CountsAre(t.sending, id, s.delivered[id]) && CopyCount(t.sending, id) == CopyCount(s.sending, id) by {
      if t.sending != s.sending {
        var m := s.inFlight[other].(retryCount := s.inFlight[other].retryCount + 1);
        CountsSnoc(s.sending, m, id, s.delivered[id]);
      }
    }
    SameInStep(s, t, id);
  }

  lemma OnlyCopy(ms: seq<Message>, m: Message, id: Id)
    requires forall i :: 0 <= i < |ms| ==> ms[i].id != id
    requires m.id == id
    ensures CountsAre(ms + [m], id, m.retryCount) && CopyCount(ms + [m], id) == CopyCount(ms, id) + 1
  {
    CopyCountSnoc(ms, m, id);
  }

  lemma RetryInStep(s: State, id: Id)
    requires InStep(s, id) && Copies(s, id) == 0
    requires id in s.inFlight ==> s.inFlight[id].id == id && Genuine(s.published, s.inFlight[id])
    ensures InStep(DoRetry(s, id), id)
  {
    if id in s.inFlight && s.inFlight[id].retryCount < s.inFlight[id].maxRetries {
      NoCopies(s, id);
      var m := s.inFlight[id].(retryCount := s.inFlight[id].retryCount + 1);
      OnlyCopy(s.sending, m, id);
      var t := DoRetry(s, id);
      assert t.sending == s.sending + [m] && t.queue == s.queue && t.receiving == s.receiving;
      assert Copies(t, id) == 1;
    }
  }

  lemma PublishInStep(s: State, step: Step, id: Id)
    requires InStep(s, id) && step.Publish? && id != s.nextSeq
    ensures InStep(Next(s, step), id)
  {
    var m := Message(s.nextSeq, step.topic, step.session, step.content, 0, step.maxRetries);
    CountsSnoc(s.sending, m, id, s.delivered[id]);
    assert Next(s, step).sending == s.sending + [m];
  }

  lemma AckInStep(s: State, other: Id, id: Id)
    requires InStep(s, id)
    ensures InStep(DoAck(s, other), id)
  {
  }

  lemma StepKeepsInStep(s: State, step: Step, id: Id)
    requires Valid(s) && NotWrapped(Next(s, step)) && InStep(s, id)
    requires step == Retry(id) ==> Copies(s, id) == 0
    ensures InStep(Next(s, step), id)
  {
    match step
    case Publish(_, _, _, _) => PublishInStep(s, step, id);
    case Send(slot) => SendInStep(s, slot, id);
    case Receive => ReceiveInStep(s, id);
    case Deliver(slot) => DeliverInStep(s, slot, id);
    case Ack(other) => AckInStep(s, other, id);
    case Retry(other) =>
      if other == id {
        RetryInStep(s, id);
      } else {
        RetryOtherInStep(s, other, id);
      }
  }

  /** The id is retried only while no copy of it is under way. */
  ghost predicate Disciplined(s: State, steps: seq<Step>, id: Id) {
    forall n :: 0 <= n < |steps| && steps[n] == Retry(id) ==> Copies(Run(s, steps[..n]), id) == 0
  }

  lemma {:induction false} DisciplinedRun(s: State, steps: seq<Step>, id: Id)
    requires Valid(s) && InStep(s, id) && NotWrapped(Run(s, steps))
    requires Disciplined(s, steps, id)
    ensures InStep(Run(s, steps), id)
  {
    if steps != [] {
      var before := steps[..|steps| - 1];
      CounterGrows(Run(s, before), Last(steps));
      forall n | 0 <= n < |before| && before[n] == Retry(id) ensures Copies(Run(s, before[..n]), id) == 0 {
        assert before[..n] == steps[..n] && steps[n] == Retry(id);
      }
      DisciplinedRun(s, before, id);
      RunValid(s, before);
      StepKeepsInStep(Run(s, before), Last(steps), id);
    }
  }

  /**
   A message published in a valid state and retried only while no copy of it is under way is
   delivered at most m + 1 times, whatever else happens on the bus.
   */
  lemma DisciplinedDeliveryBound(s: State, publish: Step, steps: seq<Step>)
    requires Valid(s) && publish.Publish?
    requires NotWrapped(Run(Next(s, publish), steps))
    requires Disciplined(Next(s, publish), steps, s.nextSeq)
    ensures Run(Next(s, publish), steps).delivered[s.nextSeq] <= publish.maxRetries + 1
  {
    var id, t := s.nextSeq, Next(s, publish);
    RunCounterGrows(t, steps);
    NextValid(s, publish);
    UnissuedHasNoCopies(s, id);
    var m := Message(id, publish.topic, publish.session, publish.content, 0, publish.maxRetries);
    CopyCountSnoc(s.sending, m, id);
    assert t.sending == s.sending + [m];
    DisciplinedRun(t, steps, id);
    RunKeepsLimits(t, steps, id);
  }

  lemma {:induction false} RunCounterGrows(s: State, steps: seq<Step>)
    ensures s.issued <= Run(s, steps).issued
  {
    if steps != [] {
      RunCounterGrows(s, steps[..|steps| - 1]);
      CounterGrows(Run(s, steps[..|steps| - 1]), Last(steps));
    }
  }

  lemma {:induction false} NoCopyCount(ms: seq<Message>, id: Id)
    requires forall i :: 0 <= i < |ms| ==> ms[i].id != id
    ensures CopyCount(ms, id) == 0
  {
    if ms != [] {
      NoCopyCount(ms[..|ms| - 1], id);
    }
  }

  lemma UnissuedHasNoCopies(s: State, id: Id)
    requires Valid(s) && id !in s.published
    ensures Copies(s, id) == 0 && id !in s.inFlight && s.delivered[id] == 0
    ensures forall i :: 0 <= i < |s.sending| ==> s.sending[i].id != id
    ensures forall i :: 0 <= i < |s.queue| ==> s.queue[i].id != id
    ensures forall i :: 0 <= i < |s.receiving| ==> s.receiving[i].id != id
  {
    assert forall i :: 0 <= i < |s.sending| ==> Genuine(s.published, s.sending[i]);
    NoCopyCount(s.sending, id);
    NoCopyCount(s.queue, id);
    NoCopyCount(s.receiving, id);
  }
}
