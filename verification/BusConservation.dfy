/** Where every published message is, and whether it can be delivered again. */
module BusConservation {
  import opened BusDiscipline
  import opened BusWorstCase
  import opened MessageBus
  import opened Sequences

  /** Where a published id can be. */
  ghost predicate Accounted(s: State, id: Id) {
    Copies(s, id) > 0 || id in s.inFlight || id in s.acked || id in s.dropped
  }

  lemma MovesKeepAccounted(s: State, slot: nat, id: Id)
    requires Accounted(s, id)
    ensures Accounted(DoSend(s, slot), id) && Accounted(DoReceive(s), id)
  {
    if slot < |s.sending| {
      CopyCountRemove(s.sending, slot, id);
      CopyCountSnoc(s.queue, s.sending[slot], id);
    }
    if s.queue != [] {
      CopyCountRemove(s.queue, 0, id);
      CopyCountSnoc(s.receiving, s.queue[0], id);
    }
  }

  lemma DeliverKeepsAccounted(s: State, slot: nat, id: Id)
    requires Accounted(s, id)
    ensures Accounted(DoDeliver(s, slot), id)
  {
    if slot < |s.receiving| {
      CopyCountRemove(s.receiving, slot, id);
    }
  }

  lemma AnswersKeepAccounted(s: State, other: Id, id: Id)
    requires Accounted(s, id)
    ensures Accounted(DoAck(s, other), id) && Accounted(DoRetry(s, other), id)
  {
    if other in s.inFlight {
      CopyCountSnoc(s.sending, s.inFlight[other].(retryCount := s.inFlight[other].retryCount + 1), id);
    }
  }

  lemma PublishAccounted(s: State, step: Step, id: Id)
    requires step.Publish? && (Accounted(s, id) || id == s.nextSeq)
    ensures Accounted(Next(s, step), id)
  {
    CopyCountSnoc(s.sending, Message(s.nextSeq, step.topic, step.session, step.content, 0, step.maxRetries), id);
  }

  lemma StepKeepsAccounted(s: State, step: Step, id: Id)
    requires Accounted(s, id)
    ensures Accounted(Next(s, step), id)
  {
    match step
    case Publish(_, _, _, _) => PublishAccounted(s, step, id);
    case Send(slot) => MovesKeepAccounted(s, slot, id);
    case Receive => MovesKeepAccounted(s, 0, id);
    case Deliver(slot) => DeliverKeepsAccounted(s, slot, id);
    case Ack(other) => AnswersKeepAccounted(s, other, id);
    case Retry(other) => AnswersKeepAccounted(s, other, id);
  }

  lemma NewIdIsPublished(s: State, step: Step, id: Id)
    requires id !in s.published && id in Next(s, step).published
    ensures step.Publish? && id == s.nextSeq
  {
  }

  /** No message is lost: every published id is under way, in flight, acked or dropped. */
  lemma {:induction false} NothingIsLost(steps: seq<Step>, id: Id)
    requires id in Run(INIT, steps).published
    ensures Accounted(Run(INIT, steps), id)
  {
    if steps != [] {
      var s := Run(INIT, steps[..|steps| - 1]);
      if id in s.published {
        NothingIsLost(steps[..|steps| - 1], id);
        StepKeepsAccounted(s, Last(steps), id);
      } else {
        NewIdIsPublished(s, Last(steps), id);
        PublishAccounted(s, Last(steps), id);
      }
    }
  }

  /**
   An id may be delivered again exactly when its potential is positive; in particular an ack
   that leaves no copy under way is final.
   */
  lemma DeliveredAgainIffPotential(s: State, id: Id)
    requires Valid(s) && id in s.published
    ensures Potential(s, id) > 0 <==>
            exists steps :: NotWrapped(Run(s, steps)) && Run(s, steps).delivered[id] > s.delivered[id]
    ensures Copies(s, id) == 0 && id !in s.inFlight ==> Potential(s, id) == 0
  {
    var worst := WorstInterleaving(s, id);
    if steps :| NotWrapped(Run(s, steps)) && Run(s, steps).delivered[id] > s.delivered[id] {
      RunSpendsPotential(s, steps, id);
    }
    if Potential(s, id) > 0 {
      assert Run(s, worst).delivered[id] > s.delivered[id];
    }
    if Copies(s, id) == 0 && id !in s.inFlight {
      NoCopies(s, id);
      WeightPositive(s.sending, id, s.published);
      WeightPositive(s.queue, id, s.published);
      WeightPositive(s.receiving, id, s.published);
    }
  }

  lemma {:induction false} DeliveredGrows(s: State, steps: seq<Step>, id: Id)
    ensures s.delivered[id] <= Run(s, steps).delivered[id]
  {
    if steps != [] {
      DeliveredGrows(s, steps[..|steps| - 1], id);
    }
  }

  /** An ack, or a retry at the limit, while no copy is under way is final: the message is never delivered again. */
  lemma AnswerIsFinal(s: State, step: Step, steps: seq<Step>, id: Id)
    requires Valid(s) && id in s.published && Copies(s, id) == 0
    requires step == Ack(id) ||
             (step == Retry(id) && (id in s.inFlight ==> s.inFlight[id].retryCount == s.inFlight[id].maxRetries))
    requires NotWrapped(Run(Next(s, step), steps))
    ensures Run(Next(s, step), steps).delivered[id] == s.delivered[id]
  {
    var t := Next(s, step);
    CounterGrowsAlong(t, steps);
    NextValid(s, step);
    DeliveredAgainIffPotential(t, id);
    DeliveredGrows(t, steps, id);
    RunSpendsPotential(t, steps, id);
  }

  lemma {:induction false} CounterGrowsAlong(s: State, steps: seq<Step>)
    ensures s.issued <= Run(s, steps).issued
  {
    if steps != [] {
      CounterGrowsAlong(s, steps[..|steps| - 1]);
      CounterGrows(Run(s, steps[..|steps| - 1]), Last(steps));
    }
  }
}
