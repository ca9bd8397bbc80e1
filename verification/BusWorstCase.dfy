/** The delivery bound is exact: from every state some interleaving spends the whole potential. */
module BusWorstCase {
  import opened MessageBus

  /** Moves some copy of the id one place closer to delivery. */
  lemma StepTowardsDelivery(s: State, id: Id) returns (step: Step)
    requires Valid(s) && Weight(s.receiving, id) == 0 && Weight(s.sending, id) + Weight(s.queue, id) > 0
    ensures (step.Send? && |Next(s, step).sending| < |s.sending|)
         || (step == Receive && Next(s, step).sending == s.sending && |Next(s, step).queue| < |s.queue|)
  {
    WeightPositive(s.queue, id, s.published);
    WeightPositive(s.sending, id, s.published);
    if Weight(s.queue, id) > 0 || |s.queue| >= CHANNEL_CAPACITY {
      step := Receive;
    } else {
      var i :| 0 <= i < |s.sending| && s.sending[i].id == id;
      step := Send(i);
    }
  }

  /** Without waste: nothing of the potential is lost, and the id has come closer to its next delivery. */
  ghost predicate Thrifty(s: State, t: State, id: Id) {
    && t.issued == s.issued && t.delivered[id] + Potential(t, id) == s.delivered[id] + Potential(s, id)
    && Closer(s, t, id)
  }

  /** The potential, then what is in flight, then the way to the consumer has become smaller. */
  ghost predicate Closer(s: State, t: State, id: Id) {
    if Potential(t, id) != Potential(s, id) then Potential(t, id) < Potential(s, id)
    else if FlightWeight(t, id) != FlightWeight(s, id) then FlightWeight(t, id) < FlightWeight(s, id)
    else if |t.sending| != |s.sending| then |t.sending| < |s.sending|
    else |t.queue| < |s.queue|
  }

  lemma RetryIsThrifty(s: State, id: Id)
    requires Valid(s) && id in s.published && FlightWeight(s, id) > 0
    ensures Thrifty(s, Next(s, Retry(id)), id)
  {
    StepHasEffect(s, Retry(id), id);
  }

  lemma DeliveryIsThrifty(s: State, id: Id, i: nat)
    requires Valid(s) && id in s.published && FlightWeight(s, id) == 0
    requires i < |s.receiving| && s.receiving[i].id == id
    ensures Thrifty(s, Next(s, Deliver(i)), id)
  {
    StepHasEffect(s, Deliver(i), id);
  }

  lemma MoveIsThrifty(s: State, id: Id) returns (step: Step)
    requires Valid(s) && id in s.published && Weight(s.receiving, id) == 0
    requires Weight(s.sending, id) + Weight(s.queue, id) > 0
    ensures Thrifty(s, Next(s, step), id)
  {
    step := StepTowardsDelivery(s, id);
    MovesKeepPotential(s, step, id);
  }

  lemma MovesKeepPotential(s: State, step: Step, id: Id)
    requires step.Send? || step == Receive
    ensures var t := Next(s, step);
            && t.issued == s.issued && t.delivered[id] == s.delivered[id]
            && Potential(t, id) == Potential(s, id) && FlightWeight(t, id) == FlightWeight(s, id)
  {
    if step.Send? {
      SendEffect(s, step.slot, id);
    } else {
      ReceiveEffect(s, id);
    }
  }

  lemma WorstStep(s: State, id: Id) returns (step: Step)
    requires Valid(s) && id in s.published && Potential(s, id) > 0
    ensures Thrifty(s, Next(s, step), id)
  {
    if FlightWeight(s, id) > 0 {
      step := Retry(id);
      RetryIsThrifty(s, id);
    } else if Weight(s.receiving, id) > 0 {
      WeightPositive(s.receiving, id, s.published);
      var i :| 0 <= i < |s.receiving| && s.receiving[i].id == id;
      step := Deliver(i);
      DeliveryIsThrifty(s, id, i);
    } else {
      step := MoveIsThrifty(s, id);
    }
  }

  /**
   The potential is exact: some interleaving delivers the id `Potential` more times. It retries
   the in-flight entry up to its limit before each delivery, so that no delivery overwrites an
   entry that could still be retried.
   */
  lemma {:induction false} WorstInterleaving(s: State, id: Id) returns (steps: seq<Step>)
    requires Valid(s) && id in s.published
    ensures Run(s, steps).delivered[id] == s.delivered[id] + Potential(s, id)
    ensures Run(s, steps).issued == s.issued
    decreases Potential(s, id), FlightWeight(s, id), |s.sending|, |s.queue|
  {
    if Potential(s, id) == 0 {
      return [];
    }
    var step := WorstStep(s, id);
    NextValid(s, step);
    NextKeepsIssued(s, step, id);
    var rest := WorstInterleaving(Next(s, step), id);
    RunConcat(s, [step], rest);
    assert Run(s, [step]) == Next(s, step);
    steps := [step] + rest;
  }

  /** For every retry limit there is a run in which one message is delivered exactly 2^m times. */
  lemma DeliveryBoundIsReached(m: nat) returns (steps: seq<Step>, id: Id)
    ensures var t := Run(INIT, steps);
            NotWrapped(t) && id in t.published && t.published[id] == m && t.delivered[id] == Pow2(m)
  {
    var publish := Publish(TaskDispatch, "", "", m);
    var s := Next(INIT, publish);
    id := 1;
    NextValid(INIT, publish);
    PublishBounded(INIT, publish);
    assert Run(INIT, [publish]) == s;
    var rest := WorstInterleaving(s, id);
    RunConcat(INIT, [publish], rest);
    RunBounded([publish] + rest);
    RunKeepsLimits(s, rest, id);
    steps := [publish] + rest;
  }
}
