/** The scheduler as the object it is: a dictionary of per-service records and the set of
    services with a request in flight, updated in place. Each method is a step, or a loop of
    steps, of module Scheduler. */
module SchedulerClass {
  import opened Basics
  import opened Scheduler

  /** The loop that folds the pending summaries into one. */
  method FoldSummaries(summaries: seq<DeviceLists>) returns (d: DeviceLists)
    ensures d == ConsolidateAll(summaries)
  {
    var changed, left: set<string> := {}, {};
    for i := 0 to |summaries|
      invariant DeviceLists(changed, left) == ConsolidateAll(summaries[..i])
    {
      left := left - summaries[i].changed;
      changed := changed + summaries[i].changed;
      changed := changed - summaries[i].left;
      left := left + summaries[i].left;
      assert summaries[..i + 1][..i] == summaries[..i];
    }
    d := DeviceLists(changed, left);
    assert summaries[..|summaries|] == summaries;
  }

  /** The services marked in flight. */
  function Running(w: World): set<Id> {
    set id | id in w && w[id].inFlight
  }

  lemma RunningAfter(w: World, id: Id, mid: Service, s: Service)
    ensures WithoutSummaries(w[id := mid])[id := s] == WithoutSummaries(w)[id := s]
    ensures Running(WithoutSummaries(w)[id := s]) == if s.inFlight then Running(w) + {id} else Running(w) - {id}
    ensures Running(w[id := s]) == if s.inFlight then Running(w) + {id} else Running(w) - {id}
  {
  }

  class ApplicationServiceScheduler {
    var services: World
    var requestsInFlight: set<Id>
    ghost var history: seq<Step>

    /** The state is the one the protocol reaches by the steps taken so far. */
    ghost predicate Valid()
      reads this
    {
      Exec(history) == Some(services) && requestsInFlight == Running(services)
    }

    constructor ()
      ensures Valid() && history == []
    {
      services, requestsInFlight, history := map[], {}, [];
    }

    /** One turn of a sender's loop, up to its suspension or its end; `others` are the other
        senders of the service. It clears the pending summaries of every service. */
    method TakeBatch(id: Id, others: seq<Batch>)
      requires id in services && id in requestsInFlight
      modifies this`services, this`requestsInFlight
      ensures services == WithoutSummaries(old(services))[id := Turn(old(services)[id], others)]
      ensures requestsInFlight == if services[id].inFlight then old(requestsInFlight) else old(requestsInFlight) - {id}
    {
      var s := services[id];
      var q := s.queues;
      var devices := FoldSummaries(q.summaries);
      var batch := Batch(First(q.events), First(q.ephemeral), First(q.toDevice), devices);
      services := WithoutSummaries(services);
      var cut := Queues(q.events[|batch.events|..], q.ephemeral[|batch.ephemeral|..],
                        q.toDevice[|batch.toDevice|..], []);
      if batch.Empty() {
        services := services[id := s.(queues := cut, inFlight := false, senders := others)];
        requestsInFlight := requestsInFlight - {id};
      } else {
        services := services[id := s.(queues := cut, inFlight := true, senders := others + [batch])];
      }
    }

    /** enqueue_for_appservice and start_background_request */
    method EnqueueFor(id: Id, b: Batch)
      requires Valid()
      modifies this
      ensures Valid() && history == old(history) + [EnqueueStep(id, b)]
    {
      var step := EnqueueStep(id, b);
      ExecMore(history, services, step);
      history := history + [step];
      if b.Empty() {
        return;
      }
      var s := At(services, id);
      var pushed := s.(queues := s.queues.Push(b));
      RunningAfter(services, id, pushed, Enqueue(s, b));
      services := services[id := pushed];
      if id !in requestsInFlight {
        requestsInFlight := requestsInFlight + {id};
        TakeBatch(id, s.senders);
      }
    }

    /** The transaction controller's send for sender `k`, then that sender's next turn. */
    method SendOnce(id: Id, k: nat, sent: bool)
      requires Valid() && k < |At(services, id).senders|
      modifies this
      ensures Valid() && history == old(history) + [SendStep(id, k, sent)]
    {
      var step := SendStep(id, k, sent);
      ExecMore(history, services, step);
      SenderIsInFlight(history, id);
      history := history + [step];
      var s := services[id];
      RunningAfter(services, id, HandOver(s, k, sent), Send(s, k, sent));
      services := services[id := HandOver(s, k, sent)];
      TakeBatch(id, s.senders[..k] + s.senders[k + 1..]);
    }

    /** One iteration of a recoverer. */
    method RetryOnce(id: Id, sent: bool)
      requires Valid() && At(services, id).delivery.recoverer.Some?
      modifies this
      ensures Valid() && history == old(history) + [RetryStep(id, sent)]
      ensures services == old(services)[id := Recover(old(services)[id], sent)]
    {
      var step := RetryStep(id, sent);
      ExecMore(history, services, step);
      history := history + [step];
      RunningAfter(services, id, services[id], Recover(services[id], sent));
      services := services[id := Recover(services[id], sent)];
    }

    /** _Recoverer.retry, run without interruption; `outcomes` are the results of its requests,
        the first missing one counting as a failure. It sends the stored transactions oldest
        first until one fails or none is left; if none is left the service is up again,
        and otherwise the wait before the next attempt follows the backoff. */
    method RetryUntilFailure(id: Id, outcomes: seq<bool>)
      requires Valid() && At(services, id).delivery.recoverer.Some?
      modifies this
      ensures Valid()
      ensures var s := old(services)[id];
              services == old(services)[id := s.(delivery := AfterRetries(s.delivery, Successes(outcomes)))]
    {
      ghost var s := services[id];
      ghost var d := s.delivery;
      var i := 0;
      ResentNone(d);
      while true
        invariant Valid() && 0 <= i <= |d.unsent| && i <= Successes(outcomes)
        invariant services == old(services)[id := s.(delivery := Resent(d, i))]
        decreases |d.unsent| - i
      {
        RetryResent(d, i);
        SuccessesAt(outcomes, i);
        var none := services[id].delivery.unsent == [];
        var sent := none || (i < |outcomes| && outcomes[i]);
        Overwrite(old(services), id, services[id], Recover(services[id], sent));
        RetryOnce(id, sent);
        if none || !sent {
          return;
        }
        i := i + 1;
      }
    }
  }

  lemma Overwrite(w: World, id: Id, s: Service, t: Service)
    ensures w[id := s][id := t] == w[id := t]
  {
  }

  /** How many requests succeed before the first failure. */
  function Successes(outcomes: seq<bool>): nat {
    if outcomes == [] || !outcomes[0] then 0 else 1 + Successes(outcomes[1..])
  }

  lemma {:induction false} SuccessesAt(outcomes: seq<bool>, i: nat)
    requires i <= Successes(outcomes)
    ensures i < Successes(outcomes) <==> i < |outcomes| && outcomes[i]
  {
    if i > 0 { SuccessesAt(outcomes[1..], i - 1); }
  }

  function AfterRetries(d: Delivery, successes: nat): Delivery
    requires d.recoverer.Some?
  {
    if successes >= |d.unsent| then Delivery(false, [], None, d.delivered + d.unsent)
    else
      var backoff := if successes > 0 then 1 else d.recoverer.value;
      Resent(d, successes).(recoverer := Some(if backoff < MAX_BACKOFF then backoff + 1 else backoff))
  }

  lemma RetryResent(d: Delivery, n: nat)
    requires n <= |d.unsent| && d.recoverer.Some?
    ensures n == |d.unsent| ==> Retry(Resent(d, n), true) == AfterRetries(d, n)
    ensures n < |d.unsent| ==> Retry(Resent(d, n), true) == Resent(d, n + 1)
    ensures n < |d.unsent| ==> Retry(Resent(d, n), false) == AfterRetries(d, n)
  {
    if n == |d.unsent| {
      assert d.unsent[..n] == d.unsent;
    } else {
      ResentMore(d, n);
    }
  }
}
