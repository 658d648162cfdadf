/** The delivery protocol of synapse/appservice/scheduler.py.

    Steps run between suspension points: an enqueue (which starts a sender when none is
    running), one send with its failure handling up to the sender's next suspension, and
    one iteration of a recoverer. Store calls succeed. */
module Scheduler {
  import opened Basics

  type Id = string

  /** A room event, an ephemeral event or a to-device message. */
  datatype Item = Item(json: string)

  const MAX_ITEMS_PER_TRANSACTION := 100
  const MAX_BACKOFF := 9

  // ------------------------------------------------------------ device lists

  datatype DeviceLists = DeviceLists(changed: set<string>, left: set<string>)

  const NO_DEVICES := DeviceLists({}, {})

  /** Folding one more summary into the consolidated one. */
  function Consolidate(acc: DeviceLists, s: DeviceLists): DeviceLists {
    DeviceLists(acc.changed + s.changed - s.left, acc.left - s.changed + s.left)
  }

  function ConsolidateAll(summaries: seq<DeviceLists>): DeviceLists {
    if summaries == [] then NO_DEVICES
    else Consolidate(ConsolidateAll(summaries[..|summaries| - 1]), summaries[|summaries| - 1])
  }

  predicate Mentions(s: DeviceLists, u: string) {
    u in s.changed || u in s.left
  }

  /** The last summary that mentions the user says `left`, which wins within one summary. */
  ghost predicate LastLeft(summaries: seq<DeviceLists>, u: string) {
    exists i :: 0 <= i < |summaries| && u in summaries[i].left
                && forall j :: i < j < |summaries| ==> !Mentions(summaries[j], u)
  }

  /** The last summary that mentions the user says only `changed`. */
  ghost predicate LastChanged(summaries: seq<DeviceLists>, u: string) {
    exists i :: 0 <= i < |summaries| && u in summaries[i].changed && u !in summaries[i].left
                && forall j :: i < j < |summaries| ==> !Mentions(summaries[j], u)
  }

  /** The last summary that mentions a user decides; the two sets stay disjoint. */
  lemma {:induction false} LastMentionWins(summaries: seq<DeviceLists>, u: string)
    ensures ConsolidateAll(summaries).changed !! ConsolidateAll(summaries).left
    ensures u in ConsolidateAll(summaries).left <==> LastLeft(summaries, u)
    ensures u in ConsolidateAll(summaries).changed <==> LastChanged(summaries, u)
  {
    if summaries != [] {
      var n := |summaries| - 1;
      LastMentionWins(summaries[..n], u);
      if Mentions(summaries[n], u) {
        assert forall i :: 0 <= i < n && u in summaries[i].left ==> i < n < |summaries| && Mentions(summaries[n], u);
      } else {
        assert forall i :: 0 <= i < n ==> summaries[..n][i] == summaries[i];
      }
    }
  }

  // ----------------------------------------------------------------- batches

  /** The three kinds of items, which are queued apart. */
  datatype Part = Events | Ephemeral | ToDevice

  /** What is handed in for a service, or taken out of its queues, at one time. */
  datatype Batch = Batch(events: seq<Item>, ephemeral: seq<Item>, toDevice: seq<Item>, devices: DeviceLists) {
    predicate Empty() {
      events == [] && ephemeral == [] && toDevice == [] && devices == NO_DEVICES
    }

    function Of(p: Part): seq<Item> {
      match p
      case Events => events
      case Ephemeral => ephemeral
      case ToDevice => toDevice
    }

    /** What the store keeps of a transaction. */
    function EventsOnly(): Batch {
      Batch(events, [], [], NO_DEVICES)
    }
  }

  /** The items of one kind, batch after batch. */
  function Flat(batches: seq<Batch>, p: Part): seq<Item> {
    if batches == [] then [] else Flat(batches[..|batches| - 1], p) + batches[|batches| - 1].Of(p)
  }

  lemma {:induction false} FlatAppend(batches: seq<Batch>, last: Batch, p: Part)
    ensures Flat(batches + [last], p) == Flat(batches, p) + last.Of(p)
  {
    assert (batches + [last])[..|batches|] == batches;
  }

  /** Flat, unfolded from the front. */
  lemma {:induction false} FlatPrepend(first: Batch, batches: seq<Batch>, p: Part)
    ensures Flat([first] + batches, p) == first.Of(p) + Flat(batches, p)
  {
    if batches == [] {
      assert [first] + batches == [] + [first];
      FlatAppend([], first, p);
    } else {
      var n := |batches| - 1;
      assert [first] + batches == ([first] + batches[..n]) + [batches[n]];
      FlatAppend([first] + batches[..n], batches[n], p);
      FlatPrepend(first, batches[..n], p);
      Regroup(first.Of(p), Flat(batches[..n], p), batches[n].Of(p));
    }
  }

  lemma Regroup(a: seq<Item>, b: seq<Item>, c: seq<Item>)
    ensures (a + b) + c == a + (b + c)
  {
  }

  // ------------------------------------------------------------------ queues

  /** What fits into one transaction. */
  function First(queue: seq<Item>): seq<Item> {
    queue[..if |queue| < MAX_ITEMS_PER_TRANSACTION then |queue| else MAX_ITEMS_PER_TRANSACTION]
  }

  /** What waits for a service. */
  datatype Queues = Queues(events: seq<Item>, ephemeral: seq<Item>, toDevice: seq<Item>, summaries: seq<DeviceLists>) {
    function Of(p: Part): seq<Item> {
      match p
      case Events => events
      case Ephemeral => ephemeral
      case ToDevice => toDevice
    }

    function Push(b: Batch): Queues {
      Queues(events + b.events, ephemeral + b.ephemeral, toDevice + b.toDevice,
             if b.devices == NO_DEVICES then summaries else summaries + [b.devices])
    }

    function Head(): Batch {
      Batch(First(events), First(ephemeral), First(toDevice), ConsolidateAll(summaries))
    }

    function Cut(): Queues {
      Queues(events[|First(events)|..], ephemeral[|First(ephemeral)|..], toDevice[|First(toDevice)|..], [])
    }

    predicate Idle() {
      events == [] && ephemeral == [] && toDevice == [] && summaries == []
    }

    /** How many items wait. */
    function Waiting(): nat {
      |events| + |ephemeral| + |toDevice|
    }
  }

  lemma PushAdds(q: Queues, b: Batch, p: Part)
    ensures q.Push(b).Of(p) == q.Of(p) + b.Of(p)
  {
  }

  /** A cut takes from each queue as much from its front as a transaction may hold. */
  lemma CutSplits(q: Queues, p: Part)
    ensures q.Of(p) == q.Head().Of(p) + q.Cut().Of(p)
    ensures |q.Head().Of(p)| <= MAX_ITEMS_PER_TRANSACTION
    ensures |q.Head().Of(p)| < MAX_ITEMS_PER_TRANSACTION ==> q.Cut().Of(p) == []
  {
  }

  /** An empty batch means that nothing is left, and another that something was taken. */
  lemma CutTakes(q: Queues)
    ensures q.Head().Empty() ==> q.Cut().Idle()
    ensures !q.Head().Empty() ==> q.Cut().Waiting() < q.Waiting() || q.summaries != []
    ensures q.Cut().Waiting() <= q.Waiting()
  {
  }

  // ---------------------------------------------------------------- delivery

  /** What the transaction controller and the store hold for a service. */
  datatype Delivery = Delivery(
    down: bool,
    unsent: seq<Batch>,            // the stored transactions, in the order of their ids
    recoverer: Option<nat>,        // its backoff counter
    delivered: seq<Batch>          // the transactions the service acknowledged, as sent
  ) {
    /** Up, or down and recovering; the store keeps events only, and of the transactions stored
        no other than the one that failed first can be without any. */
    ghost predicate Accounted() {
      && (!down ==> unsent == [])
      && (down <==> recoverer.Some?)
      && (recoverer.Some? ==> 1 <= recoverer.value <= MAX_BACKOFF)
      && (forall i :: 0 <= i < |unsent| ==> unsent[i] == unsent[i].EventsOnly())
      && (forall i :: 0 < i < |unsent| ==> unsent[i].events != [])
    }

    /** The events that have been dealt with or are stored. */
    function Stored(): seq<Item> {
      Flat(delivered, Events) + Flat(unsent, Events)
    }
  }

  /** _TransactionController.send, with `sent` the outcome of the request. */
  function Dispatch(d: Delivery, b: Batch, sent: bool): Delivery {
    if d.down && b.events == [] then d
    else if d.down then d.(unsent := d.unsent + [b.EventsOnly()])
    else if sent then d.(delivered := d.delivered + [b])
    else d.(unsent := d.unsent + [b.EventsOnly()], down := true, recoverer := Some(1))
  }

  /** One iteration of _Recoverer.retry. */
  function Retry(d: Delivery, sent: bool): Delivery
    requires d.recoverer.Some?
  {
    if d.unsent == [] then d.(recoverer := None, down := false)
    else if sent then
      d.(unsent := d.unsent[1..], delivered := d.delivered + [d.unsent[0]], recoverer := Some(1))
    else
      d.(recoverer := Some(if d.recoverer.value < MAX_BACKOFF then d.recoverer.value + 1 else d.recoverer.value))
  }

  lemma StoreOne(delivered: seq<Batch>, unsent: seq<Batch>, b: Batch)
    ensures Flat(delivered, Events) + Flat(unsent + [b], Events)
         == (Flat(delivered, Events) + Flat(unsent, Events)) + b.events
  {
    FlatAppend(unsent, b, Events);
    Regroup(Flat(delivered, Events), Flat(unsent, Events), b.events);
  }

  lemma DeliverOne(delivered: seq<Batch>, b: Batch)
    ensures Flat(delivered + [b], Events) + Flat([], Events) == (Flat(delivered, Events) + Flat([], Events)) + b.events
  {
    FlatAppend(delivered, b, Events);
  }

  lemma DispatchStores(d: Delivery, b: Batch, sent: bool)
    requires d.Accounted()
    ensures Dispatch(d, b, sent).Stored() == d.Stored() + b.events
  {
    if d.down && b.events == [] {
      assert d.Stored() + [] == d.Stored();
    } else if d.down || !sent {
      StoreOne(d.delivered, d.unsent, b.EventsOnly());
    } else {
      DeliverOne(d.delivered, b);
    }
  }

  lemma DispatchAccounts(d: Delivery, b: Batch, sent: bool)
    requires d.Accounted()
    ensures Dispatch(d, b, sent).Accounted()
    ensures d.delivered <= Dispatch(d, b, sent).delivered
  {
  }

  lemma ResendOne(delivered: seq<Batch>, unsent: seq<Batch>)
    requires unsent != []
    ensures Flat(delivered + [unsent[0]], Events) + Flat(unsent[1..], Events)
         == Flat(delivered, Events) + Flat(unsent, Events)
  {
    FlatAppend(delivered, unsent[0], Events);
    assert unsent == [unsent[0]] + unsent[1..];
    FlatPrepend(unsent[0], unsent[1..], Events);
    Regroup(Flat(delivered, Events), unsent[0].events, Flat(unsent[1..], Events));
  }

  lemma RetryStores(d: Delivery, sent: bool)
    requires d.Accounted() && d.recoverer.Some?
    ensures Retry(d, sent).Stored() == d.Stored() && Retry(d, sent).Accounted()
    ensures d.delivered <= Retry(d, sent).delivered
  {
    if d.unsent != [] && sent {
      ResendOne(d.delivered, d.unsent);
    }
  }

  /** The first `n` stored transactions have been acknowledged. */
  function Resent(d: Delivery, n: nat): Delivery
    requires n <= |d.unsent|
  {
    d.(unsent := d.unsent[n..], delivered := d.delivered + d.unsent[..n],
       recoverer := if n == 0 then d.recoverer else Some(1))
  }

  /** `n` successful iterations of the recoverer. */
  function RetryAll(d: Delivery, n: nat): Delivery {
    if n == 0 then d else
      var e := RetryAll(d, n - 1);
      if e.recoverer.Some? then Retry(e, true) else e
  }

  lemma ResentMore(d: Delivery, n: nat)
    requires n < |d.unsent| && d.recoverer.Some?
    ensures Retry(Resent(d, n), true) == Resent(d, n + 1)
  {
    assert d.unsent[..n + 1] == d.unsent[..n] + [d.unsent[n]];
    assert d.delivered + d.unsent[..n + 1] == (d.delivered + d.unsent[..n]) + [d.unsent[n]];
  }

  lemma ResentNone(d: Delivery)
    ensures Resent(d, 0) == d
  {
    assert d.delivered + [] == d.delivered;
  }

  /** The recoverer, if every request succeeds, acknowledges the stored transactions oldest
      first, and one iteration after the last of them the service is up. */
  lemma {:induction false} RecoveryCompletes(d: Delivery, n: nat)
    requires d.recoverer.Some?
    ensures n <= |d.unsent| ==> RetryAll(d, n) == Resent(d, n)
    ensures n == |d.unsent| + 1 ==>
      RetryAll(d, n) == Delivery(false, [], None, d.delivered + d.unsent)
  {
    ResentNone(d);
    if 0 < n <= |d.unsent| {
      RecoveryCompletes(d, n - 1);
      ResentMore(d, n - 1);
    } else if n == |d.unsent| + 1 {
      RecoveryCompletes(d, n - 1);
      assert d.unsent[..n - 1] == d.unsent;
    }
  }

  // ---------------------------------------------------------------- services

  /** Everything there is for one service. The code does not itself rule out two senders. */
  datatype Service = Service(
    queues: Queues,
    inFlight: bool,                // the service is in requests_in_flight
    senders: seq<Batch>,           // the batches on which running senders are suspended
    delivery: Delivery,
    handed: seq<Batch>             // the batches that senders have given to the controller
  )

  const NEW_SERVICE := Service(Queues([], [], [], []), false, [], Delivery(false, [], None, []), [])

  /** One turn of a sender's loop, up to its suspension or its end; `others` are the other
      senders of the service. */
  function Turn(s: Service, others: seq<Batch>): Service {
    var batch := s.queues.Head();
    s.(queues := s.queues.Cut(), inFlight := !batch.Empty(),
       senders := if batch.Empty() then others else others + [batch])
  }

  /** enqueue_for_appservice */
  function Enqueue(s: Service, b: Batch): Service {
    var pushed := s.(queues := s.queues.Push(b));
    if b.Empty() then s
    else if s.inFlight then pushed
    else Turn(pushed, s.senders)
  }

  /** The service once sender `k` has given its batch to the controller. */
  function HandOver(s: Service, k: nat, sent: bool): Service
    requires k < |s.senders|
  {
    s.(delivery := Dispatch(s.delivery, s.senders[k], sent), handed := s.handed + [s.senders[k]])
  }

  /** Sender `k` sends its batch and goes on with its loop. */
  function Send(s: Service, k: nat, sent: bool): Service
    requires k < |s.senders|
  {
    Turn(HandOver(s, k, sent), s.senders[..k] + s.senders[k + 1..])
  }

  /** The recoverer takes one iteration. */
  function Recover(s: Service, sent: bool): Service
    requires s.delivery.recoverer.Some?
  {
    s.(delivery := Retry(s.delivery, sent))
  }

  /** What a turn hands to the sender, from the queues as they stand: of each kind as many items
      from the front of its own queue as fit, and for each user what the last summary that
      mentions them says. With nothing to hand over the sender ends. */
  lemma TurnExactly(s: Service, others: seq<Batch>) returns (b: Batch)
    ensures var t := Turn(s, others);
            && (forall p :: s.queues.Of(p) == b.Of(p) + t.queues.Of(p))
            && (forall p :: |b.Of(p)| <= MAX_ITEMS_PER_TRANSACTION)
            && (forall p :: |b.Of(p)| < MAX_ITEMS_PER_TRANSACTION ==> t.queues.Of(p) == [])
            && (forall u :: u in b.devices.left <==> LastLeft(s.queues.summaries, u))
            && (forall u :: u in b.devices.changed <==> LastChanged(s.queues.summaries, u))
            && t.queues.summaries == []
            && t.senders == (if b.Empty() then others else others + [b]) && (t.inFlight <==> !b.Empty())
            && t.delivery == s.delivery && t.handed == s.handed
  {
    b := s.queues.Head();
    forall p ensures s.queues.Of(p) == b.Of(p) + s.queues.Cut().Of(p) {
      CutSplits(s.queues, p);
    }
    forall u ensures (u in b.devices.left <==> LastLeft(s.queues.summaries, u))
                  && (u in b.devices.changed <==> LastChanged(s.queues.summaries, u)) {
      LastMentionWins(s.queues.summaries, u);
    }
  }

  function InHand(senders: seq<Batch>, p: Part): seq<Item> {
    if senders == [] then [] else senders[0].Of(p)
  }

  ghost predicate Small(b: Batch) {
    forall p :: |b.Of(p)| <= MAX_ITEMS_PER_TRANSACTION
  }

  /** The transaction is a batch that was handed over, or the events of one. */
  ghost predicate Traced(t: Batch, handed: seq<Batch>) {
    exists i :: 0 <= i < |handed| && (t == handed[i] || t == handed[i].EventsOnly())
  }

  ghost predicate AllTraced(ts: seq<Batch>, handed: seq<Batch>) {
    forall i :: 0 <= i < |ts| ==> Traced(ts[i], handed)
  }

  /** What was enqueued of one kind is, in order, what was handed over, what is in hand and
      what is queued. */
  ghost predicate Conserved(s: Service, log: seq<Batch>, p: Part) {
    Flat(log, p) == Flat(s.handed, p) + InHand(s.senders, p) + s.queues.Of(p)
  }

  /** `log` are the batches that have been enqueued for the service. */
  ghost predicate Inv(s: Service, log: seq<Batch>) {
    // at most one sender, and exactly while the service is marked in flight
    && |s.senders| == (if s.inFlight then 1 else 0)
    && (s.senders != [] ==> !s.senders[0].Empty() && Small(s.senders[0]))
    && (forall p :: Conserved(s, log, p))
    && (forall i :: 0 <= i < |s.handed| ==> Small(s.handed[i]))
    // no lost wakeup
    && (s.senders == [] ==> s.queues.Idle())
    && Kept(s)
  }

  /** The events handed over are, in order, those delivered and those stored; and nothing is
      delivered or stored that was not handed over. */
  ghost predicate Kept(s: Service) {
    && s.delivery.Accounted()
    && Flat(s.handed, Events) == s.delivery.Stored()
    && AllTraced(s.delivery.delivered, s.handed) && AllTraced(s.delivery.unsent, s.handed)
  }

  /** Nothing is in hand. */
  ghost predicate Between(s: Service, log: seq<Batch>) {
    && (forall p :: Flat(log, p) == Flat(s.handed, p) + s.queues.Of(p))
    && (forall i :: 0 <= i < |s.handed| ==> Small(s.handed[i]))
    && Kept(s)
  }

  /** A turn establishes the invariant once the batch in hand has been dealt with. */
  lemma TurnKeeps(s: Service, log: seq<Batch>)
    requires Between(s, log)
    ensures Inv(Turn(s, []), log)
  {
    CutTakes(s.queues);
    var t := Turn(s, []);
    forall p ensures Conserved(t, log, p) && |s.queues.Head().Of(p)| <= MAX_ITEMS_PER_TRANSACTION {
      CutSplits(s.queues, p);
      Regroup(Flat(s.handed, p), s.queues.Head().Of(p), s.queues.Cut().Of(p));
    }
  }

  lemma PushKeeps(s: Service, log: seq<Batch>, b: Batch, p: Part)
    requires Conserved(s, log, p)
    ensures Conserved(s.(queues := s.queues.Push(b)), log + [b], p)
  {
    FlatAppend(log, b, p);
    PushAdds(s.queues, b, p);
    Regroup(Flat(s.handed, p) + InHand(s.senders, p), s.queues.Of(p), b.Of(p));
  }

  lemma EnqueueKeeps(s: Service, log: seq<Batch>, b: Batch)
    requires Inv(s, log)
    ensures Inv(Enqueue(s, b), log + [b])
  {
    var pushed := s.(queues := s.queues.Push(b));
    forall p ensures Conserved(pushed, log + [b], p) {
      PushKeeps(s, log, b, p);
    }
    if b.Empty() {
      NothingPushed(s, b);
    } else if !s.inFlight {
      forall p ensures Flat(log + [b], p) == Flat(s.handed, p) + pushed.queues.Of(p) {
        assert Conserved(pushed, log + [b], p) && Flat(s.handed, p) + [] == Flat(s.handed, p);
      }
      TurnKeeps(pushed, log + [b]);
    }
  }

  lemma NothingPushed(s: Service, b: Batch)
    requires b.Empty()
    ensures s.queues.Push(b) == s.queues
  {
    assert s.queues.events + [] == s.queues.events && s.queues.ephemeral + [] == s.queues.ephemeral;
    assert s.queues.toDevice + [] == s.queues.toDevice;
  }

  lemma SendIsTurn(s: Service, k: nat, sent: bool)
    requires |s.senders| == 1 && k == 0
    ensures Send(s, k, sent) == Turn(HandOver(s, k, sent), [])
  {
    assert s.senders[..0] + s.senders[1..] == [];
  }

  lemma HandOverKeeps(s: Service, log: seq<Batch>, sent: bool)
    requires Inv(s, log) && s.senders != []
    ensures Between(HandOver(s, 0, sent), log)
  {
    var b, t := s.senders[0], HandOver(s, 0, sent);
    forall p ensures Flat(log, p) == Flat(t.handed, p) + t.queues.Of(p) {
      assert Conserved(s, log, p);
      FlatAppend(s.handed, b, p);
    }
    DispatchStores(s.delivery, b, sent);
    DispatchAccounts(s.delivery, b, sent);
    FlatAppend(s.handed, b, Events);
    HandOverTraced(s, sent);
  }

  lemma TracedMore(ts: seq<Batch>, handed: seq<Batch>, b: Batch)
    requires AllTraced(ts, handed)
    ensures AllTraced(ts, handed + [b])
    ensures AllTraced(ts + [b], handed + [b]) && AllTraced(ts + [b.EventsOnly()], handed + [b])
  {
    var more := handed + [b];
    assert more[|handed|] == b;
    assert Traced(b, more) && Traced(b.EventsOnly(), more);
    forall j | 0 <= j < |ts| ensures Traced(ts[j], more) {
      var i :| 0 <= i < |handed| && (ts[j] == handed[i] || ts[j] == handed[i].EventsOnly());
      assert more[i] == handed[i];
    }
  }

  lemma HandOverTraced(s: Service, sent: bool)
    requires Kept(s) && s.senders != []
    ensures var t := HandOver(s, 0, sent);
            AllTraced(t.delivery.delivered, t.handed) && AllTraced(t.delivery.unsent, t.handed)
  {
    TracedMore(s.delivery.delivered, s.handed, s.senders[0]);
    TracedMore(s.delivery.unsent, s.handed, s.senders[0]);
  }

  lemma SendKeeps(s: Service, log: seq<Batch>, k: nat, sent: bool)
    requires Inv(s, log) && k < |s.senders|
    ensures Inv(Send(s, k, sent), log)
    ensures s.delivery.delivered <= Send(s, k, sent).delivery.delivered
  {
    DispatchAccounts(s.delivery, s.senders[0], sent);
    HandOverKeeps(s, log, sent);
    SendIsTurn(s, k, sent);
    TurnKeeps(HandOver(s, k, sent), log);
  }

  lemma RetryKeeps(s: Service, log: seq<Batch>, sent: bool)
    requires Inv(s, log) && s.delivery.recoverer.Some?
    ensures Inv(Recover(s, sent), log)
    ensures s.delivery.delivered <= Recover(s, sent).delivery.delivered
  {
    RetryStores(s.delivery, sent);
    var t := Recover(s, sent);
    forall p ensures Conserved(t, log, p) {
      assert Conserved(s, log, p);
    }
  }

  // -------------------------------------------------------------------- runs

  type World = map<Id, Service>

  function At(w: World, id: Id): Service {
    if id in w then w[id] else NEW_SERVICE
  }

  datatype Step =
    | EnqueueStep(id: Id, batch: Batch)
    | SendStep(id: Id, sender: nat, sent: bool)
    | RetryStep(id: Id, sent: bool)

  predicate Enabled(w: World, step: Step) {
    match step
    case EnqueueStep(_, _) => true
    case SendStep(id, k, _) => k < |At(w, id).senders|
    case RetryStep(id, _) => At(w, id).delivery.recoverer.Some?
  }

  function Result(w: World, step: Step): Service
    requires Enabled(w, step)
  {
    match step
    case EnqueueStep(id, b) => Enqueue(At(w, id), b)
    case SendStep(id, k, sent) => Send(At(w, id), k, sent)
    case RetryStep(id, sent) => Recover(At(w, id), sent)
  }

  /** The step goes through a sender's loop, which clears the summaries of every service. */
  predicate Clears(w: World, step: Step) {
    step.SendStep? || (step.EnqueueStep? && !step.batch.Empty() && !At(w, step.id).inFlight)
  }

  function Cleared(s: Service): Service {
    s.(queues := s.queues.(summaries := []))
  }

  function WithoutSummaries(w: World): World {
    map id | id in w :: Cleared(w[id])
  }

  function Next(w: World, step: Step): World
    requires Enabled(w, step)
  {
    if step.EnqueueStep? && step.batch.Empty() then w
    else
      var others := if Clears(w, step) then WithoutSummaries(w) else w;
      others[step.id := Result(w, step)]
  }

  /** What one step does to one service. */
  lemma NextAt(w: World, step: Step, id: Id)
    requires Enabled(w, step)
    ensures step.id == id ==> At(Next(w, step), id) == Result(w, step)
    ensures step.id != id ==> At(Next(w, step), id) == if Clears(w, step) then Cleared(At(w, id)) else At(w, id)
  {
  }

  /** The world after a run from `start`, None when some step was not possible. */
  function ExecFrom(start: World, steps: seq<Step>): Option<World> {
    if steps == [] then Some(start)
    else
      var n := |steps| - 1;
      var w := ExecFrom(start, steps[..n]);
      if w.Some? && Enabled(w.value, steps[n]) then Some(Next(w.value, steps[n])) else None
  }

  function Exec(steps: seq<Step>): Option<World> {
    ExecFrom(map[], steps)
  }

  /** The batches that a run enqueues for the service. */
  function BatchesFor(steps: seq<Step>, id: Id): seq<Batch> {
    if steps == [] then []
    else LogAfter(BatchesFor(steps[..|steps| - 1], id), steps[|steps| - 1], id)
  }

  function LogAfter(log: seq<Batch>, step: Step, id: Id): seq<Batch> {
    if step.EnqueueStep? && step.id == id then log + [step.batch] else log
  }

  /** A batch reaches the service whole exactly when it is sent while the service is up and the
      request succeeds; what the recoverer sends is events alone. */
  lemma DeliveredWhole(w: World, step: Step, log: seq<Batch>)
    requires Enabled(w, step) && Inv(At(w, step.id), log)
    ensures var s, t := At(w, step.id), At(Next(w, step), step.id);
            match step
            case EnqueueStep(_, _) => t.delivery == s.delivery && t.handed == s.handed
            case SendStep(_, k, sent) =>
              && t.handed == s.handed + [s.senders[k]]
              && t.delivery.delivered ==
                   s.delivery.delivered + if sent && !s.delivery.down then [s.senders[k]] else []
            case RetryStep(_, sent) =>
              && t.handed == s.handed
              && t.delivery.delivered == s.delivery.delivered + t.delivery.delivered[|s.delivery.delivered|..]
              && forall b :: b in t.delivery.delivered[|s.delivery.delivered|..] ==> b == b.EventsOnly()
  {
    NextAt(w, step, step.id);
    var s := At(w, step.id);
    assert s.delivery.delivered + [] == s.delivery.delivered;
    if step.RetryStep? {
      ResultKeeps(w, step, log);
    }
  }

  lemma ResultKeeps(w: World, step: Step, log: seq<Batch>)
    requires Enabled(w, step) && Inv(At(w, step.id), log)
    ensures Inv(Result(w, step), LogAfter(log, step, step.id))
    ensures At(w, step.id).delivery.delivered <= Result(w, step).delivery.delivered
  {
    var s := At(w, step.id);
    match step
    case EnqueueStep(_, b) => EnqueueKeeps(s, log, b);
    case SendStep(_, k, sent) => SendKeeps(s, log, k, sent);
    case RetryStep(_, sent) => RetryKeeps(s, log, sent);
  }

  lemma ClearedKeeps(s: Service, log: seq<Batch>)
    requires Inv(s, log)
    ensures Inv(Cleared(s), log)
  {
    var t := Cleared(s);
    forall p ensures Conserved(t, log, p) {
      assert Conserved(s, log, p);
    }
  }

  lemma NextKeeps(w: World, step: Step, id: Id, log: seq<Batch>)
    requires Enabled(w, step) && Inv(At(w, id), log)
    ensures Inv(At(Next(w, step), id), LogAfter(log, step, id))
    ensures At(w, id).delivery.delivered <= At(Next(w, step), id).delivery.delivered
  {
    NextAt(w, step, id);
    if step.id == id {
      ResultKeeps(w, step, log);
    } else {
      ClearedKeeps(At(w, id), log);
    }
  }

  lemma NewServiceKept()
    ensures Inv(NEW_SERVICE, [])
  {
    assert forall p :: Flat([], p) == [] && NEW_SERVICE.queues.Of(p) == [];
  }

  /** Under every interleaving, for every service: at most one sender runs, exactly while the
      service is marked in flight; what was enqueued of each kind is, in order, what was handed
      to the controller, what the sender has in hand and what is queued; batches have at most
      100 items of a kind; a service with anything queued has a sender; the events handed over
      are, in order, those delivered and those stored, and nothing else is delivered or
      stored; an up service has nothing stored; and a service is down exactly while it has a
      recoverer. */
  lemma {:induction false} RunKeeps(steps: seq<Step>, id: Id)
    requires Exec(steps).Some?
    ensures Inv(At(Exec(steps).value, id), BatchesFor(steps, id))
  {
    if steps == [] {
      NewServiceKept();
    } else {
      var n := |steps| - 1;
      RunKeeps(steps[..n], id);
      NextKeeps(Exec(steps[..n]).value, steps[n], id, BatchesFor(steps[..n], id));
    }
  }

  lemma SenderIsInFlight(steps: seq<Step>, id: Id)
    requires Exec(steps).Some? && At(Exec(steps).value, id).senders != []
    ensures At(Exec(steps).value, id).inFlight
  {
    RunKeeps(steps, id);
  }

  lemma {:induction false} FlatMonotone(a: seq<Batch>, b: seq<Batch>, p: Part)
    requires a <= b
    ensures Flat(a, p) <= Flat(b, p)
  {
    if |a| < |b| {
      FlatMonotone(a, b[..|b| - 1], p);
    } else {
      assert a == b;
    }
  }

  lemma FirstOfFour(a: seq<Item>, b: seq<Item>, c: seq<Item>, d: seq<Item>)
    ensures a <= a + b + c + d
  {
  }

  lemma PrefixOfEnqueued(s: Service, log: seq<Batch>)
    requires Inv(s, log)
    ensures Flat(s.delivery.delivered, Events) <= Flat(log, Events)
  {
    assert Conserved(s, log, Events);
    FirstOfFour(Flat(s.delivery.delivered, Events), Flat(s.delivery.unsent, Events),
                InHand(s.senders, Events), s.queues.events);
  }

  lemma {:induction false} DeliveredGrows(steps: seq<Step>, i: nat, id: Id)
    requires Exec(steps).Some? && i <= |steps|
    ensures Exec(steps[..i]).Some?
    ensures At(Exec(steps[..i]).value, id).delivery.delivered <= At(Exec(steps).value, id).delivery.delivered
  {
    if i == |steps| {
      assert steps[..i] == steps;
    } else {
      var n := |steps| - 1;
      DeliveredGrows(steps[..n], i, id);
      assert steps[..n][..i] == steps[..i];
      RunKeeps(steps[..n], id);
      NextKeeps(Exec(steps[..n]).value, steps[n], id, BatchesFor(steps[..n], id));
    }
  }

  /** At every point of every run the events delivered are a prefix of those enqueued, and
      what has been delivered is never taken back. */
  lemma DeliveredIsPrefix(steps: seq<Step>, i: nat, id: Id)
    requires Exec(steps).Some? && i <= |steps|
    ensures Exec(steps[..i]).Some?
    ensures Flat(At(Exec(steps[..i]).value, id).delivery.delivered, Events)
         <= Flat(At(Exec(steps).value, id).delivery.delivered, Events)
         <= Flat(BatchesFor(steps, id), Events)
  {
    DeliveredGrows(steps, i, id);
    var early, late := At(Exec(steps[..i]).value, id), At(Exec(steps).value, id);
    FlatMonotone(early.delivery.delivered, late.delivery.delivered, Events);
    RunKeeps(steps, id);
    PrefixOfEnqueued(At(Exec(steps).value, id), BatchesFor(steps, id));
  }

  // ---------------------------------------------------------------- progress

  /** How far the service is from having nothing to do. */
  function Work(s: Service): nat {
    2 * |s.delivery.unsent| + (if s.delivery.down then 1 else 0) + 3 * |s.senders|
    + 3 * s.queues.Waiting() + (if s.queues.summaries == [] then 0 else 3)
  }

  /** A turn pays for the batch it takes with the items of the batch. */
  lemma TurnWorks(s: Service)
    ensures Work(Turn(s, [])) <= Work(s) - 3 * |s.senders|
  {
    CutTakes(s.queues);
  }

  lemma SendWorks(s: Service, k: nat)
    requires |s.senders| == 1 && k == 0
    ensures Work(Send(s, k, true)) < Work(s)
  {
    SendIsTurn(s, k, true);
    TurnWorks(HandOver(s, k, true));
  }

  lemma RetryWorks(s: Service)
    requires s.delivery.Accounted() && s.delivery.recoverer.Some?
    ensures Work(Recover(s, true)) < Work(s)
  {
  }

  /** The step concerns another service, or is a send or retry whose request succeeds. */
  predicate GoesWell(step: Step, id: Id) {
    step.id != id || (!step.EnqueueStep? && step.sent)
  }

  function StepsOf(steps: seq<Step>, id: Id): nat {
    if steps == [] then 0
    else StepsOf(steps[..|steps| - 1], id) + if steps[|steps| - 1].id == id then 1 else 0
  }

  lemma StepWorks(w: World, step: Step, id: Id)
    requires Enabled(w, step) && GoesWell(step, id)
    requires |At(w, id).senders| <= 1 && At(w, id).delivery.Accounted()
    ensures Work(At(Next(w, step), id)) + (if step.id == id then 1 else 0) <= Work(At(w, id))
  {
    NextAt(w, step, id);
    match step
    case EnqueueStep(_, _) =>
    case SendStep(_, k, _) => if step.id == id { SendWorks(At(w, id), k); }
    case RetryStep(_, _) => if step.id == id { RetryWorks(At(w, id)); }
  }

  lemma {:induction false} RunWorks(w: World, steps: seq<Step>, id: Id, log: seq<Batch>)
    requires ExecFrom(w, steps).Some? && Inv(At(w, id), log)
    requires forall i :: 0 <= i < |steps| ==> GoesWell(steps[i], id)
    ensures StepsOf(steps, id) + Work(At(ExecFrom(w, steps).value, id)) <= Work(At(w, id))
    ensures Inv(At(ExecFrom(w, steps).value, id), log)
  {
    if steps != [] {
      var n := |steps| - 1;
      RunWorks(w, steps[..n], id, log);
      StepWorks(ExecFrom(w, steps[..n]).value, steps[n], id);
      NextKeeps(ExecFrom(w, steps[..n]).value, steps[n], id, log);
    }
  }

  /** A sender or a recoverer of the service can take a step. */
  predicate CanStep(s: Service) {
    s.senders != [] || s.delivery.recoverer.Some?
  }

  /** From every state the protocol can reach, in whatever order senders and recoverers of all
      services run from then on: if nothing more is enqueued for a service and its requests
      succeed, it takes only so many steps, and once it can take no more it is up, every item
      enqueued for it has been handed over, in order, and it has been given exactly the
      enqueued events, in order. */
  lemma EverythingIsDelivered(before: seq<Step>, steps: seq<Step>, id: Id)
    requires Exec(before).Some? && ExecFrom(Exec(before).value, steps).Some?
    requires forall i :: 0 <= i < |steps| ==> GoesWell(steps[i], id)
    ensures StepsOf(steps, id) <= Work(At(Exec(before).value, id))
    ensures var s, log := At(ExecFrom(Exec(before).value, steps).value, id), BatchesFor(before, id);
            !CanStep(s) ==>
              && !s.delivery.down && Flat(s.delivery.delivered, Events) == Flat(log, Events)
              && forall p :: Flat(s.handed, p) == Flat(log, p)
  {
    var w, log := Exec(before).value, BatchesFor(before, id);
    RunKeeps(before, id);
    RunWorks(w, steps, id, log);
    var s := At(ExecFrom(w, steps).value, id);
    if !CanStep(s) {
      IdleIsDelivered(s, log);
    }
  }

  lemma IdleIsDelivered(s: Service, log: seq<Batch>)
    requires Inv(s, log) && !CanStep(s)
    ensures !s.delivery.down && Flat(s.delivery.delivered, Events) == Flat(log, Events)
    ensures forall p :: Flat(s.handed, p) == Flat(log, p)
  {
    forall p ensures Flat(s.handed, p) == Flat(log, p) {
      assert Conserved(s, log, p) && s.queues.Of(p) == [];
      assert Flat(s.handed, p) + [] + [] == Flat(s.handed, p);
    }
    assert Flat(s.delivery.delivered, Events) + [] == Flat(s.delivery.delivered, Events);
  }

  // ----------------------------------------------------- pending device lists

  /** The step goes through the loop of another service's sender. */
  predicate Drops(w: World, step: Step, id: Id) {
    step.id != id && Clears(w, step)
  }

  ghost predicate DropsWithin(w: World, steps: seq<Step>, id: Id)
    requires ExecFrom(w, steps).Some?
  {
    steps != [] &&
    var n := |steps| - 1;
    DropsWithin(w, steps[..n], id) || Drops(ExecFrom(w, steps[..n]).value, steps[n], id)
  }

  /** The summaries that the step queues for the service. */
  function SummaryOf(step: Step, id: Id): seq<DeviceLists> {
    if step.EnqueueStep? && step.id == id && step.batch.devices != NO_DEVICES then [step.batch.devices] else []
  }

  function SummariesFor(steps: seq<Step>, id: Id): seq<DeviceLists> {
    if steps == [] then []
    else SummariesFor(steps[..|steps| - 1], id) + SummaryOf(steps[|steps| - 1], id)
  }

  lemma SuspendedStep(w: World, step: Step, id: Id)
    requires Enabled(w, step) && At(w, id).inFlight && !(step.SendStep? && step.id == id)
    ensures At(Next(w, step), id).inFlight
    ensures At(Next(w, step), id).queues.summaries ==
            (if Drops(w, step, id) then [] else At(w, id).queues.summaries) + SummaryOf(step, id)
  {
    NextAt(w, step, id);
    assert At(w, id).queues.summaries + [] == At(w, id).queues.summaries;
  }

  /** While a service's sender is suspended, the summaries pending for it are those that were
      pending and those queued since, in order, if and only if no other service's sender goes
      through its loop: the queue of summaries, unlike the other queues, is cleared for every
      service at once. */
  lemma {:induction false} SummariesSurvive(w: World, steps: seq<Step>, id: Id)
    requires ExecFrom(w, steps).Some? && At(w, id).inFlight && At(w, id).queues.summaries != []
    requires forall i :: 0 <= i < |steps| ==> !(steps[i].SendStep? && steps[i].id == id)
    ensures At(ExecFrom(w, steps).value, id).inFlight
    ensures var pending := At(ExecFrom(w, steps).value, id).queues.summaries;
            var all := At(w, id).queues.summaries + SummariesFor(steps, id);
            |pending| <= |all| && (pending == all <==> !DropsWithin(w, steps, id))
            && (DropsWithin(w, steps, id) ==> |pending| < |all|)
  {
    if steps == [] {
      assert At(w, id).queues.summaries + [] == At(w, id).queues.summaries;
    } else {
      var n := |steps| - 1;
      SummariesSurvive(w, steps[..n], id);
      SuspendedStep(ExecFrom(w, steps[..n]).value, steps[n], id);
      assert At(w, id).queues.summaries + SummariesFor(steps, id)
          == (At(w, id).queues.summaries + SummariesFor(steps[..n], id)) + SummaryOf(steps[n], id);
    }
  }

  lemma ExecMore(steps: seq<Step>, w: World, step: Step)
    requires Exec(steps) == Some(w) && Enabled(w, step)
    ensures Exec(steps + [step]) == Some(Next(w, step))
  {
    assert (steps + [step])[..|steps|] == steps;
  }

  /** From nothing: a summary is queued for `b` while its sender is suspended, and is gone
      once the sender of `a` has taken a turn. */
  lemma SummaryIsLost() returns (before: seq<Step>, after: Step)
    ensures after == SendStep("a", 0, true)
    ensures Exec(before).Some? && Exec(before + [after]).Some?
    ensures At(Exec(before).value, "b").queues.summaries == [DeviceLists({"@u:hs"}, {})]
    ensures At(Exec(before + [after]).value, "b").queues.summaries == []
    ensures !exists d :: d in At(Exec(before + [after]).value, "b").senders && d.devices != NO_DEVICES
  {
    var w;
    before, w := TwoSenders();
    var summary := DeviceLists({"@u:hs"}, {});
    var third := EnqueueStep("b", Batch([], [], [], summary));
    assert summary != NO_DEVICES && At(w, "b").queues.summaries + [summary] == [summary];
    ExecMore(before, w, third);
    NextAt(w, third, "a");
    NextAt(w, third, "b");
    before, w, after := before + [third], Next(w, third), SendStep("a", 0, true);
    ExecMore(before, w, after);
    NextAt(w, after, "b");
  }

  const EVENT := Batch([Item("e")], [], [], NO_DEVICES)

  lemma TwoSenders() returns (steps: seq<Step>, w: World)
    ensures Exec(steps) == Some(w)
    ensures At(w, "a").senders == [EVENT] && At(w, "b").inFlight
    ensures At(w, "b").senders == [EVENT] && At(w, "b").queues.summaries == []
  {
    var first, second := EnqueueStep("a", EVENT), EnqueueStep("b", EVENT);
    steps, w := [], map[];
    FirstEnqueue(EVENT);
    ExecMore(steps, w, first);
    NextAt(w, first, "a");
    NextAt(w, first, "b");
    steps, w := steps + [first], Next(w, first);
    ExecMore(steps, w, second);
    NextAt(w, second, "a");
    NextAt(w, second, "b");
    steps, w := steps + [second], Next(w, second);
  }

  /** The first event for a service goes straight into the hands of a sender. */
  lemma FirstEnqueue(b: Batch)
    requires b.events != [] && |b.events| <= MAX_ITEMS_PER_TRANSACTION && b.ephemeral == [] && b.toDevice == []
    requires b.devices == NO_DEVICES
    ensures Enqueue(NEW_SERVICE, b).inFlight && Enqueue(NEW_SERVICE, b).senders == [b]
    ensures Enqueue(NEW_SERVICE, b).queues.summaries == []
  {
    var q := NEW_SERVICE.queues.Push(b);
    assert q.events == b.events && q.ephemeral == [] && q.toDevice == [];
    assert q.Head() == b;
    assert [] + [b] == [b];
  }
}
