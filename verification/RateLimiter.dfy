/** The leaky-bucket rate limiter of synapse/api/ratelimiting.py, over the reals.

    The limiter stores, per key, a count, the time the bucket was last empty and a leak
    rate, and drops entries that have leaked away. The reference is the meter that its
    documentation describes: one bucket per key that really leaks. */
module RateLimiter {
  import opened Basics

  type Key = string

  datatype Bucket = Bucket(count: real, start: real, rate: real)

  type Buckets = map<Key, Bucket>

  function Max0(x: real): real {
    if x < 0.0 then 0.0 else x
  }

  /** What is left of the count at time `t` under leak rate `rate`, before clamping. */
  function Residue(b: Bucket, t: real, rate: real): real {
    Drained(b.count, b.start, t, rate)
  }

  function Drained(level: real, from: real, t: real, rate: real): real {
    level - (t - from) * rate
  }

  function Pruned(bs: Buckets, now: real): Buckets {
    map k | k in bs && Residue(bs[k], now, bs[k].rate) > 0.0 :: bs[k]
  }

  /** _get_action_counts */
  function BucketOf(bs: Buckets, k: Key, now: real): Bucket {
    if k in bs then bs[k] else Bucket(0.0, now, 0.0)
  }

  /** A request: the parameters of can_do_action once defaults are filled in. */
  datatype Request = Request(key: Key, now: real, rate: real, burst: int, update: bool, n: int)

  datatype Reply = Reply(allowed: bool, timeAllowed: real)

  /** The bucket after "reset the start time and forgive all actions". */
  function Settled(b: Bucket, now: real, rate: real): Bucket {
    if Residue(b, now, rate) < 0.0 then b.(count := 0.0, start := now) else b
  }

  predicate Admits(b: Bucket, q: Request) {
    !(Max0(Residue(b, q.now, q.rate)) > (q.burst - q.n) as real)
  }

  /** The bucket that the request leaves for its key when `update` is on. */
  function Charged(b: Bucket, q: Request): Bucket {
    var s := Settled(b, q.now, q.rate);
    Bucket(if Admits(b, q) then s.count + q.n as real else s.count, s.start, q.rate)
  }

  /** The time from which a single action would fit, given the charged bucket. */
  function NextTime(b: Bucket, q: Request): real {
    if q.rate > 0.0 then
      var t := b.start + (b.count - q.burst as real + 1.0) / q.rate;
      if t < q.now then q.now else t
    else -1.0
  }

  /** The stored buckets after can_do_action, when `prune` says to drop leaked entries. */
  function Store(bs: Buckets, q: Request, prune: bool): Buckets {
    var kept := if prune then Pruned(bs, q.now) else bs;
    if q.update then kept[q.key := Charged(BucketOf(kept, q.key, q.now), q)] else kept
  }

  /** can_do_action's reply. */
  function Answer(bs: Buckets, q: Request, prune: bool): Reply {
    var kept := if prune then Pruned(bs, q.now) else bs;
    var b := BucketOf(kept, q.key, q.now);
    Reply(Admits(b, q), NextTime(Charged(b, q), q))
  }

  /** record_action */
  function Recorded(bs: Buckets, k: Key, now: real, n: int): Buckets {
    var b := BucketOf(bs, k, now);
    bs[k := b.(count := b.count + n as real)]
  }

  /** Python's int() on a float. */
  function Trunc(x: real): int {
    if x >= 0.0 then x.Floor else -((-x).Floor)
  }

  // ---------------------------------------------------------------- the class

  /** Who asks, and whether the configuration or the database exempts them. */
  datatype Requester = Requester(userId: Key, exemptAppService: bool, overrideDisablesLimits: bool)

  datatype Outcome = Replied(reply: Reply) | NoKey

  class Ratelimiter {
    const rateHz: real
    const burstCount: int
    var actions: Buckets

    constructor (rateHz: real, burstCount: int)
      ensures this.rateHz == rateHz && this.burstCount == burstCount && actions == map[]
    {
      this.rateHz, this.burstCount := rateHz, burstCount;
      actions := map[];
    }

    /** _prune_message_counts */
    method Prune(now: real)
      modifies this
      ensures actions == Pruned(old(actions), now)
      ensures forall k :: k in actions <==>
        k in old(actions) && old(actions)[k].count > (now - old(actions)[k].start) * old(actions)[k].rate
    {
      var keys := actions.Keys;
      while keys != {}
        invariant keys <= old(actions).Keys
        invariant actions.Keys <= old(actions).Keys
        invariant forall k :: k in actions ==> actions[k] == old(actions)[k]
        invariant forall k :: k in old(actions) ==>
          (k in actions <==> k in keys || Residue(old(actions)[k], now, old(actions)[k].rate) > 0.0)
      {
        var key :| key in keys;
        if Residue(actions[key], now, actions[key].rate) <= 0.0 {
          actions := actions - {key};
        }
        keys := keys - {key};
      }
      forall k | k in old(actions)
        ensures Residue(old(actions)[k], now, old(actions)[k].rate) > 0.0 <==>
          old(actions)[k].count > (now - old(actions)[k].start) * old(actions)[k].rate
      {
        ResidueSign(old(actions)[k], now);
      }
    }

    /** The application service or the database lifts all limits for the requester. */
    static predicate Exempt(requester: Option<Requester>) {
      requester.Some? && (requester.value.exemptAppService || requester.value.overrideDisablesLimits)
    }

    /** The request is what the arguments say: a given key before the requester's own id, and a
        given rate and burst before those of the limiter. */
    ghost predicate Means(q: Request, requester: Option<Requester>, key: Option<Key>, rate: Option<real>,
                          burst: Option<int>, update: bool, n: int, now: real)
    {
      && (key == Some(q.key) || (key.None? && requester.Some? && requester.value.userId == q.key))
      && (rate == Some(q.rate) || (rate.None? && q.rate == rateHz))
      && (burst == Some(q.burst) || (burst.None? && q.burst == burstCount))
      && q.update == update && q.n == n && q.now == now
    }

    /** can_do_action from the point where the defaults are filled in. */
    method Attempt(q: Request) returns (reply: Reply)
      modifies this
      ensures reply == Answer(old(actions), q, true)
      ensures actions == Store(old(actions), q, true)
    {
      Prune(q.now);
      var bucket := BucketOf(actions, q.key, q.now);
      var actionCount, timeStart := bucket.count, bucket.start;
      var performedCount := actionCount - (q.now - timeStart) * q.rate;
      assert performedCount == Residue(bucket, q.now, q.rate);
      if performedCount < 0.0 {
        performedCount := 0.0;
        actionCount := 0.0;
        timeStart := q.now;
      }
      var allowed := !(performedCount > (q.burst - q.n) as real);
      if allowed {
        actionCount := actionCount + q.n as real;
      }
      assert Charged(bucket, q) == Bucket(actionCount, timeStart, q.rate);
      if q.update {
        actions := actions[q.key := Bucket(actionCount, timeStart, q.rate)];
      }
      var timeAllowed := -1.0;
      if q.rate > 0.0 {
        timeAllowed := timeStart + (actionCount - q.burst as real + 1.0) / q.rate;
        if timeAllowed < q.now {
          timeAllowed := q.now;
        }
      }
      reply := Reply(allowed, timeAllowed);
    }

    method CanDoAction(requester: Option<Requester>, key: Option<Key>, rate: Option<real>, burst: Option<int>,
                       update: bool, n: int, now: real)
      returns (r: Outcome)
      modifies this
      ensures r.NoKey? <==> requester.None? && key.None?
      ensures r.NoKey? || Exempt(requester) ==> actions == old(actions)
      ensures r.Replied? && Exempt(requester) ==> r.reply == Reply(true, -1.0)
      ensures r.Replied? && !Exempt(requester) ==>
        exists q ::
          && Means(q, requester, key, rate, burst, update, n, now)
          && r.reply == Answer(old(actions), q, true) && actions == Store(old(actions), q, true)
    {
      if requester.None? && key.None? {
        return NoKey;
      }
      if requester.Some? {
        if requester.value.exemptAppService {
          return Replied(Reply(true, -1.0));
        }
        if requester.value.overrideDisablesLimits {
          return Replied(Reply(true, -1.0));
        }
      }
      var q := Request(if key.Some? then key.value else requester.value.userId, now,
                       if rate.Some? then rate.value else rateHz,
                       if burst.Some? then burst.value else burstCount, update, n);
      var reply := Attempt(q);
      assert Means(q, requester, key, rate, burst, update, n, now);
      r := Replied(reply);
    }

    method RecordAction(requester: Option<Requester>, key: Option<Key>, n: int, now: real) returns (ok: bool)
      modifies this
      ensures ok <==> requester.Some? || key.Some?
      ensures !ok ==> actions == old(actions)
      ensures ok ==>
        actions == Recorded(old(actions), if key.Some? then key.value else requester.value.userId, now, n)
    {
      ok := requester.Some? || key.Some?;
      if ok {
        var k := if key.Some? then key.value else requester.value.userId;
        var bucket := BucketOf(actions, k, now);
        actions := actions[k := bucket.(count := bucket.count + n as real)];
      }
    }

    /** ratelimit: the wait reported by LimitExceededError, or None when the action may go ahead. */
    method RateLimit(requester: Option<Requester>, key: Option<Key>, rate: Option<real>, burst: Option<int>,
                     update: bool, n: int, now: real)
      returns (r: Outcome, retryAfterMs: Option<int>)
      modifies this
      ensures r.NoKey? <==> requester.None? && key.None?
      ensures retryAfterMs.Some? <==> r.Replied? && !r.reply.allowed
      ensures retryAfterMs.Some? ==>
        !Exempt(requester) && retryAfterMs.value == Trunc(1000.0 * (r.reply.timeAllowed - now))
      ensures r.Replied? && !Exempt(requester) ==>
        exists q ::
          && Means(q, requester, key, rate, burst, update, n, now)
          && r.reply == Answer(old(actions), q, true) && actions == Store(old(actions), q, true)
      ensures r.NoKey? || Exempt(requester) ==> actions == old(actions)
      ensures r.Replied? && Exempt(requester) ==> r.reply == Reply(true, -1.0)
    {
      r := CanDoAction(requester, key, rate, burst, update, n, now);
      retryAfterMs := None;
      if r.Replied? && !r.reply.allowed {
        retryAfterMs := Some(Trunc(1000.0 * (r.reply.timeAllowed - now)));
      }
    }
  }

  // --------------------------------------------------------------- arithmetic

  lemma DrainSign(level: real, from: real, t: real, rate: real)
    ensures Drained(level, from, t, rate) > 0.0 <==> level > (t - from) * rate
  {
  }

  lemma ResidueSign(b: Bucket, t: real)
    ensures Residue(b, t, b.rate) > 0.0 <==> b.count > (t - b.start) * b.rate
  {
    DrainSign(b.count, b.start, t, b.rate);
  }

  lemma LeakNonNegative(d: real, rate: real)
    requires d >= 0.0 && rate >= 0.0
    ensures d * rate >= 0.0
  {
  }

  /** Leaking in two stretches is leaking in one. */
  lemma DrainLater(x: real, from: real, t: real, u: real, rate: real)
    requires t <= u && rate >= 0.0
    ensures Max0(Drained(x, from, u, rate)) == Max0(Drained(Max0(Drained(x, from, t, rate)), t, u, rate))
  {
    LeakNonNegative(u - t, rate);
    assert (u - from) * rate == (t - from) * rate + (u - t) * rate;
  }

  // --------------------------------------------------------- the eager meter

  /** A bucket that really leaks: its level as of time `at`. */
  datatype Meter = Meter(level: real, at: real)

  function Leaked(m: Meter, t: real, rate: real): real {
    Max0(Drained(m.level, m.at, t, rate))
  }

  predicate MeterAdmits(m: Meter, q: Request) {
    Leaked(m, q.now, q.rate) + q.n as real <= q.burst as real
  }

  function MeterStep(m: Meter, q: Request): Meter {
    var level := Leaked(m, q.now, q.rate);
    if q.update && MeterAdmits(m, q) then Meter(level + q.n as real, q.now) else Meter(level, q.now)
  }

  /** The reply to a request that finds the bucket at the given level: whether it fits, and
      when one more action would. */
  function ReplyAt(level: real, q: Request): Reply {
    var allowed := level + q.n as real <= q.burst as real;
    var left := if allowed then level + q.n as real else level;
    Reply(allowed, if q.rate > 0.0 then TimeFor(left, q) else -1.0)
  }

  /** When a bucket at the given level has room for one more, but not before now. */
  function TimeFor(level: real, q: Request): real
    requires q.rate > 0.0
  {
    var wait := (level - q.burst as real + 1.0) / q.rate;
    if wait < 0.0 then q.now else q.now + wait
  }

  function MeterReply(m: Meter, q: Request): Reply {
    ReplyAt(Leaked(m, q.now, q.rate), q)
  }

  function MeterRun(m: Meter, qs: seq<Request>): seq<Reply>
    decreases |qs|
  {
    if qs == [] then [] else [MeterReply(m, qs[0])] + MeterRun(MeterStep(m, qs[0]), qs[1..])
  }

  function OnKey(qs: seq<Request>, k: Key): seq<Request> {
    if qs == [] then [] else (if qs[0].key == k then [qs[0]] else []) + OnKey(qs[1..], k)
  }

  /** The replies that the limiter gives to the requests for `k` within a run. */
  function RepliesOn(bs: Buckets, qs: seq<Request>, k: Key, prune: bool): seq<Reply>
    decreases |qs|
  {
    if qs == [] then []
    else
      (if qs[0].key == k then [Answer(bs, qs[0], prune)] else [])
      + RepliesOn(Store(bs, qs[0], prune), qs[1..], k, prune)
  }

  /** The clock does not go back, and `k` is always used with rate `rate`. */
  ghost predicate Orderly(qs: seq<Request>, k: Key, rate: real, t: real) {
    qs != [] ==>
      && t <= qs[0].now
      && (qs[0].key == k ==> qs[0].rate == rate)
      && Orderly(qs[1..], k, rate, qs[0].now)
  }

  /** The tokens that the limiter holds for `k`. */
  function Held(bs: Buckets, k: Key, t: real, rate: real): real {
    if k in bs then Max0(Residue(bs[k], t, rate)) else 0.0
  }

  /** The entry for `k` was started in the past and leaks at `rate`, or not at all. */
  ghost predicate Sane(bs: Buckets, k: Key, t: real, rate: real) {
    k in bs ==> bs[k].start <= t && (bs[k].rate == rate || bs[k].rate == 0.0)
  }

  ghost predicate Tracks(bs: Buckets, m: Meter, k: Key, t: real, rate: real) {
    Sane(bs, k, t, rate) && m.at <= t && Held(bs, k, t, rate) == Leaked(m, t, rate)
  }

  lemma HeldLater(bs: Buckets, k: Key, t: real, u: real, rate: real)
    requires Sane(bs, k, t, rate) && t <= u && rate >= 0.0
    ensures Sane(bs, k, u, rate)
    ensures Held(bs, k, u, rate) == Max0(Drained(Held(bs, k, t, rate), t, u, rate))
  {
    if k in bs {
      DrainLater(bs[k].count, bs[k].start, t, u, rate);
    } else {
      LeakNonNegative(u - t, rate);
    }
  }

  lemma LeakedLater(m: Meter, t: real, u: real, rate: real)
    requires m.at <= t <= u && rate >= 0.0
    ensures Leaked(m, u, rate) == Max0(Drained(Leaked(m, t, rate), t, u, rate))
  {
    DrainLater(m.level, m.at, t, u, rate);
  }

  /** Dropping leaked entries changes no level. */
  lemma PruneKeepsHeld(bs: Buckets, k: Key, now: real, rate: real)
    requires Sane(bs, k, now, rate) && rate >= 0.0
    ensures Sane(Pruned(bs, now), k, now, rate)
    ensures Held(Pruned(bs, now), k, now, rate) == Held(bs, k, now, rate)
  {
    if k in bs && k !in Pruned(bs, now) {
      var b := bs[k];
      LeakNonNegative(now - b.start, rate);
      if b.rate == 0.0 {
        NoLeak(b, now);
        assert b.count <= 0.0;
      }
      assert Residue(b, now, rate) == b.count - (now - b.start) * rate;
    }
  }

  lemma NoLeak(b: Bucket, t: real)
    ensures Residue(b, t, 0.0) == b.count
  {
  }

  lemma SettledLevel(b: Bucket, now: real, rate: real)
    ensures Residue(Settled(b, now, rate), now, rate) == Max0(Residue(b, now, rate))
  {
    if Residue(b, now, rate) < 0.0 {
      FreshBucket(now, rate);
    }
  }

  lemma FreshBucket(now: real, rate: real)
    ensures forall r :: Residue(Bucket(0.0, now, r), now, rate) == 0.0
  {
    assert (now - now) * rate == 0.0;
  }

  lemma RecordEffect(b: Bucket, now: real, rate: real, n: real)
    ensures Residue(b.(count := b.count + n), now, rate) == Residue(b, now, rate) + n
  {
  }

  /** The leak rate stored with a bucket does not enter its residue. */
  lemma StoredRate(b: Bucket, now: real, rate: real, r: real)
    ensures Residue(b.(rate := r), now, rate) == Residue(b, now, rate)
  {
  }

  /** The effect of one request on the level of the bucket it finds. */
  lemma ChargeLevel(b: Bucket, q: Request)
    ensures var h := Max0(Residue(b, q.now, q.rate));
            && (Admits(b, q) <==> h + q.n as real <= q.burst as real)
            && Residue(Charged(b, q), q.now, q.rate) == (if Admits(b, q) then h + q.n as real else h)
            && Charged(b, q).rate == q.rate
            && (b.start <= q.now ==> Charged(b, q).start <= q.now)
  {
    var s := Settled(b, q.now, q.rate);
    SettledLevel(b, q.now, q.rate);
    RecordEffect(s, q.now, q.rate, q.n as real);
    StoredRate(s, q.now, q.rate, q.rate);
    StoredRate(s.(count := s.count + q.n as real), q.now, q.rate, q.rate);
  }

  lemma FoundLevel(bs: Buckets, k: Key, now: real, rate: real)
    ensures Max0(Residue(BucketOf(bs, k, now), now, rate)) == Held(bs, k, now, rate)
  {
    FreshBucket(now, rate);
  }

  /** The effect of one request on the level of its own key. */
  lemma ChargeEffect(bs: Buckets, q: Request)
    requires Sane(bs, q.key, q.now, q.rate)
    ensures var h := Held(bs, q.key, q.now, q.rate);
            var after := Store(bs, q, false);
            && Sane(after, q.key, q.now, q.rate)
            && (Answer(bs, q, false).allowed <==> h + q.n as real <= q.burst as real)
            && Held(after, q.key, q.now, q.rate)
               == if q.update && Answer(bs, q, false).allowed then Max0(h + q.n as real) else h
  {
    FoundLevel(bs, q.key, q.now, q.rate);
    ChargeLevel(BucketOf(bs, q.key, q.now), q);
  }

  /** Storing under another key, pruned or not, leaves the level of `k` alone. */
  lemma OtherKeys(bs: Buckets, q: Request, k: Key, rate: real, prune: bool)
    requires k != q.key && Sane(bs, k, q.now, rate) && rate >= 0.0
    ensures Sane(Store(bs, q, prune), k, q.now, rate)
    ensures Held(Store(bs, q, prune), k, q.now, rate) == Held(bs, k, q.now, rate)
  {
    PruneKeepsHeld(bs, k, q.now, rate);
  }

  /** The effect of one request on the level of its own key, pruning included. */
  lemma RequestEffect(bs: Buckets, q: Request, prune: bool)
    requires q.rate >= 0.0 && Sane(bs, q.key, q.now, q.rate)
    ensures var h := Held(bs, q.key, q.now, q.rate);
            && Sane(Store(bs, q, prune), q.key, q.now, q.rate)
            && (Answer(bs, q, prune).allowed <==> h + q.n as real <= q.burst as real)
            && Held(Store(bs, q, prune), q.key, q.now, q.rate)
               == if q.update && Answer(bs, q, prune).allowed then Max0(h + q.n as real) else h
  {
    PruneKeepsHeld(bs, q.key, q.now, q.rate);
    var kept := if prune then Pruned(bs, q.now) else bs;
    assert Store(bs, q, prune) == Store(kept, q, false) && Answer(bs, q, prune) == Answer(kept, q, false);
    ChargeEffect(kept, q);
  }

  lemma SameTime(b: Bucket, q: Request)
    requires q.rate > 0.0
    ensures NextTime(b, q) == TimeFor(Residue(b, q.now, q.rate), q)
  {
    var all, wait := b.count - q.burst as real + 1.0, (Residue(b, q.now, q.rate) - q.burst as real + 1.0) / q.rate;
    assert (b.start + all / q.rate - q.now) * q.rate == all - (q.now - b.start) * q.rate == wait * q.rate;
    SameQuotient(b.start + all / q.rate - q.now, wait, q.rate);
  }

  lemma SameQuotient(x: real, y: real, rate: real)
    requires rate > 0.0 && x * rate == y * rate
    ensures x == y
  {
    ScaleOrder(x, y, rate);
    ScaleOrder(y, x, rate);
  }

  /** The whole reply, the returned time included, depends on the level alone. */
  lemma AnswerFromHeld(bs: Buckets, q: Request, prune: bool)
    requires q.rate >= 0.0 && Sane(bs, q.key, q.now, q.rate)
    ensures Answer(bs, q, prune) == ReplyAt(Held(bs, q.key, q.now, q.rate), q)
  {
    PruneKeepsHeld(bs, q.key, q.now, q.rate);
    var kept := if prune then Pruned(bs, q.now) else bs;
    var b := BucketOf(kept, q.key, q.now);
    FoundLevel(kept, q.key, q.now, q.rate);
    ChargeLevel(b, q);
    if q.rate > 0.0 {
      SameTime(Charged(b, q), q);
    }
  }

  lemma FreshMeter(x: real, t: real, rate: real)
    ensures Leaked(Meter(x, t), t, rate) == Max0(x)
  {
    assert (t - t) * rate == 0.0;
  }

  lemma StepTracks(bs: Buckets, m: Meter, q: Request, prune: bool)
    requires q.rate >= 0.0 && Tracks(bs, m, q.key, q.now, q.rate)
    ensures Answer(bs, q, prune) == MeterReply(m, q)
    ensures Tracks(Store(bs, q, prune), MeterStep(m, q), q.key, q.now, q.rate)
  {
    RequestEffect(bs, q, prune);
    AnswerFromHeld(bs, q, prune);
    FreshMeter(MeterStep(m, q).level, q.now, q.rate);
  }

  lemma TracksLater(bs: Buckets, m: Meter, k: Key, t: real, u: real, rate: real)
    requires rate >= 0.0 && Tracks(bs, m, k, t, rate) && t <= u
    ensures Tracks(bs, m, k, u, rate)
  {
    HeldLater(bs, k, t, u, rate);
    LeakedLater(m, t, u, rate);
  }

  lemma OtherTracks(bs: Buckets, m: Meter, q: Request, k: Key, rate: real, prune: bool)
    requires rate >= 0.0 && Tracks(bs, m, k, q.now, rate) && k != q.key
    ensures Tracks(Store(bs, q, prune), m, k, q.now, rate)
  {
    OtherKeys(bs, q, k, rate, prune);
  }

  /** Unfolding both runs by one request. */
  lemma {:induction false} FirstReply(bs: Buckets, m: Meter, qs: seq<Request>, k: Key, prune: bool)
    requires qs != []
    ensures qs[0].key == k ==>
      RepliesOn(bs, qs, k, prune) == [Answer(bs, qs[0], prune)] + RepliesOn(Store(bs, qs[0], prune), qs[1..], k, prune)
    ensures qs[0].key == k ==>
      MeterRun(m, OnKey(qs, k)) == [MeterReply(m, qs[0])] + MeterRun(MeterStep(m, qs[0]), OnKey(qs[1..], k))
    ensures qs[0].key != k ==> RepliesOn(bs, qs, k, prune) == RepliesOn(Store(bs, qs[0], prune), qs[1..], k, prune)
    ensures qs[0].key != k ==> OnKey(qs, k) == OnKey(qs[1..], k)
  {
    var rest := OnKey(qs[1..], k);
    assert ([qs[0]] + rest)[1..] == rest;
    assert [] + rest == rest;
    var replies := RepliesOn(Store(bs, qs[0], prune), qs[1..], k, prune);
    assert [] + replies == replies;
  }

  /** With a clock that does not go back and one leak rate for `k`, the limiter answers the
      requests for `k` as an eager meter of `k` alone would, whether or not it prunes, and
      whatever is asked about other keys in between. */
  lemma {:induction false} RefinesMeter(bs: Buckets, m: Meter, qs: seq<Request>, k: Key, rate: real, t: real,
                                        prune: bool)
    requires rate >= 0.0 && Tracks(bs, m, k, t, rate) && Orderly(qs, k, rate, t)
    ensures RepliesOn(bs, qs, k, prune) == MeterRun(m, OnKey(qs, k))
    decreases |qs|
  {
    if qs != [] {
      var q := qs[0];
      FirstReply(bs, m, qs, k, prune);
      TracksLater(bs, m, k, t, q.now, rate);
      if q.key == k {
        StepTracks(bs, m, q, prune);
        RefinesMeter(Store(bs, q, prune), MeterStep(m, q), qs[1..], k, rate, q.now, prune);
      } else {
        OtherTracks(bs, m, q, k, rate, prune);
        RefinesMeter(Store(bs, q, prune), m, qs[1..], k, rate, q.now, prune);
      }
    }
  }

  /** From the empty limiter: pruning cannot be observed, and the replies on a key are
      those of a run in which only that key is ever used. */
  lemma KeysAreIndependent(qs: seq<Request>, k: Key, rate: real, t: real)
    requires rate >= 0.0 && Orderly(qs, k, rate, t)
    ensures RepliesOn(map[], qs, k, true) == RepliesOn(map[], qs, k, false)
    ensures RepliesOn(map[], qs, k, true) == RepliesOn(map[], OnKey(qs, k), k, true)
  {
    var empty := Meter(0.0, t);
    assert (t - t) * rate == 0.0;
    RefinesMeter(map[], empty, qs, k, rate, t, true);
    RefinesMeter(map[], empty, qs, k, rate, t, false);
    OnKeyOrderly(qs, k, rate, t);
    RefinesMeter(map[], empty, OnKey(qs, k), k, rate, t, true);
  }

  lemma {:induction false} OnKeyOrderly(qs: seq<Request>, k: Key, rate: real, t: real)
    requires Orderly(qs, k, rate, t)
    ensures Orderly(OnKey(qs, k), k, rate, t) && OnKey(OnKey(qs, k), k) == OnKey(qs, k)
  {
    if qs != [] {
      var rest := OnKey(qs[1..], k);
      OnKeyOrderly(qs[1..], k, rate, qs[0].now);
      if qs[0].key == k {
        assert ([qs[0]] + rest)[1..] == rest;
      } else {
        assert [] + rest == rest;
      }
    }
  }

  // ---------------------------------------------------------------- recording

  /** The bucket has leaked away but has not been pruned. */
  predicate Stale(bs: Buckets, k: Key, now: real, rate: real) {
    k in bs && Residue(bs[k], now, rate) < 0.0
  }

  lemma RecordedBucket(bs: Buckets, k: Key, now: real, rate: real, n: int)
    ensures k in Recorded(bs, k, now, n)
    ensures Residue(Recorded(bs, k, now, n)[k], now, rate) ==
      (if k in bs then Residue(bs[k], now, rate) else 0.0) + n as real
  {
    FreshBucket(now, rate);
    RecordEffect(BucketOf(bs, k, now), now, rate, n as real);
  }

  /** Recording `n` actions raises the level by `n`, and requests that follow see it; but what
      has leaked beyond empty out of a stale bucket is first taken off, so that the level is
      raised by `n` if and only if the bucket is not stale or nothing is added. No other key
      is touched. */
  lemma RecordCounts(bs: Buckets, q: Request, n: int, prune: bool)
    requires q.rate >= 0.0 && Sane(bs, q.key, q.now, q.rate)
    ensures var before := Held(bs, q.key, q.now, q.rate);
            var level := Held(Recorded(bs, q.key, q.now, n), q.key, q.now, q.rate);
            && (level == Max0(before + n as real) <==> !Stale(bs, q.key, q.now, q.rate) || n <= 0)
            && (Stale(bs, q.key, q.now, q.rate) ==> level == Max0(Residue(bs[q.key], q.now, q.rate) + n as real))
            && (Answer(Recorded(bs, q.key, q.now, n), q, prune).allowed <==> level + q.n as real <= q.burst as real)
    ensures forall k :: k != q.key ==>
      (k in Recorded(bs, q.key, q.now, n) <==> k in bs) && (k in bs ==> Recorded(bs, q.key, q.now, n)[k] == bs[k])
  {
    RecordedBucket(bs, q.key, q.now, q.rate, n);
    RequestEffect(Recorded(bs, q.key, q.now, n), q, prune);
  }

  /** Three actions recorded on an empty limiter use up a burst of three. */
  lemma RecordedActionsAreDenied()
    ensures !Answer(Recorded(map[], "k", 0.0, 3), Request("k", 0.0, 1.0, 3, true, 1), true).allowed
  {
    RecordCounts(map[], Request("k", 0.0, 1.0, 3, true, 1), 3, true);
  }

  // ------------------------------------------------- the bound on any window

  datatype Op = Ask(q: Request) | Record(key: Key, now: real, n: int)

  function TimeOf(op: Op): real {
    if op.Ask? then op.q.now else op.now
  }

  function After(bs: Buckets, op: Op): Buckets {
    match op
    case Ask(q) => Store(bs, q, true)
    case Record(key, now, n) => Recorded(bs, key, now, n)
  }

  /** The operation is a request for `k` that is allowed and counted. */
  predicate Counts(bs: Buckets, op: Op, k: Key) {
    op.Ask? && op.q.key == k && op.q.update && Answer(bs, op.q, true).allowed
  }

  /** The counted, allowed actions on `k` in a run. */
  function Total(bs: Buckets, ops: seq<Op>, k: Key): int
    decreases |ops|
  {
    if ops == [] then 0
    else (if Counts(bs, ops[0], k) then ops[0].q.n else 0) + Total(After(bs, ops[0]), ops[1..], k)
  }

  predicate AnyCounted(bs: Buckets, ops: seq<Op>, k: Key)
    decreases |ops|
  {
    ops != [] && (Counts(bs, ops[0], k) || AnyCounted(After(bs, ops[0]), ops[1..], k))
  }

  /** Time goes from `lo` to `hi`; requests for `k` use `rate`; what is recorded for `k` is not negative. */
  ghost predicate Steady(ops: seq<Op>, k: Key, rate: real, lo: real, hi: real) {
    && lo <= hi
    && (forall i :: 0 <= i < |ops| ==> lo <= TimeOf(ops[i]) <= hi)
    && (forall i, j :: 0 <= i < j < |ops| ==> TimeOf(ops[i]) <= TimeOf(ops[j]))
    && (forall i :: 0 <= i < |ops| && ops[i].Ask? && ops[i].q.key == k ==> ops[i].q.rate == rate)
    && (forall i :: 0 <= i < |ops| && ops[i].Record? && ops[i].key == k ==> ops[i].n >= 0)
  }

  ghost predicate BurstIs(ops: seq<Op>, k: Key, burst: int) {
    forall i :: 0 <= i < |ops| && ops[i].Ask? && ops[i].q.key == k ==> ops[i].q.burst == burst
  }

  /** No operation lowers the level of `k` below what it held plus what was counted. */
  lemma OpEffect(bs: Buckets, op: Op, k: Key, rate: real)
    requires rate >= 0.0 && Sane(bs, k, TimeOf(op), rate)
    requires op.Ask? && op.q.key == k ==> op.q.rate == rate
    requires op.Record? && op.key == k ==> op.n >= 0
    ensures Sane(After(bs, op), k, TimeOf(op), rate)
    ensures var h := Held(bs, k, TimeOf(op), rate);
            && Held(After(bs, op), k, TimeOf(op), rate) >= h + (if Counts(bs, op, k) then op.q.n as real else 0.0)
            && (Counts(bs, op, k) ==> h + op.q.n as real <= op.q.burst as real)
  {
    match op
    case Ask(q) =>
      if q.key == k {
        RequestEffect(bs, q, true);
      } else {
        OtherKeys(bs, q, k, rate, true);
      }
    case Record(key, now, n) =>
      if key == k {
        RecordEffect(BucketOf(bs, k, now), now, rate, n as real);
        FoundLevel(bs, k, now, rate);
      }
  }

  lemma SteadySlice(ops: seq<Op>, k: Key, rate: real, burst: int, lo: real, hi: real,
                    i: nat, j: nat, from: real, to: real)
    requires Steady(ops, k, rate, lo, hi) && BurstIs(ops, k, burst) && i <= j <= |ops|
    requires from <= to && (i < j ==> from <= TimeOf(ops[i]) && TimeOf(ops[j - 1]) <= to)
    ensures Steady(ops[i..j], k, rate, from, to) && BurstIs(ops[i..j], k, burst)
  {
    var part := ops[i..j];
    assert forall x :: 0 <= x < |part| ==> part[x] == ops[i + x];
    forall x | 0 <= x < |part| ensures from <= TimeOf(part[x]) <= to {
      assert x == 0 || TimeOf(ops[i]) <= TimeOf(ops[i + x]);
      assert i + x == j - 1 || TimeOf(ops[i + x]) <= TimeOf(ops[j - 1]);
    }
  }

  /** The burst, and what leaks from `from` to `to`. */
  function Allowance(burst: int, rate: real, from: real, to: real): real {
    burst as real + rate * (to - from)
  }

  lemma SplitSpan(rate: real, lo: real, now: real, hi: real)
    requires rate >= 0.0 && lo <= now <= hi
    ensures rate * (hi - lo) == (now - lo) * rate + rate * (hi - now)
    ensures rate * (hi - now) >= 0.0
  {
    LeakNonNegative(hi - now, rate);
  }

  /** What leaks meanwhile is within the bound for the longer window. */
  lemma LongerWindow(h: real, later: real, burst: int, rate: real, lo: real, now: real, hi: real)
    requires rate >= 0.0 && lo <= now <= hi && later == Max0(Drained(h, lo, now, rate))
    ensures Allowance(burst, rate, now, hi) - later <= Allowance(burst, rate, lo, hi) - h
    ensures Allowance(burst, rate, now, hi) >= burst as real
  {
    SplitSpan(rate, lo, now, hi);
  }

  lemma {:induction false} WindowFrom(bs: Buckets, ops: seq<Op>, k: Key, rate: real, burst: int, lo: real, hi: real)
    requires rate >= 0.0 && Sane(bs, k, lo, rate) && Steady(ops, k, rate, lo, hi) && BurstIs(ops, k, burst)
    ensures AnyCounted(bs, ops, k) ==>
      Total(bs, ops, k) as real <= Allowance(burst, rate, lo, hi) - Held(bs, k, lo, rate)
    ensures !AnyCounted(bs, ops, k) ==> Total(bs, ops, k) == 0
    decreases |ops|
  {
    if ops != [] {
      var op, now := ops[0], TimeOf(ops[0]);
      HeldLater(bs, k, lo, now, rate);
      LongerWindow(Held(bs, k, lo, rate), Held(bs, k, now, rate), burst, rate, lo, now, hi);
      OpEffect(bs, op, k, rate);
      SteadySlice(ops, k, rate, burst, lo, hi, 1, |ops|, now, hi);
      assert ops[1..|ops|] == ops[1..];
      WindowFrom(After(bs, op), ops[1..], k, rate, burst, now, hi);
    }
  }

  lemma {:induction false} WindowFromSane(bs: Buckets, ops: seq<Op>, k: Key, rate: real, burst: int, lo: real, hi: real)
    requires rate >= 0.0 && burst >= 0 && Sane(bs, k, lo, rate)
    requires Steady(ops, k, rate, lo, hi) && BurstIs(ops, k, burst)
    ensures Total(bs, ops, k) as real <= Allowance(burst, rate, lo, hi)
  {
    WindowFrom(bs, ops, k, rate, burst, lo, hi);
    SplitSpan(rate, lo, lo, hi);
  }

  function RunOps(ops: seq<Op>): Buckets {
    if ops == [] then map[] else After(RunOps(ops[..|ops| - 1]), ops[|ops| - 1])
  }

  lemma {:induction false} RunStaysSane(ops: seq<Op>, k: Key, rate: real, lo: real, hi: real)
    requires rate >= 0.0 && Steady(ops, k, rate, lo, hi)
    ensures Sane(RunOps(ops), k, hi, rate)
  {
    if ops != [] {
      var n := |ops| - 1;
      var now := TimeOf(ops[n]);
      RunStaysSane(ops[..n], k, rate, lo, now);
      OpEffect(RunOps(ops[..n]), ops[n], k, rate);
    }
  }

  lemma {:induction false} PrefixSane(ops: seq<Op>, i: nat, k: Key, rate: real, lo: real, hi: real)
    requires rate >= 0.0 && Steady(ops, k, rate, lo, hi) && i < |ops|
    ensures Sane(RunOps(ops[..i]), k, TimeOf(ops[i]), rate)
  {
    RunStaysSane(ops[..i], k, rate, lo, TimeOf(ops[i]));
  }

  lemma Ordered(ops: seq<Op>, k: Key, rate: real, lo: real, hi: real, i: nat, j: nat)
    requires Steady(ops, k, rate, lo, hi) && i <= j < |ops|
    ensures TimeOf(ops[i]) <= TimeOf(ops[j])
  {
  }

  lemma {:induction false} StretchBound(bs: Buckets, ops: seq<Op>, i: nat, j: nat, k: Key, rate: real, burst: int,
                                        lo: real, hi: real, from: real, to: real)
    requires rate >= 0.0 && burst >= 0 && Steady(ops, k, rate, lo, hi) && BurstIs(ops, k, burst)
    requires i < j <= |ops| && from == TimeOf(ops[i]) && to == TimeOf(ops[j - 1]) && Sane(bs, k, from, rate)
    ensures Total(bs, ops[i..j], k) as real <= Allowance(burst, rate, from, to)
  {
    Ordered(ops, k, rate, lo, hi, i, j - 1);
    SteadySlice(ops, k, rate, burst, lo, hi, i, j, from, to);
    WindowFromSane(bs, ops[i..j], k, rate, burst, from, to);
  }

  /** For a fixed rate and burst, the counted actions on a key within any stretch of any run
      are at most the burst plus the rate times the length of the stretch, even when
      non-negative amounts are recorded in between. */
  lemma {:induction false} WindowBound(ops: seq<Op>, i: nat, j: nat, k: Key, rate: real, burst: int, lo: real, hi: real)
    requires rate >= 0.0 && burst >= 0 && Steady(ops, k, rate, lo, hi) && BurstIs(ops, k, burst)
    requires i < j <= |ops|
    ensures Total(RunOps(ops[..i]), ops[i..j], k) as real
         <= Allowance(burst, rate, TimeOf(ops[i]), TimeOf(ops[j - 1]))
  {
    PrefixSane(ops, i, k, rate, lo, hi);
    StretchBound(RunOps(ops[..i]), ops, i, j, k, rate, burst, lo, hi, TimeOf(ops[i]), TimeOf(ops[j - 1]));
  }

  // --------------------------------------------------------- the returned time

  /** A single action on the key at time `t`, with the parameters of `q`. */
  function Retry(q: Request, t: real, n: int): Request {
    q.(now := t, n := n)
  }

  /** Scaling by a positive rate keeps the order. */
  lemma ScaleOrder(x: real, y: real, rate: real)
    requires rate > 0.0
    ensures x <= y <==> x * rate <= y * rate
  {
    if x <= y {
      LeakNonNegative(y - x, rate);
    } else {
      LeakPositive(x - y, rate);
    }
    assert (y - x) * rate == y * rate - x * rate;
    assert (x - y) * rate == x * rate - y * rate;
  }

  lemma LeakPositive(d: real, rate: real)
    requires d > 0.0 && rate > 0.0
    ensures d * rate > 0.0
  {
  }

  lemma Threshold(b: Bucket, rate: real, t: real, c: real)
    requires rate > 0.0
    ensures Residue(b, t, rate) <= c <==> t >= b.start + (b.count - c) / rate
  {
    var d := (b.count - c) / rate;
    assert d * rate == b.count - c;
    ScaleOrder(d, t - b.start, rate);
  }

  /** When a request for `n` actions would next be admitted, given the bucket it finds. */
  lemma AdmittedFrom(bs: Buckets, q: Request, t: real, n: int)
    requires q.rate > 0.0 && n <= q.burst && q.key in bs && bs[q.key].rate == q.rate && bs[q.key].start <= t
    ensures Answer(bs, Retry(q, t, n), true).allowed
       <==> t >= bs[q.key].start + (bs[q.key].count - (q.burst - n) as real) / q.rate
  {
    var b, c := bs[q.key], (q.burst - n) as real;
    RequestEffect(bs, Retry(q, t, n), true);
    Threshold(b, q.rate, t, c);
    ClampedBelow(Residue(b, t, q.rate), c);
  }

  lemma ClampedBelow(x: real, c: real)
    requires c >= 0.0
    ensures Max0(x) <= c <==> x <= c
  {
  }

  /** With `update` on, a positive rate and a burst of at least one, the returned time is
      the least time, not before now, at which a single action on the key is allowed if
      nothing else touches the key. */
  lemma ReturnedTimeIsLeast(bs: Buckets, q: Request, t: real)
    requires q.update && q.rate > 0.0 && q.burst >= 1 && Sane(bs, q.key, q.now, q.rate) && t >= q.now
    ensures Answer(bs, q, true).timeAllowed >= q.now
    ensures Answer(Store(bs, q, true), Retry(q, t, 1), true).allowed <==> t >= Answer(bs, q, true).timeAllowed
  {
    RequestEffect(bs, q, true);
    AdmittedFrom(Store(bs, q, true), q, t, 1);
  }

  function RunRequests(bs: Buckets, qs: seq<Request>): Buckets
    decreases |qs|
  {
    if qs == [] then bs else RunRequests(Store(bs, qs[0], true), qs[1..])
  }

  lemma {:induction false} OthersKeepHeld(bs: Buckets, qs: seq<Request>, k: Key, rate: real, lo: real, hi: real)
    requires rate >= 0.0 && Sane(bs, k, lo, rate) && lo <= hi
    requires forall i :: 0 <= i < |qs| ==> qs[i].key != k && lo <= qs[i].now <= hi
    requires forall i, j :: 0 <= i < j < |qs| ==> qs[i].now <= qs[j].now
    ensures Sane(RunRequests(bs, qs), k, hi, rate)
    ensures Held(RunRequests(bs, qs), k, hi, rate) == Held(bs, k, hi, rate)
    decreases |qs|
  {
    HeldLater(bs, k, lo, hi, rate);
    if qs != [] {
      var q := qs[0];
      var bs' := Store(bs, q, true);
      HeldLater(bs, k, lo, q.now, rate);
      OtherKeys(bs, q, k, rate, true);
      OthersKeepHeld(bs', qs[1..], k, rate, q.now, hi);
      HeldLater(bs, k, q.now, hi, rate);
      HeldLater(bs', k, q.now, hi, rate);
    }
  }

  /** The returned time stays the least one however other keys are used meanwhile. */
  lemma ReturnedTimeStands(bs: Buckets, q: Request, others: seq<Request>, t: real)
    requires q.update && q.rate > 0.0 && q.burst >= 1 && Sane(bs, q.key, q.now, q.rate) && t >= q.now
    requires forall i :: 0 <= i < |others| ==> others[i].key != q.key && q.now <= others[i].now <= t
    requires forall i, j :: 0 <= i < j < |others| ==> others[i].now <= others[j].now
    ensures Answer(RunRequests(Store(bs, q, true), others), Retry(q, t, 1), true).allowed
       <==> t >= Answer(bs, q, true).timeAllowed
  {
    ReturnedTimeIsLeast(bs, q, t);
    RequestEffect(bs, q, true);
    var after := Store(bs, q, true);
    OthersKeepHeld(after, others, q.key, q.rate, q.now, t);
    HeldLater(after, q.key, q.now, t, q.rate);
    RequestEffect(after, Retry(q, t, 1), true);
    RequestEffect(RunRequests(after, others), Retry(q, t, 1), true);
  }

  /** When a bucket at level `h` has leaked to `c`. */
  lemma LeaksTo(h: real, now: real, rate: real, c: real, t: real)
    requires rate > 0.0 && c >= 0.0
    ensures Leaked(Meter(h, now), t, rate) <= c <==> t >= now + (h - c) / rate
  {
    var b := Bucket(h, now, rate);
    assert Leaked(Meter(h, now), t, rate) == Max0(Residue(b, t, rate));
    Threshold(b, rate, t, c);
    ClampedBelow(Residue(b, t, rate), c);
  }

  lemma DivideOrder(x: real, y: real, rate: real)
    requires rate > 0.0
    ensures x < y <==> x / rate < y / rate
  {
    assert x / rate * rate == x && y / rate * rate == y;
    ScaleOrder(y / rate, x / rate, rate);
  }

  /** A denied request leaves the level as it found it; whether `n` actions fit later is a
      matter of that level. */
  lemma FitsLater(bs: Buckets, q: Request, t: real)
    requires q.rate > 0.0 && Sane(bs, q.key, q.now, q.rate) && !Answer(bs, q, true).allowed && t >= q.now
    ensures Answer(Store(bs, q, true), Retry(q, t, q.n), true).allowed
       <==> Leaked(Meter(Held(bs, q.key, q.now, q.rate), q.now), t, q.rate) + q.n as real <= q.burst as real
  {
    HeldAfterDenial(bs, q, t);
    RequestEffect(Store(bs, q, true), Retry(q, t, q.n), true);
  }

  lemma HeldAfterDenial(bs: Buckets, q: Request, t: real)
    requires q.rate > 0.0 && Sane(bs, q.key, q.now, q.rate) && !Answer(bs, q, true).allowed && t >= q.now
    ensures Sane(Store(bs, q, true), q.key, t, q.rate)
    ensures Held(Store(bs, q, true), q.key, t, q.rate) ==
      Leaked(Meter(Held(bs, q.key, q.now, q.rate), q.now), t, q.rate)
  {
    var after, h := Store(bs, q, true), Held(bs, q.key, q.now, q.rate);
    RequestEffect(bs, q, true);
    HeldLater(after, q.key, q.now, t, q.rate);
  }

  /** The returned time is when the request itself would next be allowed. */
  ghost predicate TimeIsRight(bs: Buckets, q: Request) {
    forall t :: t >= q.now ==>
      (Answer(Store(bs, q, true), Retry(q, t, q.n), true).allowed <==> t >= Answer(bs, q, true).timeAllowed)
  }

  lemma RightForOne(bs: Buckets, q: Request)
    requires q.rate > 0.0 && Sane(bs, q.key, q.now, q.rate) && !Answer(bs, q, true).allowed
    requires q.n == 1 && q.burst >= 1
    ensures TimeIsRight(bs, q)
  {
    AnswerFromHeld(bs, q, true);
    forall t | t >= q.now
      ensures Answer(Store(bs, q, true), Retry(q, t, q.n), true).allowed <==> t >= Answer(bs, q, true).timeAllowed
    {
      FitsLater(bs, q, t);
      LeaksTo(Held(bs, q.key, q.now, q.rate), q.now, q.rate, (q.burst - 1) as real, t);
    }
  }

  /** More than the burst is never allowed, so no time is right. */
  lemma WrongForTooMany(bs: Buckets, q: Request)
    requires q.rate > 0.0 && Sane(bs, q.key, q.now, q.rate) && q.n > q.burst
    ensures !Answer(bs, q, true).allowed && !TimeIsRight(bs, q)
    ensures forall t :: t >= q.now ==> !Answer(Store(bs, q, true), Retry(q, t, q.n), true).allowed
  {
    AnswerFromHeld(bs, q, true);
    forall t | t >= q.now ensures !Answer(Store(bs, q, true), Retry(q, t, q.n), true).allowed {
      FitsLater(bs, q, t);
    }
    var returned := Answer(bs, q, true).timeAllowed;
    assert returned >= q.now && !Answer(Store(bs, q, true), Retry(q, returned, q.n), true).allowed;
  }

  /** The time from which a denied request that fits the burst is allowed. */
  lemma AllowedFrom(bs: Buckets, q: Request, t: real)
    requires q.rate > 0.0 && Sane(bs, q.key, q.now, q.rate) && !Answer(bs, q, true).allowed
    requires q.n <= q.burst && t >= q.now
    ensures var from := q.now + (Held(bs, q.key, q.now, q.rate) - (q.burst - q.n) as real) / q.rate;
            && from > q.now
            && (Answer(Store(bs, q, true), Retry(q, t, q.n), true).allowed <==> t >= from)
  {
    var h, c := Held(bs, q.key, q.now, q.rate), (q.burst - q.n) as real;
    AnswerFromHeld(bs, q, true);
    DivideOrder(0.0, h - c, q.rate);
    FitsLater(bs, q, t);
    LeaksTo(h, q.now, q.rate, c, t);
  }

  /** Several actions fit later than the returned time, and none or fewer than none earlier. */
  lemma WrongForOthers(bs: Buckets, q: Request)
    requires q.rate > 0.0 && Sane(bs, q.key, q.now, q.rate) && !Answer(bs, q, true).allowed
    requires q.n <= q.burst && q.n != 1
    ensures !TimeIsRight(bs, q)
  {
    var h, c := Held(bs, q.key, q.now, q.rate), (q.burst - q.n) as real;
    var from, returned := q.now + (h - c) / q.rate, Answer(bs, q, true).timeAllowed;
    AnswerFromHeld(bs, q, true);
    AllowedFrom(bs, q, q.now);
    AllowedFrom(bs, q, returned);
    AllowedFrom(bs, q, from);
    DivideOrder(h - c, h - q.burst as real + 1.0, q.rate);
    DivideOrder(h - q.burst as real + 1.0, h - c, q.rate);
  }

  /** For every denied request the returned time is when the request itself would next be
      allowed, if nothing else touches the key, if and only if it asked for one action and
      the burst has room for one. */
  lemma RetryTimeExact(bs: Buckets, q: Request)
    requires q.rate > 0.0 && Sane(bs, q.key, q.now, q.rate) && !Answer(bs, q, true).allowed
    ensures TimeIsRight(bs, q) <==> q.n == 1 && q.burst >= 1
  {
    if q.n > q.burst {
      WrongForTooMany(bs, q);
    } else if q.n == 1 {
      RightForOne(bs, q);
    } else {
      WrongForOthers(bs, q);
    }
  }

  /** The reported wait in milliseconds falls short of the true wait by less than one. */
  lemma RetryAfterIsClose(bs: Buckets, q: Request)
    requires q.update && q.rate > 0.0 && q.burst >= 1 && Sane(bs, q.key, q.now, q.rate)
    ensures var wait := 1000.0 * (Answer(bs, q, true).timeAllowed - q.now);
            0 <= Trunc(wait) && wait - 1.0 < Trunc(wait) as real <= wait
  {
    ReturnedTimeIsLeast(bs, q, q.now);
  }

  const ONE_HELD: Buckets := map["k" := Bucket(1.0, 0.0, 1.0)]
  const TWO_WANTED := Request("k", 0.0, 1.0, 2, true, 2)

  /** A denial with the wrong time: with one action in a bucket that holds two and leaks one a
      second, two more are refused until time 0, but fit only from time 1. */
  lemma RetryTooEarly()
    ensures !Answer(ONE_HELD, TWO_WANTED, true).allowed && Answer(ONE_HELD, TWO_WANTED, true).timeAllowed == 0.0
    ensures !Answer(Store(ONE_HELD, TWO_WANTED, true), Retry(TWO_WANTED, 0.0, 2), true).allowed
    ensures Answer(Store(ONE_HELD, TWO_WANTED, true), Retry(TWO_WANTED, 1.0, 2), true).allowed
  {
    assert Held(ONE_HELD, "k", 0.0, 1.0) == 1.0;
    RequestEffect(ONE_HELD, TWO_WANTED, true);
    TwoFitAfterASecond(Store(ONE_HELD, TWO_WANTED, true));
    TimeForTwo();
  }

  lemma TwoFitAfterASecond(bs: Buckets)
    requires Sane(bs, "k", 0.0, 1.0) && Held(bs, "k", 0.0, 1.0) == 1.0
    ensures !Answer(bs, Retry(TWO_WANTED, 0.0, 2), true).allowed
    ensures Answer(bs, Retry(TWO_WANTED, 1.0, 2), true).allowed
  {
    HeldLater(bs, "k", 0.0, 1.0, 1.0);
    assert Held(bs, "k", 1.0, 1.0) == 0.0;
    RequestEffect(bs, Retry(TWO_WANTED, 0.0, 2), true);
    RequestEffect(bs, Retry(TWO_WANTED, 1.0, 2), true);
  }

  lemma TimeForTwo()
    ensures Answer(ONE_HELD, TWO_WANTED, true).timeAllowed == 0.0
  {
    assert Held(ONE_HELD, "k", 0.0, 1.0) == 1.0;
    AnswerFromHeld(ONE_HELD, TWO_WANTED, true);
    assert ReplyAt(1.0, TWO_WANTED).timeAllowed == 0.0;
  }
}
