/** The hold-back queue of synapse/notifier.py: room events may be persisted out of order, and
    an event is announced only once everything before it has been persisted. */
module HoldBack {
  import opened Basics

  /** A room stream token: a position for the writers it names, and one for the others. */
  datatype RoomToken = RoomToken(stream: int, instances: map<string, int>) {
    function PositionOf(instance: string): int {
      if instance in instances then instances[instance] else stream
    }
  }

  datatype Entry = Entry(
    instance: string,
    position: int,
    roomId: string,
    extraUsers: set<string>,
    isMember: bool,
    stateKey: Option<string>,
    joined: bool
  ) {
    /** PersistedPosition.persisted_after */
    predicate After(t: RoomToken) {
      t.PositionOf(instance) < position
    }

    /** The entry is the join of the given user. */
    predicate IsJoinOf(u: string) {
      isMember && joined && stateKey == Some(u) && u != ""
    }

    /** The entry is a join, and of whom. */
    function JoinOf(): Option<string> {
      if isMember && joined && stateKey.Some? && stateKey.value != "" then stateKey else None
    }
  }

  function HeldBack(pending: seq<Entry>, t: RoomToken): seq<Entry> {
    if pending == [] then []
    else
      var n := |pending| - 1;
      HeldBack(pending[..n], t) + if pending[n].After(t) then [pending[n]] else []
  }

  function Released(pending: seq<Entry>, t: RoomToken): seq<Entry> {
    if pending == [] then []
    else
      var n := |pending| - 1;
      Released(pending[..n], t) + if pending[n].After(t) then [] else [pending[n]]
  }

  function ExtraUsers(es: seq<Entry>): set<string> {
    set i, u | 0 <= i < |es| && u in es[i].extraUsers :: u
  }

  function RoomsOf(es: seq<Entry>): set<string> {
    set i | 0 <= i < |es| :: es[i].roomId
  }

  /** The rooms that the joins among `es` add to a user. */
  function Joined(es: seq<Entry>, u: string): set<string> {
    set i | 0 <= i < |es| && es[i].IsJoinOf(u) :: es[i].roomId
  }

  lemma MoreEntries(es: seq<Entry>, e: Entry)
    ensures ExtraUsers(es + [e]) == ExtraUsers(es) + e.extraUsers
    ensures RoomsOf(es + [e]) == RoomsOf(es) + {e.roomId}
    ensures forall u :: Joined(es + [e], u) == Joined(es, u) + if e.IsJoinOf(u) then {e.roomId} else {}
  {
    var more := es + [e];
    assert forall i :: 0 <= i < |es| ==> more[i] == es[i];
    assert more[|es|] == e;
    forall u ensures Joined(more, u) == Joined(es, u) + if e.IsJoinOf(u) then {e.roomId} else {} {
      assert e.IsJoinOf(u) ==> more[|es|].roomId in Joined(more, u);
    }
    forall u | u in e.extraUsers ensures u in ExtraUsers(more) {
      assert u in more[|es|].extraUsers;
    }
    assert more[|es|].roomId in RoomsOf(more);
  }

  datatype Call = Append(entry: Entry) | Notify(token: RoomToken)

  /** The queue after a run of calls. */
  function Pending(calls: seq<Call>): seq<Entry> {
    if calls == [] then []
    else
      var n := |calls| - 1;
      var before := Pending(calls[..n]);
      match calls[n]
      case Append(e) => before + [e]
      case Notify(t) => HeldBack(before, t)
  }

  /** What the last call of a run announces. */
  function Announced(calls: seq<Call>): seq<Entry> {
    if calls == [] || calls[|calls| - 1].Append? then []
    else Released(Pending(calls[..|calls| - 1]), calls[|calls| - 1].token)
  }

  lemma LastCall(calls: seq<Call>, c: Call)
    ensures c.Append? ==> Pending(calls + [c]) == Pending(calls) + [c.entry] && Announced(calls + [c]) == []
    ensures c.Notify? ==> Pending(calls + [c]) == HeldBack(Pending(calls), c.token)
    ensures c.Notify? ==> Announced(calls + [c]) == Released(Pending(calls), c.token)
  {
    assert (calls + [c])[..|calls|] == calls;
  }

  // ------------------------------------------------- in terms of the calls alone

  /** The token has reached the entry: the position of the entry is at most that of its writer,
      if the token names the writer, and at most that of the stream if it does not. */
  predicate Reaches(t: RoomToken, e: Entry) {
    || (e.instance in t.instances && e.position <= t.instances[e.instance])
    || (e.instance !in t.instances && e.position <= t.stream)
  }

  lemma HeldUntilReached(t: RoomToken, e: Entry)
    ensures e.After(t) <==> !Reaches(t, e)
  {
  }

  /** The token is at or beyond the other for every writer that either names and for the rest. */
  ghost predicate Beyond(t: RoomToken, u: RoomToken) {
    && u.stream <= t.stream
    && (forall w :: w in t.instances && w in u.instances ==> u.instances[w] <= t.instances[w])
    && (forall w :: w in t.instances && w !in u.instances ==> u.stream <= t.instances[w])
    && (forall w :: w !in t.instances && w in u.instances ==> u.instances[w] <= t.stream)
  }

  /** A token beyond another announces everything that the other would, and holds back nothing
      that it would not. */
  lemma {:induction false} LaterTokensRelease(pending: seq<Entry>, t: RoomToken, u: RoomToken, e: Entry)
    requires Beyond(t, u)
    ensures Reaches(u, e) ==> Reaches(t, e)
    ensures e in Released(pending, u) ==> e in Released(pending, t)
    ensures e in HeldBack(pending, t) ==> e in HeldBack(pending, u)
  {
    if pending != [] {
      LaterTokensRelease(pending[..|pending| - 1], t, u, e);
    }
  }

  /** What a call announces and holds back, entry by entry. */
  lemma {:induction false} ReleasedExactly(pending: seq<Entry>, t: RoomToken, e: Entry)
    ensures e in Released(pending, t) <==> e in pending && Reaches(t, e)
    ensures e in HeldBack(pending, t) <==> e in pending && !Reaches(t, e)
  {
    if pending != [] {
      var n := |pending| - 1;
      ReleasedExactly(pending[..n], t, e);
      assert pending == pending[..n] + [pending[n]];
    }
  }

  /** Call `j` covers the entry appended by call `i`. */
  predicate Covers(calls: seq<Call>, i: nat, j: nat)
    requires i < |calls| && j < |calls|
  {
    calls[i].Append? && calls[j].Notify? && Reaches(calls[j].token, calls[i].entry)
  }

  /** No call after `i` and before `j` covers the entry appended by call `i`. */
  predicate Waits(calls: seq<Call>, i: nat, j: nat)
    requires i < |calls| && j <= |calls|
  {
    calls[i].Append? && forall k :: i < k < j ==> !Covers(calls, i, k)
  }

  /** In order, the entries of the appends below `n` that no call before `j` has covered. */
  function Waiting(calls: seq<Call>, n: nat, j: nat): seq<Entry>
    requires n <= |calls| && j <= |calls|
  {
    if n == 0 then []
    else Waiting(calls, n - 1, j) + if Waits(calls, n - 1, j) then [calls[n - 1].entry] else []
  }

  /** In order, the entries of the appends below `n` that call `j` is the first to cover. */
  function FirstCoveredBy(calls: seq<Call>, n: nat, j: nat): seq<Entry>
    requires n <= j < |calls|
  {
    if n == 0 then []
    else
      FirstCoveredBy(calls, n - 1, j)
      + if Waits(calls, n - 1, j) && Covers(calls, n - 1, j) then [calls[n - 1].entry] else []
  }

  lemma FilterMore(pending: seq<Entry>, e: Entry, t: RoomToken)
    ensures HeldBack(pending + [e], t) == HeldBack(pending, t) + if e.After(t) then [e] else []
    ensures Released(pending + [e], t) == Released(pending, t) + if e.After(t) then [] else [e]
  {
    assert (pending + [e])[..|pending|] == pending;
  }

  lemma FilterStep(entries: seq<Entry>, i: nat, t: RoomToken)
    requires i < |entries|
    ensures entries[i].After(t) ==>
      HeldBack(entries[..i + 1], t) == HeldBack(entries[..i], t) + [entries[i]]
      && Released(entries[..i + 1], t) == Released(entries[..i], t)
    ensures !entries[i].After(t) ==>
      HeldBack(entries[..i + 1], t) == HeldBack(entries[..i], t)
      && Released(entries[..i + 1], t) == Released(entries[..i], t) + [entries[i]]
  {
    assert entries[..i + 1] == entries[..i] + [entries[i]];
    FilterMore(entries[..i], entries[i], t);
  }

  lemma WaitsOn(calls: seq<Call>, i: nat, j: nat)
    requires i < j < |calls|
    ensures Waits(calls, i, j + 1) <==> Waits(calls, i, j) && !Covers(calls, i, j)
  {
  }

  lemma {:induction false} FilterWaiting(calls: seq<Call>, n: nat, j: nat)
    requires n <= j < |calls| && calls[j].Notify?
    ensures HeldBack(Waiting(calls, n, j), calls[j].token) == Waiting(calls, n, j + 1)
    ensures Released(Waiting(calls, n, j), calls[j].token) == FirstCoveredBy(calls, n, j)
  {
    if n > 0 {
      FilterWaiting(calls, n - 1, j);
      WaitsOn(calls, n - 1, j);
      var before, t := Waiting(calls, n - 1, j), calls[j].token;
      if Waits(calls, n - 1, j) {
        var e := calls[n - 1].entry;
        FilterMore(before, e, t);
        HeldUntilReached(t, e);
        assert Covers(calls, n - 1, j) <==> !e.After(t);
      } else {
        assert before + [] == before;
      }
    }
  }

  lemma {:induction false} AppendKeepsWaiting(calls: seq<Call>, n: nat, j: nat)
    requires n <= j < |calls| && calls[j].Append?
    ensures Waiting(calls, n, j + 1) == Waiting(calls, n, j)
  {
    if n > 0 {
      AppendKeepsWaiting(calls, n - 1, j);
    }
  }

  /** After every prefix of a run the queue holds, in their order, exactly the entries that no
      later call has covered. */
  lemma {:induction false} QueueIsWaiting(calls: seq<Call>, j: nat)
    requires j <= |calls|
    ensures Pending(calls[..j]) == Waiting(calls, j, j)
  {
    if j > 0 {
      var k := j - 1;
      QueueIsWaiting(calls, k);
      assert calls[..j][..k] == calls[..k];
      match calls[k]
      case Append(e) => AppendKeepsWaiting(calls, k, k);
      case Notify(t) => FilterWaiting(calls, k, k);
    }
  }

  /** Each call announces, in their order, exactly the entries that it is the first to cover. */
  lemma AnnouncedByFirstCover(calls: seq<Call>, j: nat)
    requires j < |calls|
    ensures calls[j].Notify? ==> Announced(calls[..j + 1]) == FirstCoveredBy(calls, j, j)
    ensures calls[j].Append? ==> Announced(calls[..j + 1]) == []
  {
    assert calls[..j + 1][..j] == calls[..j];
    if calls[j].Notify? {
      QueueIsWaiting(calls, j);
      FilterWaiting(calls, j, j);
    }
  }

  // ------------------------------------------------------------ conservation

  function AllAppended(calls: seq<Call>): multiset<Entry> {
    if calls == [] then multiset{}
    else
      var n := |calls| - 1;
      AllAppended(calls[..n]) + if calls[n].Append? then multiset{calls[n].entry} else multiset{}
  }

  function AllAnnounced(calls: seq<Call>): multiset<Entry> {
    if calls == [] then multiset{} else AllAnnounced(calls[..|calls| - 1]) + multiset(Announced(calls))
  }

  /** The two lists hold together what `all` holds, with multiplicity. */
  ghost predicate Splits(a: seq<Entry>, b: seq<Entry>, all: seq<Entry>) {
    forall e :: multiset(a)[e] + multiset(b)[e] == multiset(all)[e]
  }

  lemma OneMore(a: seq<Entry>, b: seq<Entry>, all: seq<Entry>, e: Entry, after: bool)
    requires Splits(a, b, all)
    ensures Splits(a + if after then [e] else [], b + if after then [] else [e], all + [e])
  {
    assert a + [] == a && b + [] == b;
  }

  lemma LastEntry(pending: seq<Entry>, t: RoomToken)
    requires pending != []
    ensures var n, e := |pending| - 1, pending[|pending| - 1];
            && HeldBack(pending, t) == HeldBack(pending[..n], t) + (if e.After(t) then [e] else [])
            && Released(pending, t) == Released(pending[..n], t) + (if e.After(t) then [] else [e])
            && pending == pending[..n] + [e]
  {
  }

  lemma {:induction false} FilterSplits(pending: seq<Entry>, t: RoomToken)
    ensures Splits(HeldBack(pending, t), Released(pending, t), pending)
  {
    if pending != [] {
      var n := |pending| - 1;
      FilterSplits(pending[..n], t);
      OneMore(HeldBack(pending[..n], t), Released(pending[..n], t), pending[..n], pending[n], pending[n].After(t));
      LastEntry(pending, t);
    }
  }

  /** In every run nothing is lost and nothing is announced twice. */
  lemma {:induction false} NothingLostOrRepeated(calls: seq<Call>)
    ensures AllAppended(calls) == AllAnnounced(calls) + multiset(Pending(calls))
  {
    if calls != [] {
      var n := |calls| - 1;
      NothingLostOrRepeated(calls[..n]);
      if calls[n].Notify? {
        FilterSplits(Pending(calls[..n]), calls[n].token);
      }
    }
  }
}
