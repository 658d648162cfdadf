/** The notifier of synapse/notifier.py: streams indexed by user and by room, the listeners
    sleeping on them, and the hold-back queue. */
module Notifier {
  import opened Basics
  import opened HoldBack

  /** A stream token; only equality of tokens matters here. */
  datatype StreamToken = StreamToken(fields: seq<int>)

  /** A deferred that has not been resolved, and the token it was registered with. */
  datatype Listener = Listener(id: nat, token: StreamToken)

  class UserStream {
    const userId: string
    var rooms: set<string>
    var currentToken: StreamToken
    var lastNotifiedMs: int
    var listeners: set<Listener>

    constructor (userId: string, rooms: set<string>, token: StreamToken, now: int)
      ensures this.userId == userId && this.rooms == rooms && currentToken == token
      ensures lastNotifiedMs == now && listeners == {}
    {
      this.userId, this.rooms, currentToken, lastNotifiedMs, listeners := userId, rooms, token, now, {};
    }

    /** Every unresolved listener was registered at the stream's current token. */
    ghost predicate Fresh()
      reads this
    {
      forall l :: l in listeners ==> l.token == currentToken
    }

    /** update_and_fetch_deferreds */
    method Poke(token: StreamToken, now: int) returns (woken: set<Listener>)
      modifies this
      ensures woken == old(listeners) && listeners == {}
      ensures currentToken == token && lastNotifiedMs == now && rooms == old(rooms)
    {
      currentToken, lastNotifiedMs := token, now;
      woken, listeners := listeners, {};
    }

    /** new_listener: None when the caller must sleep, and otherwise the token it resolves to. */
    method NewListener(id: nat, token: StreamToken) returns (r: Option<StreamToken>)
      requires Fresh()
      modifies this`listeners
      ensures Fresh()
      ensures r == if token == currentToken then None else Some(currentToken)
      ensures listeners == if r.None? then old(listeners) + {Listener(id, token)} else old(listeners)
    {
      if token != currentToken {
        return Some(currentToken);
      }
      listeners := listeners + {Listener(id, token)};
      r := None;
    }

    /** The canceller of a listener, run when it times out. */
    method Cancel(l: Listener)
      requires Fresh()
      modifies this`listeners
      ensures Fresh() && listeners == old(listeners) - {l}
    {
      listeners := listeners - {l};
    }
  }

  const UNUSED_STREAM_EXPIRY_MS := 10 * 60 * 1000

  ghost predicate Meet(a: set<string>, b: set<string>) {
    exists r :: r in a && r in b
  }

  ghost predicate Indexed(index: map<string, set<UserStream>>, older s: UserStream, room: string) {
    room in index && s in index[room]
  }

  /** The loop over the streams that an event concerns. */
  method PokeAll(streams: set<UserStream>, token: StreamToken, now: int) returns (resolved: set<(UserStream, Listener)>)
    modifies streams
    ensures forall s, l :: (s, l) in resolved <==> s in streams && l in old(s.listeners)
    ensures forall s :: s in streams ==>
      s.currentToken == token && s.lastNotifiedMs == now && s.listeners == {} && s.rooms == old(s.rooms)
  {
    resolved := {};
    var rest := streams;
    while rest != {}
      invariant rest <= streams
      invariant forall s :: s in streams ==> s.rooms == old(s.rooms)
      invariant forall s :: s in streams - rest ==>
        s.currentToken == token && s.lastNotifiedMs == now && s.listeners == {}
      invariant forall s :: s in rest ==> s.listeners == old(s.listeners)
      invariant forall s, l :: (s, l) in resolved <==> s in streams - rest && l in old(s.listeners)
    {
      var s :| s in rest;
      var ls := s.Poke(token, now);
      resolved := resolved + set l | l in ls :: (s, l);
      rest := rest - {s};
    }
  }

  /** What happens at the notifier between suspension points: an event is published, a user
      joins a room, a caller begins to wait, a caller sleeps again on the stream it holds, a
      sleep of a caller times out, unused streams are removed, an entry is held back, held-back
      entries are announced. */
  datatype Action =
    | Event(users: set<string>, rooms: set<string>, token: StreamToken, now: int)
    | JoinRoom(userId: string, room: string)
    | Listen(caller: nat, userId: string, rooms: set<string>, id: nat, from: StreamToken, token: StreamToken, now: int)
    | Sleep(caller: nat, id: nat, from: StreamToken)
    | TimeOut(caller: nat, listener: Listener)
    | Expire(now: int)
    | Queue(entry: Entry)
    | Flush(upTo: RoomToken, token: StreamToken, now: int)

  /** The entry names the user, is in one of `rooms`, or is the user's own join. */
  predicate Concerns(e: Entry, u: string, rooms: set<string>) {
    u in e.extraUsers || e.roomId in rooms || e.IsJoinOf(u)
  }

  ghost predicate SomeConcern(es: seq<Entry>, u: string, rooms: set<string>) {
    exists i :: 0 <= i < |es| && Concerns(es[i], u, rooms)
  }

  /** What decides the fate of the listeners of one stream: whether it is live, its rooms, the
      held-back entries, and the callers that hold it. */
  datatype View = View(live: bool, userId: string, rooms: set<string>, pending: seq<Entry>, holders: set<nat>)

  ghost function ViewAfter(a: Action, v: View): View {
    match a
    case JoinRoom(u, room) => if v.live && u == v.userId then v.(rooms := v.rooms + {room}) else v
    case Queue(e) => v.(pending := v.pending + [e])
    case Flush(t, _, _) =>
      v.(pending := HeldBack(v.pending, t),
         rooms := if v.live then v.rooms + Joined(Released(v.pending, t), v.userId) else v.rooms)
    case Listen(c, u, _, _, _, _, _) =>
      v.(holders := if v.live && u == v.userId then v.holders + {c} else v.holders - {c})
    case _ => v
  }

  /** The step wakes the listeners of the stream: it is live, and the step concerns it. */
  ghost predicate WakesNow(a: Action, v: View) {
    && v.live
    && match a {
         case Event(users, rooms, _, _) => v.userId in users || Meet(v.rooms, rooms)
         case Flush(t, _, _) => SomeConcern(Released(v.pending, t), v.userId, v.rooms)
         case _ => false
       }
  }

  ghost predicate EndsNow(a: Action, v: View, l: Listener) {
    a.TimeOut? && a.caller in v.holders && a.listener == l
  }

  datatype Fate = Asleep | Woken | TimedOut

  /** What becomes of a sleeping listener of the stream in a run. */
  ghost function FateOf(actions: seq<Action>, v: View, l: Listener): Fate {
    if actions == [] then Asleep
    else if WakesNow(actions[0], v) then Woken
    else if EndsNow(actions[0], v, l) then TimedOut
    else FateOf(actions[1..], ViewAfter(actions[0], v), l)
  }

  /** The listener that the step may add. */
  ghost function Added(a: Action): set<Listener> {
    if a.Listen? || a.Sleep? then {Listener(a.id, a.from)} else {}
  }

  class Notifier {
    var userToStream: map<string, UserStream>
    var roomToStreams: map<string, set<UserStream>>
    var pending: seq<Entry>
    ghost var calls: seq<Call>   // what the hold-back queue has been asked so far

    /** A live stream is indexed under exactly its rooms, and no other stream is indexed. */
    ghost predicate Valid()
      reads this, userToStream.Values
    {
      && (forall u :: u in userToStream ==> userToStream[u].userId == u && userToStream[u].Fresh())
      && (forall u, r :: u in userToStream ==>
            (Indexed(roomToStreams, userToStream[u], r) <==> r in userToStream[u].rooms))
      && (forall r, s :: Indexed(roomToStreams, s, r) ==>
            s.userId in userToStream && userToStream[s.userId] == s)
    }

    constructor ()
      ensures Valid() && QueueValid() && userToStream == map[] && calls == []
    {
      userToStream, roomToStreams, pending, calls := map[], map[], [], [];
    }

    /** The streams that a scan over all live streams would pick. */
    ghost function Scan(users: set<string>, rooms: set<string>): set<UserStream>
      reads this, userToStream.Values
    {
      set u | u in userToStream && (u in users || Meet(userToStream[u].rooms, rooms)) :: userToStream[u]
    }

    /** The lookups of on_new_event. */
    method Select(users: set<string>, rooms: set<string>) returns (picked: set<UserStream>)
      requires Valid()
      ensures picked == Scan(users, rooms)
    {
      picked := set u | u in users && u in userToStream :: userToStream[u];
      var rest := rooms;
      while rest != {}
        invariant rest <= rooms
        invariant forall s :: s in picked ==> s.userId in userToStream && userToStream[s.userId] == s
        invariant forall u :: u in userToStream ==>
          (userToStream[u] in picked <==> u in users || Meet(userToStream[u].rooms, rooms - rest))
      {
        var room :| room in rest;
        var found := if room in roomToStreams then roomToStreams[room] else {};
        assert forall s :: s in found <==> Indexed(roomToStreams, s, room);
        MeetMore(rooms - rest, room);
        assert rooms - (rest - {room}) == (rooms - rest) + {room};
        picked := picked + found;
        rest := rest - {room};
      }
    }

    /** on_new_event: wakes exactly the listeners of the streams that a full scan would pick,
        moves those streams to the current token, and touches no other stream. */
    method OnNewEvent(users: set<string>, rooms: set<string>, token: StreamToken, now: int)
      returns (woken: set<UserStream>, resolved: set<(UserStream, Listener)>)
      requires Valid()
      modifies userToStream.Values
      ensures Valid()
      ensures woken == old(Scan(users, rooms))
      ensures forall s, l :: (s, l) in resolved <==> s in woken && l in old(s.listeners)
      ensures forall s :: s in woken ==> s.currentToken == token && s.lastNotifiedMs == now && s.listeners == {}
      ensures forall s :: s in userToStream.Values - woken ==>
        && s.currentToken == old(s.currentToken) && s.lastNotifiedMs == old(s.lastNotifiedMs)
        && s.listeners == old(s.listeners)
      ensures forall s :: s in userToStream.Values ==> s.rooms == old(s.rooms)
    {
      woken := Select(users, rooms);
      resolved := PokeAll(woken, token, now);
    }

    /** The index entries for one room gain a stream. */
    method AddToRoom(s: UserStream, room: string)
      modifies this`roomToStreams
      ensures forall x, r :: Indexed(roomToStreams, x, r) <==>
        Indexed(old(roomToStreams), x, r) || (x == s && r == room)
    {
      var current := if room in roomToStreams then roomToStreams[room] else {};
      roomToStreams := roomToStreams[room := current + {s}];
    }

    /** wait_for_events' lookup, and _register_with_keys for a new stream, as one step. */
    method Register(userId: string, rooms: set<string>, token: StreamToken, now: int) returns (s: UserStream)
      requires Valid()
      modifies this`userToStream, this`roomToStreams
      ensures Valid()
      ensures userId in userToStream && userToStream[userId] == s
      ensures old(userId in userToStream) ==> userToStream == old(userToStream) && s == old(userToStream)[userId]
      ensures old(userId !in userToStream) ==>
        && userToStream == old(userToStream)[userId := s] && fresh(s)
        && s.rooms == rooms && s.listeners == {} && s.currentToken == token && s.lastNotifiedMs == now
    {
      if userId in userToStream {
        return userToStream[userId];
      }
      s := new UserStream(userId, rooms, token, now);
      var rest := rooms;
      while rest != {}
        invariant rest <= rooms
        invariant forall x, r :: Indexed(roomToStreams, x, r) <==>
                    Indexed(old(roomToStreams), x, r) || (x == s && r in rooms - rest)
        modifies this`roomToStreams
      {
        var room :| room in rest;
        AddToRoom(s, room);
        rest := rest - {room};
      }
      userToStream := userToStream[userId := s];
    }

    /** _user_joined_room */
    method UserJoinedRoom(userId: string, room: string)
      requires Valid()
      modifies this`roomToStreams, userToStream.Values`rooms
      ensures Valid()
      ensures forall u :: u in userToStream ==>
        userToStream[u].rooms == old(userToStream[u].rooms) + if u == userId then {room} else {}
    {
      if userId in userToStream {
        var s := userToStream[userId];
        AddToRoom(s, room);
        s.rooms := s.rooms + {room};
      }
    }

    /** _NotifierUserStream.remove */
    method Remove(s: UserStream)
      requires Valid() && s in userToStream.Values
      modifies this`userToStream, this`roomToStreams
      ensures Valid()
      ensures userToStream == old(userToStream) - {s.userId}
      ensures forall r :: !Indexed(roomToStreams, s, r)
    {
      var rest := s.rooms;
      while rest != {}
        invariant rest <= s.rooms
        invariant forall x, r :: Indexed(roomToStreams, x, r) <==>
                    Indexed(old(roomToStreams), x, r) && !(x == s && r in s.rooms - rest)
        modifies this`roomToStreams
      {
        var room :| room in rest;
        if room in roomToStreams {
          roomToStreams := roomToStreams[room := roomToStreams[room] - {s}];
        }
        rest := rest - {room};
      }
      userToStream := userToStream - {s.userId};
    }

    ghost predicate Expired(s: UserStream, now: int)
      reads s
    {
      s.listeners == {} && s.lastNotifiedMs < now - UNUSED_STREAM_EXPIRY_MS
    }

    /** remove_expired_streams: exactly the streams that nobody listens on and that were last
        poked too long ago go, and they go from every index. */
    method RemoveExpiredStreams(now: int)
      requires Valid()
      modifies this`userToStream, this`roomToStreams
      ensures Valid()
      ensures userToStream ==
        map u | u in old(userToStream) && !Expired(old(userToStream)[u], now) :: old(userToStream)[u]
      ensures forall u, r :: u in old(userToStream) && Expired(old(userToStream)[u], now) ==>
        !Indexed(roomToStreams, old(userToStream)[u], r)
    {
      var streams := userToStream;
      var expired := set u | u in streams && streams[u].listeners == {}
                             && streams[u].lastNotifiedMs < now - UNUSED_STREAM_EXPIRY_MS;
      var rest := expired;
      while rest != {}
        invariant Valid() && rest <= expired && userToStream == streams - (expired - rest)
      {
        var u :| u in rest;
        Remove(userToStream[u]);
        rest := rest - {u};
      }
    }

    /** The queue is the one that its calls lead to. */
    ghost predicate QueueValid()
      reads this
    {
      pending == Pending(calls)
    }

    /** The start of notify_new_room_events. */
    method Enqueue(e: Entry)
      requires QueueValid()
      modifies this`pending, this`calls
      ensures QueueValid() && calls == old(calls) + [Append(e)]
    {
      LastCall(calls, Append(e));
      pending := pending + [e];
      calls := calls + [Append(e)];
    }

    /** The entry's room is added to the user whose join it is. */
    method NoteJoin(e: Entry)
      requires Valid()
      modifies this`roomToStreams, userToStream.Values`rooms
      ensures Valid()
      ensures forall u :: u in userToStream ==>
        userToStream[u].rooms == old(userToStream[u].rooms) + if e.IsJoinOf(u) then {e.roomId} else {}
    {
      if e.JoinOf().Some? {
        UserJoinedRoom(e.JoinOf().value, e.roomId);
      }
    }

    /** The loop of _notify_pending_new_room_events. */
    method PartitionPending(t: RoomToken) returns (users: set<string>, rooms: set<string>)
      requires Valid()
      modifies this`pending, this`roomToStreams, userToStream.Values`rooms
      ensures Valid() && pending == HeldBack(old(pending), t)
      ensures var released := Released(old(pending), t);
              && users == ExtraUsers(released) && rooms == RoomsOf(released)
              && (forall u :: u in userToStream ==>
                    userToStream[u].rooms == old(userToStream[u].rooms) + Joined(released, u))
    {
      var entries := pending;
      pending, users, rooms := [], {}, {};
      ghost var released := [];
      for i := 0 to |entries|
        invariant Valid()
        invariant pending == HeldBack(entries[..i], t) && released == Released(entries[..i], t)
        invariant users == ExtraUsers(released) && rooms == RoomsOf(released)
        invariant forall u :: u in userToStream ==>
          userToStream[u].rooms == old(userToStream[u].rooms) + Joined(released, u)
      {
        var e := entries[i];
        FilterStep(entries, i, t);
        if e.After(t) {
          pending := pending + [e];
        } else {
          NoteJoin(e);
          MoreEntries(released, e);
          users, rooms := users + e.extraUsers, rooms + {e.roomId};
          released := released + [e];
        }
      }
      assert entries[..|entries|] == entries;
    }

    /** Sorting the entries and waking those concerned. */
    method NotifyReleased(t: RoomToken, token: StreamToken, now: int)
      returns (woken: set<UserStream>, resolved: set<(UserStream, Listener)>)
      requires Valid()
      modifies this`pending, this`roomToStreams, userToStream.Values
      ensures Valid() && pending == HeldBack(old(pending), t)
      ensures forall u :: u in userToStream ==>
        && userToStream[u].rooms == old(userToStream[u].rooms) + Joined(Released(old(pending), t), u)
        && (userToStream[u] in woken <==> SomeConcern(Released(old(pending), t), u, old(userToStream[u].rooms)))
      ensures forall s :: s in woken ==> s in userToStream.Values && s.currentToken == token && s.listeners == {}
      ensures forall s, l :: (s, l) in resolved <==> s in woken && l in old(s.listeners)
      ensures forall s :: s in userToStream.Values && s !in woken ==>
        s.currentToken == old(s.currentToken) && s.listeners == old(s.listeners)
    {
      AllConcernsBySets(Released(pending, t));
      var users, rooms := PartitionPending(t);
      if users == {} && rooms == {} {
        woken, resolved := {}, {};
      } else {
        woken, resolved := OnNewEvent(users, rooms, token, now);
      }
    }

    /** _notify_pending_new_room_events: the streams woken are exactly the live ones that some
        released entry concerns; in particular a user whose join is released is woken, and
        indexed under the new room, in this very call. */
    method NotifyPending(t: RoomToken, token: StreamToken, now: int)
      returns (woken: set<UserStream>, resolved: set<(UserStream, Listener)>)
      requires Valid() && QueueValid()
      modifies this`pending, this`calls, this`roomToStreams, userToStream.Values
      ensures Valid() && QueueValid() && calls == old(calls) + [Notify(t)]
      ensures forall u :: u in userToStream ==>
        && userToStream[u].rooms == old(userToStream[u].rooms) + Joined(Announced(calls), u)
        && (userToStream[u] in woken <==> SomeConcern(Announced(calls), u, old(userToStream[u].rooms)))
      ensures forall s :: s in woken ==> s in userToStream.Values && s.currentToken == token && s.listeners == {}
      ensures forall s, l :: (s, l) in resolved <==> s in woken && l in old(s.listeners)
      ensures forall s :: s in userToStream.Values && s !in woken ==>
        s.currentToken == old(s.currentToken) && s.listeners == old(s.listeners)
    {
      LastCall(calls, Notify(t));
      woken, resolved := NotifyReleased(t, token, now);
      calls := calls + [Notify(t)];
    }

    ghost predicate Live(s: UserStream)
      reads this
    {
      s.userId in userToStream && userToStream[s.userId] == s
    }

    /** The start of wait_for_events: the caller sleeps on the user's stream, or goes on. */
    method Wait(userId: string, rooms: set<string>, id: nat, from: StreamToken, token: StreamToken, now: int)
      returns (s: UserStream, r: Option<StreamToken>)
      requires Valid()
      modifies this`userToStream, this`roomToStreams, userToStream.Values`listeners
      ensures Valid() && userId in userToStream && s == userToStream[userId]
      ensures r == if from == s.currentToken then None else Some(s.currentToken)
      ensures r.None? ==> Listener(id, from) in s.listeners
      ensures if userId in old(userToStream) then userToStream == old(userToStream)
              else
                && userToStream == old(userToStream)[userId := s] && fresh(s)
                && s.rooms == rooms && s.currentToken == token && s.lastNotifiedMs == now
                && s.listeners == if r.None? then {Listener(id, from)} else {}
      ensures userId in old(userToStream) ==>
        old(userToStream[userId].listeners) <= s.listeners <= old(userToStream[userId].listeners) + {Listener(id, from)}
      ensures forall x :: x in old(userToStream).Values && x != s ==> x.listeners == old(x.listeners)
    {
      s := Register(userId, rooms, token, now);
      r := s.NewListener(id, from);
    }

    /** The streams that callers hold, live or removed, have listeners at their own tokens. */
    ghost predicate Ready(held: map<nat, UserStream>)
      reads this, userToStream.Values, held.Values
    {
      Valid() && QueueValid() && forall c :: c in held ==> held[c].Fresh()
    }

    ghost function ViewOf(s: UserStream, held: map<nat, UserStream>): View
      reads this, s
    {
      View(Live(s), s.userId, s.rooms, pending, HoldersOf(s, held))
    }

    /** What a step does to a listener `l` of the stream `s`, from the view `v`: one that slept
        is woken or timed out exactly as the view tells, and else sleeps on in the next view;
        no other appears or is resolved, unless the step adds it. */
    ghost predicate Stepped(a: Action, s: UserStream, l: Listener, slept: bool, v: View,
                            held: map<nat, UserStream>, resolved: set<(UserStream, Listener)>)
      reads this, s
    {
      if slept then
        && ViewOf(s, held) == ViewAfter(a, v)
        && ((s, l) in resolved <==> WakesNow(a, v))
        && (l in s.listeners <==> !WakesNow(a, v) && !EndsNow(a, v, l))
      else
        (s, l) !in resolved && (l in s.listeners ==> l in Added(a))
    }

    method Publish(a: Action, held: map<nat, UserStream>, ghost s: UserStream, ghost l: Listener)
      returns (resolved: set<(UserStream, Listener)>)
      requires Ready(held) && a.Event?
      modifies userToStream.Values
      ensures Ready(held) && Stepped(a, s, l, old(l in s.listeners), old(ViewOf(s, held)), held, resolved)
    {
      var woken;
      woken, resolved := OnNewEvent(a.users, a.rooms, a.token, a.now);
    }

    method Announce(a: Action, held: map<nat, UserStream>, ghost s: UserStream, ghost l: Listener)
      returns (resolved: set<(UserStream, Listener)>)
      requires Ready(held) && a.Flush?
      modifies this`pending, this`calls, this`roomToStreams, userToStream.Values
      ensures Ready(held) && Stepped(a, s, l, old(l in s.listeners), old(ViewOf(s, held)), held, resolved)
    {
      ghost var u, rooms, released := s.userId, s.rooms, Released(pending, a.upTo);
      LastCall(calls, Notify(a.upTo));
      var woken;
      woken, resolved := NotifyPending(a.upTo, a.token, a.now);
      assert Live(s) ==> s.rooms == rooms + Joined(released, u) && (s in woken <==> SomeConcern(released, u, rooms));
    }

    method BeginWait(a: Action, held: map<nat, UserStream>, ghost s: UserStream, ghost l: Listener)
      returns (after: map<nat, UserStream>)
      requires Ready(held) && a.Listen?
      modifies this`userToStream, this`roomToStreams, userToStream.Values`listeners
      ensures Ready(after) && Stepped(a, s, l, old(l in s.listeners), old(ViewOf(s, held)), after, {})
      ensures forall u :: u in userToStream ==> userToStream[u] in old(userToStream).Values || fresh(userToStream[u])
      ensures forall c :: c in after ==> after[c] in held.Values || after[c] in userToStream.Values
    {
      var stream, r := Wait(a.userId, a.rooms, a.id, a.from, a.token, a.now);
      after := held[a.caller := stream];
      assert Live(s) == old(Live(s)) && (stream == s <==> Live(s) && a.userId == s.userId);
      HoldersAfter(held, a.caller, stream, s);
    }

    method HoldBackEntry(a: Action, held: map<nat, UserStream>, ghost s: UserStream, ghost l: Listener)
      requires Ready(held) && a.Queue?
      modifies this`pending, this`calls
      ensures Ready(held) && Stepped(a, s, l, old(l in s.listeners), old(ViewOf(s, held)), held, {})
    {
      LastCall(calls, Append(a.entry));
      Enqueue(a.entry);
    }

    /** A user joins a room, or unused streams are removed. */
    method IndexStep(a: Action, held: map<nat, UserStream>, ghost s: UserStream, ghost l: Listener)
      requires Ready(held) && (a.JoinRoom? || a.Expire?)
      modifies this`userToStream, this`roomToStreams, userToStream.Values`rooms
      ensures Ready(held) && Stepped(a, s, l, old(l in s.listeners), old(ViewOf(s, held)), held, {})
      ensures forall u :: u in userToStream ==> userToStream[u] in old(userToStream).Values
    {
      if a.JoinRoom? {
        UserJoinedRoom(a.userId, a.room);
      } else {
        RemoveExpiredStreams(a.now);
      }
    }

    /** A caller sleeps again, or its sleep times out, on the stream it holds. */
    method CallerStep(a: Action, held: map<nat, UserStream>, ghost s: UserStream, ghost l: Listener)
      requires Ready(held) && (a.Sleep? || a.TimeOut?)
      modifies held.Values`listeners
      ensures Ready(held) && Stepped(a, s, l, old(l in s.listeners), old(ViewOf(s, held)), held, {})
    {
      if a.caller in held {
        if a.Sleep? {
          var r := held[a.caller].NewListener(a.id, a.from);
        } else {
          held[a.caller].Cancel(a.listener);
        }
      }
    }

    /** One step of the notifier; `held` are the streams that callers hold. */
    method Perform(a: Action, held: map<nat, UserStream>, ghost s: UserStream, ghost l: Listener)
      returns (after: map<nat, UserStream>, resolved: set<(UserStream, Listener)>)
      requires Ready(held)
      modifies this, userToStream.Values, held.Values
      ensures Ready(after) && Stepped(a, s, l, old(l in s.listeners), old(ViewOf(s, held)), after, resolved)
      ensures forall u :: u in userToStream ==> userToStream[u] in old(userToStream).Values || fresh(userToStream[u])
      ensures forall c :: c in after ==>
        after[c] in held.Values || after[c] in old(userToStream).Values || fresh(after[c])
    {
      after, resolved := held, {};
      match a
      case Event(_, _, _, _) => resolved := Publish(a, held, s, l);
      case Flush(_, _, _) => resolved := Announce(a, held, s, l);
      case Queue(_) => HoldBackEntry(a, held, s, l);
      case JoinRoom(_, _) => IndexStep(a, held, s, l);
      case Expire(_) => IndexStep(a, held, s, l);
      case Listen(_, _, _, _, _, _, _) => after := BeginWait(a, held, s, l);
      case _ => CallerStep(a, held, s, l);
    }

    /** Over every run of the notifier a listener that is asleep at its start meets exactly the
        fate that the view of its stream tells. */
    method Run(actions: seq<Action>, held: map<nat, UserStream>, ghost s: UserStream, ghost l: Listener)
      returns (resolved: set<(UserStream, Listener)>)
      requires Ready(held)
      requires forall i :: 0 <= i < |actions| ==> l !in Added(actions[i])
      modifies this, userToStream.Values, held.Values
      ensures Valid() && QueueValid()
      ensures l !in old(s.listeners) ==> l !in s.listeners && (s, l) !in resolved
      ensures l in old(s.listeners) ==>
        var fate := FateOf(actions, old(ViewOf(s, held)), l);
        ((s, l) in resolved <==> fate == Woken) && (l in s.listeners <==> fate == Asleep)
      decreases |actions|
    {
      resolved := {};
      if actions != [] {
        var after, first := Perform(actions[0], held, s, l);
        var rest := Run(actions[1..], after, s, l);
        resolved := first + rest;
      }
    }
  }

  ghost function HoldersOf(s: UserStream, held: map<nat, UserStream>): set<nat> {
    set c | c in held && held[c] == s
  }

  lemma HoldersAfter(held: map<nat, UserStream>, c: nat, stream: UserStream, s: UserStream)
    ensures HoldersOf(s, held[c := stream]) ==
      if stream == s then HoldersOf(s, held) + {c} else HoldersOf(s, held) - {c}
  {
  }

  /** The view before step `i` of a run. */
  ghost function ViewAt(actions: seq<Action>, i: nat, v: View): View
    requires i <= |actions|
  {
    if i == 0 then v else ViewAfter(actions[i - 1], ViewAt(actions, i - 1, v))
  }

  lemma {:induction false} ViewAtRest(actions: seq<Action>, i: nat, v: View)
    requires 0 < i <= |actions|
    ensures ViewAt(actions, i, v) == ViewAt(actions[1..], i - 1, ViewAfter(actions[0], v))
  {
    if i > 1 {
      ViewAtRest(actions, i - 1, v);
    }
  }

  ghost predicate WokenAt(actions: seq<Action>, i: nat, v: View, l: Listener)
    requires i < |actions|
  {
    && WakesNow(actions[i], ViewAt(actions, i, v))
    && forall j :: 0 <= j < i ==> !EndsNow(actions[j], ViewAt(actions, j, v), l)
  }

  /** No run wakes a listener on a removed stream; a listener on a live stream is woken exactly
      when some step concerns the stream and the listener has not timed out before. */
  lemma {:induction false} WokenExactly(actions: seq<Action>, v: View, l: Listener)
    ensures FateOf(actions, v, l) == Woken <==> v.live && exists i :: 0 <= i < |actions| && WokenAt(actions, i, v, l)
  {
    if actions != [] {
      var rest, next := actions[1..], ViewAfter(actions[0], v);
      WokenExactly(rest, next, l);
      if WakesNow(actions[0], v) {
        assert WokenAt(actions, 0, v, l);
      } else {
        if i :| 0 <= i < |rest| && WokenAt(rest, i, next, l) && !EndsNow(actions[0], v, l) {
          WokenLater(actions, i, v, l);
          assert WokenAt(actions, i + 1, v, l);
        }
        if i :| 0 <= i < |actions| && WokenAt(actions, i, v, l) {
          assert i > 0;
          WokenLater(actions, i - 1, v, l);
        }
      }
    }
  }

  lemma {:induction false} WokenLater(actions: seq<Action>, i: nat, v: View, l: Listener)
    requires i + 1 < |actions|
    ensures WokenAt(actions, i + 1, v, l)
       <==> WokenAt(actions[1..], i, ViewAfter(actions[0], v), l) && !EndsNow(actions[0], v, l)
  {
    var rest, next := actions[1..], ViewAfter(actions[0], v);
    forall j | 0 <= j <= i ensures ViewAt(actions, j + 1, v) == ViewAt(rest, j, next) {
      ViewAtRest(actions, j + 1, v);
    }
    if WokenAt(actions, i + 1, v, l) {
      assert ViewAt(actions, 0, v) == v;
      forall j | 0 <= j < i ensures !EndsNow(rest[j], ViewAt(rest, j, next), l) {
        assert !EndsNow(actions[j + 1], ViewAt(actions, j + 1, v), l);
      }
    }
    if WokenAt(rest, i, next, l) && !EndsNow(actions[0], v, l) {
      forall j | 0 <= j < i + 1 ensures !EndsNow(actions[j], ViewAt(actions, j, v), l) {
        assert j > 0 ==> actions[j] == rest[j - 1] && ViewAt(actions, j - 1 + 1, v) == ViewAt(rest, j - 1, next);
      }
    }
  }

  /** Such a listener: a waiting caller is told that something has happened, looks at it for so
      long that its stream expires, and goes to sleep again; an event for its user and its room
      leaves it asleep. */
  method ListenAfterRemoval() returns (s: UserStream, woken: set<UserStream>)
    ensures s.listeners == {Listener(1, StreamToken([1]))} && s !in woken
  {
    var notifier := new Notifier();
    var first, second, resolved;
    s, first := notifier.Wait("@u:hs", {"!r:hs"}, 0, StreamToken([0]), StreamToken([1]), 0);
    assert first == Some(StreamToken([1]));
    assert notifier.Expired(s, UNUSED_STREAM_EXPIRY_MS + 1);
    notifier.RemoveExpiredStreams(UNUSED_STREAM_EXPIRY_MS + 1);
    second := s.NewListener(1, StreamToken([1]));
    woken, resolved := notifier.OnNewEvent({"@u:hs"}, {"!r:hs"}, StreamToken([2]), UNUSED_STREAM_EXPIRY_MS + 2);
  }

  lemma MeetMore(b: set<string>, r: string)
    ensures forall a :: Meet(a, b + {r}) <==> Meet(a, b) || r in a
  {
    forall a ensures Meet(a, b + {r}) <==> Meet(a, b) || r in a {
      if r in a { assert r in b + {r}; }
      if x :| x in a && x in b { assert x in b + {r}; }
    }
  }

  lemma AllConcernsBySets(released: seq<Entry>)
    ensures forall u, rooms ::
      (u in ExtraUsers(released) || Meet(rooms + Joined(released, u), RoomsOf(released))) <==>
      SomeConcern(released, u, rooms)
  {
    forall u, rooms
      ensures (u in ExtraUsers(released) || Meet(rooms + Joined(released, u), RoomsOf(released))) <==>
              SomeConcern(released, u, rooms)
    {
      ConcernsBySets(released, u, rooms);
    }
  }

  lemma ConcernsBySets(released: seq<Entry>, u: string, rooms: set<string>)
    ensures (u in ExtraUsers(released) || Meet(rooms + Joined(released, u), RoomsOf(released))) <==>
            SomeConcern(released, u, rooms)
  {
    if i :| 0 <= i < |released| && Concerns(released[i], u, rooms) {
      var r := released[i].roomId;
      assert r in RoomsOf(released);
      assert u in ExtraUsers(released) || r in rooms + Joined(released, u);
    }
    if r :| r in rooms && r in RoomsOf(released) {
      var i :| 0 <= i < |released| && released[i].roomId == r;
      assert Concerns(released[i], u, rooms);
    }
    if r :| r in Joined(released, u) {
      var i :| 0 <= i < |released| && released[i].IsJoinOf(u) && released[i].roomId == r;
      assert Concerns(released[i], u, rooms);
    }
    if u in ExtraUsers(released) {
      var i :| 0 <= i < |released| && u in released[i].extraUsers;
      assert Concerns(released[i], u, rooms);
    }
  }
}
