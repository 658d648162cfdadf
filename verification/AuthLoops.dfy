/** The two checks of synapse/event_auth.py that work by loops: the walk over the listed
    auth events, and the walk over `levels_to_check`. */
module AuthLoops {
  import opened Basics
  import opened RoomVersions
  import opened Events
  import opened EventAuth
  import opened AuthSelection

  // -------------------------------------------------- state-independent rules

  type EventStore = map<string, Event>

  /** The key under which an auth event counts. */
  function KeyOf(e: Event): (k: StateKey)
    requires e.stateKey.Some?
    ensures k.kind == e.kind && Some(k.key) == e.stateKey
  {
    StateKey(e.kind, e.stateKey.value)
  }

  /** A listed auth event is usable: known, of the same room, selected and not rejected. */
  predicate Usable(roomId: string, expected: set<StateKey>, store: EventStore, id: string) {
    id in store &&
    var a := store[id];
    a.roomId == roomId && a.stateKey.Some? && KeyOf(a) in expected && !a.rejected
  }

  /** Rules 2 and 3: the listed auth events are usable, no two share a key, and one of
      them is the create event. */
  ghost predicate ListSound(roomId: string, expected: set<StateKey>, ids: seq<string>, store: EventStore) {
    && (forall i :: 0 <= i < |ids| ==> Usable(roomId, expected, store, ids[i]))
    && (forall i, j :: 0 <= i < j < |ids| ==> KeyOf(store[ids[i]]) != KeyOf(store[ids[j]]))
    && (exists i :: 0 <= i < |ids| && KeyOf(store[ids[i]]) == StateKey(RoomCreate, ""))
  }

  ghost predicate PassesIndependentRules(e: Event, store: EventStore) {
    if e.kind == RoomCreate then CreateAllowed(e)
    else AuthTypes(e).Ok? && ListSound(e.roomId, AuthTypes(e).value, e.authEvents, store)
  }

  /** `auth` is the state map formed by the first `n` of the listed events. */
  ghost predicate IsAuthState(ids: seq<string>, n: nat, store: EventStore, auth: State)
    requires n <= |ids|
  {
    && (forall i :: 0 <= i < n ==>
          ids[i] in store && store[ids[i]].stateKey.Some? &&
          KeyOf(store[ids[i]]) in auth && auth[KeyOf(store[ids[i]])] == store[ids[i]])
    && (forall k :: k in auth ==> FromList(ids, n, store, k, auth[k]))
  }

  ghost predicate FromList(ids: seq<string>, n: nat, store: EventStore, k: StateKey, a: Event)
    requires n <= |ids|
  {
    a.stateKey.Some? && KeyOf(a) == k && exists i :: 0 <= i < n && ids[i] in store && store[ids[i]] == a
  }

  lemma AuthStateGrows(ids: seq<string>, n: nat, store: EventStore, auth: State, k: StateKey)
    requires n < |ids| && IsAuthState(ids, n, store, auth)
    requires ids[n] in store && store[ids[n]].stateKey.Some? && KeyOf(store[ids[n]]) == k && k !in auth
    ensures IsAuthState(ids, n + 1, store, auth[k := store[ids[n]]])
  {
    var next := auth[k := store[ids[n]]];
    forall m | m in next ensures FromList(ids, n + 1, store, m, next[m]) {
      if m != k {
        assert FromList(ids, n, store, m, auth[m]);
      }
    }
  }

  /** Among usable, pairwise distinct events, the create event is listed exactly when the
      state map has it. */
  lemma CreateListed(ids: seq<string>, store: EventStore, auth: State)
    requires IsAuthState(ids, |ids|, store, auth)
    ensures StateKey(RoomCreate, "") in auth <==>
            exists i :: 0 <= i < |ids| && KeyOf(store[ids[i]]) == StateKey(RoomCreate, "")
  {
    var k := StateKey(RoomCreate, "");
    if k in auth {
      assert FromList(ids, |ids|, store, k, auth[k]);
    }
  }

  /** The first `n` listed events are usable and do not share a key, and `auth` is their map. */
  ghost predicate Walked(roomId: string, expected: set<StateKey>, ids: seq<string>, n: nat, store: EventStore,
                         auth: State)
    requires n <= |ids|
  {
    && IsAuthState(ids, n, store, auth)
    && (forall j :: 0 <= j < n ==> Usable(roomId, expected, store, ids[j]))
    && (forall j, m :: 0 <= j < m < n ==> KeyOf(store[ids[j]]) != KeyOf(store[ids[m]]))
  }

  lemma WalkOn(roomId: string, expected: set<StateKey>, ids: seq<string>, n: nat, store: EventStore, auth: State)
    requires n < |ids| && Walked(roomId, expected, ids, n, store, auth) && Usable(roomId, expected, store, ids[n])
    ensures var k := KeyOf(store[ids[n]]);
            && (k !in auth ==> Walked(roomId, expected, ids, n + 1, store, auth[k := store[ids[n]]]))
            && (k in auth ==> !ListSound(roomId, expected, ids, store))
  {
    var k := KeyOf(store[ids[n]]);
    if k in auth {
      assert FromList(ids, n, store, k, auth[k]);
      var i :| 0 <= i < n && ids[i] in store && store[ids[i]] == auth[k];
      assert KeyOf(store[ids[i]]) == KeyOf(store[ids[n]]);
    } else {
      AuthStateGrows(ids, n, store, auth, k);
    }
  }

  /** The loop that fills `auth_dict`. */
  method WalkAuthEvents(roomId: string, expected: set<StateKey>, ids: seq<string>, store: EventStore)
    returns (sound: bool, auth: State)
    ensures sound <==> ListSound(roomId, expected, ids, store)
    ensures sound ==> IsAuthState(ids, |ids|, store, auth)
  {
    auth := map[];
    for i := 0 to |ids|
      invariant Walked(roomId, expected, ids, i, store, auth)
    {
      if ids[i] !in store {
        return false, auth;
      }
      var a := store[ids[i]];
      if a.roomId != roomId || a.stateKey.None? {
        return false, auth;
      }
      var k := KeyOf(a);
      if k !in expected || a.rejected {
        return false, auth;
      }
      WalkOn(roomId, expected, ids, i, store, auth);
      if k in auth {
        return false, auth;
      }
      auth := auth[k := store[ids[i]]];
    }
    CreateListed(ids, store, auth);
    sound := StateKey(RoomCreate, "") in auth;
  }

  /** check_state_independent_auth_rules */
  method CheckIndependentRules(e: Event, store: EventStore) returns (accepted: bool)
    ensures accepted <==> PassesIndependentRules(e, store)
  {
    if e.kind == RoomCreate {
      return CreateAllowed(e);
    }
    var expected := AuthTypes(e);
    if expected.Raised? {
      return false;
    }
    var auth;
    accepted, auth := WalkAuthEvents(e.roomId, expected.value, e.authEvents, store);
  }

  /** The listed events are entries of the state, and every selected entry of it is listed. */
  ghost predicate ListsSelectionOf(e: Event, store: EventStore, s: State) {
    && (forall i :: 0 <= i < |e.authEvents| && e.authEvents[i] in store && store[e.authEvents[i]].stateKey.Some? ==>
          KeyOf(store[e.authEvents[i]]) in s && s[KeyOf(store[e.authEvents[i]])] == store[e.authEvents[i]])
    && (forall k :: k in Selection(e) && k in s ==>
          exists i :: 0 <= i < |e.authEvents| && e.authEvents[i] in store && store[e.authEvents[i]] == s[k]
                      && s[k].stateKey.Some? && KeyOf(s[k]) == k)
  }

  lemma ListedAgree(e: Event, store: EventStore, auth: State, s: State, k: StateKey)
    requires IsAuthState(e.authEvents, |e.authEvents|, store, auth)
    requires ListsSelectionOf(e, store, s) && k in Selection(e)
    ensures (k in s <==> k in auth) && (k in s ==> s[k] == auth[k])
  {
    if k in auth {
      assert FromList(e.authEvents, |e.authEvents|, store, k, auth[k]);
    }
  }

  /** If an event lists as its auth events the selected entries of a room state, checking it
      against the listed events alone gives the verdict that the whole state gives. */
  lemma AuthEventsDecide(e: Event, store: EventStore, auth: State, s: State)
    requires e.version in KNOWN_ROOM_VERSIONS && !ReadsOutsideSelection(e)
    requires PassesIndependentRules(e, store) && IsAuthState(e.authEvents, |e.authEvents|, store, auth)
    requires ListsSelectionOf(e, store, s)
    ensures Verdict(e, auth) == Verdict(e, s)
  {
    KnownVersions(e.version);
    forall k | k in Selection(e) ensures (k in s <==> k in auth) && (k in s ==> s[k] == auth[k]) {
      ListedAgree(e, store, auth, s, k);
    }
    VerdictDependsOnSelection(e, auth, s);
  }

  // ----------------------------------------------------------- levels_to_check

  datatype LevelRef =
    | Named(name: LevelName)
    | OfUser(user: string)
    | OfEvent(kind: EventType)
    | OfNotification(key: string)

  predicate RefAllowed(r: LevelRef, before: PowerLevels, after: PowerLevels, userLevel: int, sender: string) {
    match r
    case Named(n) => LevelChangeAllowed(Entry(before.named, n), Entry(after.named, n), userLevel, false)
    case OfUser(u) =>
      LevelChangeAllowed(Entry(before.users.Entries(), u), Entry(after.users.Entries(), u), userLevel, u != sender)
    case OfEvent(k) =>
      LevelChangeAllowed(Entry(before.events.Entries(), k), Entry(after.events.Entries(), k), userLevel, false)
    case OfNotification(k) =>
      LevelChangeAllowed(Entry(before.notifications.Entries(), k), Entry(after.notifications.Entries(), k),
                         userLevel, false)
  }

  /** The entries of `levels_to_check`. */
  ghost predicate Listed(r: LevelRef, before: PowerLevels, after: PowerLevels, version: RoomVersion) {
    match r
    case Named(_) => true
    case OfUser(u) => u in before.users.Entries().Keys + after.users.Entries().Keys
    case OfEvent(k) => k in before.events.Entries().Keys + after.events.Entries().Keys
    case OfNotification(k) =>
      version.limitNotificationsPowerLevels
      && k in before.notifications.Entries().Keys + after.notifications.Entries().Keys
  }

  method AppendAll(refs: seq<LevelRef>, more: set<LevelRef>) returns (all: seq<LevelRef>)
    ensures forall r :: r in all <==> r in refs || r in more
  {
    all := refs;
    var rest := more;
    while rest != {}
      invariant rest <= more
      invariant forall r :: r in all <==> r in refs || r in more - rest
    {
      var r :| r in rest;
      all := all + [r];
      rest := rest - {r};
    }
  }

  const NAMED_REFS: seq<LevelRef> :=
    [Named(UsersDefault), Named(EventsDefault), Named(StateDefault), Named(BanLevel),
     Named(RedactLevel), Named(KickLevel), Named(InviteLevel)]

  lemma AllNamed()
    ensures forall r: LevelRef :: r in NAMED_REFS <==> r.Named?
  {
    forall r: LevelRef | r.Named? ensures r in NAMED_REFS {
      match r.name
      case UsersDefault => assert r == NAMED_REFS[0];
      case EventsDefault => assert r == NAMED_REFS[1];
      case StateDefault => assert r == NAMED_REFS[2];
      case BanLevel => assert r == NAMED_REFS[3];
      case RedactLevel => assert r == NAMED_REFS[4];
      case KickLevel => assert r == NAMED_REFS[5];
      case InviteLevel => assert r == NAMED_REFS[6];
    }
  }

  method LevelsToCheck(before: PowerLevels, after: PowerLevels, version: RoomVersion) returns (refs: seq<LevelRef>)
    ensures forall r :: r in refs <==> Listed(r, before, after, version)
  {
    refs := NAMED_REFS;
    AllNamed();
    refs := AppendAll(refs, set u | u in before.users.Entries().Keys + after.users.Entries().Keys :: OfUser(u));
    refs := AppendAll(refs, set k | k in before.events.Entries().Keys + after.events.Entries().Keys :: OfEvent(k));
    if version.limitNotificationsPowerLevels {
      var keys := before.notifications.Entries().Keys + after.notifications.Entries().Keys;
      refs := AppendAll(refs, set k | k in keys :: OfNotification(k));
    }
  }

  lemma RefsDecide(before: PowerLevels, after: PowerLevels, version: RoomVersion, userLevel: int, sender: string)
    requires !before.users.Malformed? && !after.users.Malformed?
    requires !before.events.Malformed? && !after.events.Malformed?
    requires version.limitNotificationsPowerLevels ==>
      !before.notifications.Malformed? && !after.notifications.Malformed?
    ensures PowerChangeAllowed(before, after, version, userLevel, sender)
       <==> forall r :: Listed(r, before, after, version) ==> RefAllowed(r, before, after, userLevel, sender)
  {
    if forall r :: Listed(r, before, after, version) ==> RefAllowed(r, before, after, userLevel, sender) {
      forall n: LevelName
        ensures LevelChangeAllowed(Entry(before.named, n), Entry(after.named, n), userLevel, false)
      {
        assert Listed(Named(n), before, after, version);
      }
      forall u | u in before.users.Entries().Keys + after.users.Entries().Keys
        ensures LevelChangeAllowed(Entry(before.users.Entries(), u), Entry(after.users.Entries(), u),
                                   userLevel, u != sender)
      {
        assert Listed(OfUser(u), before, after, version);
      }
      forall k | k in before.events.Entries().Keys + after.events.Entries().Keys
        ensures LevelChangeAllowed(Entry(before.events.Entries(), k), Entry(after.events.Entries(), k),
                                   userLevel, false)
      {
        assert Listed(OfEvent(k), before, after, version);
      }
      forall k | version.limitNotificationsPowerLevels
                 && k in before.notifications.Entries().Keys + after.notifications.Entries().Keys
        ensures LevelChangeAllowed(Entry(before.notifications.Entries(), k), Entry(after.notifications.Entries(), k),
                                   userLevel, false)
      {
        assert Listed(OfNotification(k), before, after, version);
      }
    }
  }

  /** The comparison loop of _check_power_levels. */
  method WalkLevels(before: PowerLevels, after: PowerLevels, version: RoomVersion, userLevel: int, sender: string)
    returns (allowed: bool)
    ensures allowed <==> PowerChangeAllowed(before, after, version, userLevel, sender)
  {
    if before.users.Malformed? || after.users.Malformed? || before.events.Malformed? || after.events.Malformed?
       || (version.limitNotificationsPowerLevels
           && (before.notifications.Malformed? || after.notifications.Malformed?)) {
      return false;
    }
    RefsDecide(before, after, version, userLevel, sender);
    var refs := LevelsToCheck(before, after, version);
    for i := 0 to |refs|
      invariant forall j :: 0 <= j < i ==> RefAllowed(refs[j], before, after, userLevel, sender)
    {
      if !RefAllowed(refs[i], before, after, userLevel, sender) {
        assert Listed(refs[i], before, after, version);
        return false;
      }
    }
    allowed := true;
  }
}
