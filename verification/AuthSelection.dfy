/** The auth-event selection is enough to reproduce the verdict.

    `auth_types_for_event` picks the state entries fetched to authorize an event.
    The results here say that the verdict depends on nothing else, with one exact
    exception: power-levels events whose state key is not empty. */
module AuthSelection {
  import opened Basics
  import opened RoomVersions
  import opened Events
  import opened EventAuth

  ghost predicate Agree(s: State, t: State, keys: set<StateKey>) {
    forall k :: k in keys ==> (k in s <==> k in t) && (k in s ==> s[k] == t[k])
  }

  function Restrict(s: State, keys: set<StateKey>): (r: State) {
    map k | k in s && k in keys :: s[k]
  }

  /** The selection, empty when it cannot be computed. */
  function Selection(e: Event): set<StateKey> {
    var r := AuthTypes(e);
    if r.Ok? then r.value else {}
  }

  /** A power-levels event is compared with the state entry under its own key. */
  predicate ReadsOutsideSelection(e: Event) {
    e.kind == RoomPowerLevels && e.stateKey.Some? && e.stateKey.value != ""
  }

  lemma KnownVersions(v: RoomVersion)
    requires v in KNOWN_ROOM_VERSIONS
    ensures v.knockRestrictedJoinRule ==> v.restrictedJoinRule && v.knockJoinRule
  {
  }

  lemma LevelsAgree(s: State, t: State, u: string)
    requires Agree(s, t, {StateKey(RoomPowerLevels, ""), StateKey(RoomCreate, "")})
    ensures UserLevel(u, s) == UserLevel(u, t)
  {
  }

  lemma NamedAgree(s: State, t: State)
    requires Agree(s, t, {StateKey(RoomPowerLevels, "")})
    ensures PowerLevelEvent(s) == PowerLevelEvent(t)
    ensures forall n, d :: NamedLevel(s, n, d) == NamedLevel(t, n, d)
    ensures forall k, b :: SendLevel(k, b, s) == SendLevel(k, b, t)
  {
    assert PowerLevelEvent(s) == PowerLevelEvent(t);
  }

  lemma PartiesAgree(s: State, t: State, sender: string, target: string)
    requires Agree(s, t, {StateKey(RoomPowerLevels, ""), StateKey(RoomCreate, ""),
                          StateKey(RoomMember, sender), StateKey(RoomMember, target)})
    ensures PartiesOf(sender, target, s) == PartiesOf(sender, target, t)
  {
    LevelsAgree(s, t, sender);
    LevelsAgree(s, t, target);
    NamedAgree(s, t);
  }

  lemma JoinAgrees(e: Event, s: State, t: State, p: Parties)
    requires e.kind == RoomMember && e.content.membership == Some(Join)
    requires AuthTypes(e).Ok? && Agree(s, t, AuthTypes(e).value)
    requires e.version.knockRestrictedJoinRule ==> e.version.restrictedJoinRule
    ensures MembershipRule(e, s, Join, e.stateKey.value, p) == MembershipRule(e, t, Join, e.stateKey.value, p)
  {
    var keys := AuthTypes(e).value;
    assert StateKey(RoomPowerLevels, "") in keys && StateKey(RoomCreate, "") in keys;
    assert StateKey(RoomJoinRules, "") in keys;
    assert JoinRuleInForce(s) == JoinRuleInForce(t);
    if e.version.restrictedJoinRule && e.content.authorisingUser.Some? {
      var a := e.content.authorisingUser.value;
      assert StateKey(RoomMember, a) in keys;
      LevelsAgree(s, t, a);
    }
  }

  lemma RuleAgrees(e: Event, s: State, t: State, p: Parties)
    requires e.kind == RoomMember && AuthTypes(e).Ok? && Agree(s, t, AuthTypes(e).value)
    requires e.version.knockRestrictedJoinRule ==> e.version.restrictedJoinRule
    ensures MembershipRule(e, s, e.content.membership.value, e.stateKey.value, p)
         == MembershipRule(e, t, e.content.membership.value, e.stateKey.value, p)
  {
    var keys := AuthTypes(e).value;
    match e.content.membership.value
    case Join => JoinAgrees(e, s, t, p);
    case Leave =>
      assert StateKey(RoomPowerLevels, "") in keys;
      NamedAgree(s, t);
    case Knock =>
      assert StateKey(RoomJoinRules, "") in keys;
      assert JoinRuleInForce(s) == JoinRuleInForce(t);
    case _ =>
  }

  lemma PartiesRuleAgrees(e: Event, s: State, t: State, p: Parties)
    requires e.kind == RoomMember && AuthTypes(e).Ok? && Agree(s, t, AuthTypes(e).value)
    requires e.version.knockRestrictedJoinRule ==> e.version.restrictedJoinRule
    ensures PartiesRule(e, s, e.content.membership.value, e.stateKey.value, p)
         == PartiesRule(e, t, e.content.membership.value, e.stateKey.value, p)
  {
    var tpi := e.content.thirdPartyInvite;
    if e.content.membership.value == Invite && tpi.Some? {
      assert StateKey(RoomThirdPartyInvite, tpi.value.token) in AuthTypes(e).value;
      assert Lookup(s, RoomThirdPartyInvite, tpi.value.token) == Lookup(t, RoomThirdPartyInvite, tpi.value.token);
    } else {
      RuleAgrees(e, s, t, p);
    }
  }

  lemma CreateAgrees(e: Event, s: State, t: State)
    requires Agree(s, t, {StateKey(RoomCreate, "")})
    ensures IsCreatorJoin(e, s) == IsCreatorJoin(e, t) && CanFederate(s) == CanFederate(t)
  {
    assert Lookup(s, RoomCreate, "") == Lookup(t, RoomCreate, "");
  }

  lemma MembershipDependsOnSelection(e: Event, s: State, t: State)
    requires e.kind == RoomMember && AuthTypes(e).Ok? && Agree(s, t, AuthTypes(e).value)
    requires e.version.knockRestrictedJoinRule ==> e.version.restrictedJoinRule
    ensures MembershipChange(e, s) == MembershipChange(e, t)
  {
    var keys := AuthTypes(e).value;
    assert StateKey(RoomPowerLevels, "") in keys && StateKey(RoomCreate, "") in keys;
    assert StateKey(RoomMember, e.sender) in keys && StateKey(RoomMember, e.stateKey.value) in keys;
    PartiesAgree(s, t, e.sender, e.stateKey.value);
    CreateAgrees(e, s, t);
    var parties := PartiesOf(e.sender, e.stateKey.value, s);
    if parties.Ok? {
      PartiesRuleAgrees(e, s, t, parties.value);
    }
  }

  lemma PowerLevelsAgree(e: Event, s: State, t: State)
    requires Agree(s, t, {StateKey(RoomPowerLevels, ""), StateKey(RoomCreate, "")})
    requires e.kind == RoomPowerLevels && !ReadsOutsideSelection(e)
    ensures CheckPowerLevels(e, s) == CheckPowerLevels(e, t)
  {
    LevelsAgree(s, t, e.sender);
    assert PowerLevelEvent(s) == PowerLevelEvent(t);
  }

  lemma SendAgrees(e: Event, s: State, t: State)
    requires Agree(s, t, {StateKey(RoomPowerLevels, ""), StateKey(RoomCreate, "")})
    ensures CanSend(e, s) == CanSend(e, t)
  {
    NamedAgree(s, t);
    LevelsAgree(s, t, e.sender);
    if e.stateKey.Some? && StateKeyOwner(e, e.stateKey.value).Ok? {
      LevelsAgree(s, t, StateKeyOwner(e, e.stateKey.value).value);
    }
  }

  lemma SenderRulesAgree(e: Event, s: State, t: State)
    requires Agree(s, t, {StateKey(RoomPowerLevels, ""), StateKey(RoomCreate, ""), StateKey(RoomMember, e.sender)})
    requires !ReadsOutsideSelection(e)
    ensures SenderRules(e, s) == SenderRules(e, t)
  {
    SendAgrees(e, s, t);
    LevelsAgree(s, t, e.sender);
    NamedAgree(s, t);
    if e.kind == RoomPowerLevels {
      PowerLevelsAgree(e, s, t);
    }
  }

  /** Two states that agree on the selection give the same verdict. */
  lemma VerdictDependsOnSelection(e: Event, s: State, t: State)
    requires AuthTypes(e).Ok? && Agree(s, t, AuthTypes(e).value)
    requires e.version.knockRestrictedJoinRule ==> e.version.restrictedJoinRule
    requires !ReadsOutsideSelection(e)
    ensures Verdict(e, s) == Verdict(e, t)
  {
    if e.kind == RoomMember {
      MembershipDependsOnSelection(e, s, t);
      assert StateKey(RoomCreate, "") in AuthTypes(e).value;
    } else if e.kind != RoomCreate {
      SenderRulesAgree(e, s, t);
    }
  }

  /** When the selection cannot be computed the event is rejected in every state. */
  lemma UnselectableIsRejected(e: Event, s: State)
    requires AuthTypes(e).Raised?
    ensures !Accepts(e, s)
  {
    if e.content.membership == Some(Invite) {
      assert !ThirdPartyInviteVerifies(e, s);
    }
  }

  // ------------------------------------- power levels under a non-empty key

  /** What can be told without the room state: whether some state accepts a
      power-levels event under state key `key`. */
  predicate CouldPass(e: Event, key: string) {
    && Domain(e.roomId).Ok? && Domain(e.sender).Ok?
    && PowerContentValid(e.content.power, e.version)
    && (|key| > 0 && key[0] == '@' && key != e.sender ==> e.version.msc3757Enabled && StateKeyOwner(e, key).Ok?)
  }

  const NO_POWER := PowerLevels(map[], Levels(map[]), Levels(map[]), Levels(map[]))
  const NO_CONTENT := Content(None, None, None, None, None, true, true, {}, NO_POWER)

  /** The state is a dictionary of events by their own type and state key, no event twice. */
  ghost predicate Keyed(s: State) {
    && (forall k :: k in s ==> s[k].kind == k.kind && s[k].stateKey == Some(k.key))
    && (forall j, k :: j in s && k in s && j != k ==> s[j].id != s[k].id)
  }

  /** An event in the room of `e`, by its sender, with an id of its own. */
  function Sibling(e: Event, suffix: char, kind: EventType, key: string, content: Content): Event {
    e.(id := e.id + [suffix], kind := kind, stateKey := Some(key), content := content)
  }

  /** A state with just the three selected entries, in which `e.sender` is an admin. */
  function AdminState(e: Event): State {
    var admin := NO_POWER.(users := Levels(map[e.sender := Plain(100)]));
    map[
      StateKey(RoomCreate, "") := Sibling(e, 'c', RoomCreate, "", NO_CONTENT),
      StateKey(RoomMember, e.sender) := Sibling(e, 'm', RoomMember, e.sender, NO_CONTENT.(membership := Some(Join))),
      StateKey(RoomPowerLevels, "") := Sibling(e, 'p', RoomPowerLevels, "", NO_CONTENT.(power := admin))
    ]
  }

  /** An event whose users_default is above the admin and differs from the one `e` sets. */
  function Blocker(e: Event): Event
    requires e.stateKey.Some?
  {
    var named := e.content.power.named;
    var top := if UsersDefault in named && named[UsersDefault].Int() == Ok(101) then 102 else 101;
    var power := NO_POWER.(named := map[UsersDefault := Plain(top)]);
    Sibling(e, 'b', RoomPowerLevels, e.stateKey.value, NO_CONTENT.(power := power))
  }

  lemma HopelessIsRejected(e: Event, s: State)
    requires ReadsOutsideSelection(e) && !CouldPass(e, e.stateKey.value)
    ensures !Accepts(e, s)
  {
  }

  lemma AdminCanSend(e: Event, s: State)
    requires ReadsOutsideSelection(e) && CouldPass(e, e.stateKey.value)
    requires Agree(s, AdminState(e), Selection(e))
    ensures CanSend(e, s).Ok? && UserLevel(e.sender, s) == Ok(100)
  {
    assert StateKey(RoomPowerLevels, "") in Selection(e);
    assert PowerLevelEvent(s) == Some(AdminState(e)[StateKey(RoomPowerLevels, "")]);
  }

  lemma AdminPasses(e: Event, s: State)
    requires ReadsOutsideSelection(e) && CouldPass(e, e.stateKey.value)
    requires Agree(s, AdminState(e), Selection(e))
    ensures Accepts(e, s) == CheckPowerLevels(e, s).Ok?
  {
    AdminCanSend(e, s);
    var keys := Selection(e);
    assert StateKey(RoomMember, e.sender) in keys && StateKey(RoomCreate, "") in keys;
    assert IsIn(e.sender, Join, s) && CanFederate(s);
  }

  lemma BlockerBlocks(e: Event)
    requires e.stateKey.Some?
    ensures !PowerChangeAllowed(Blocker(e).content.power, e.content.power, e.version, 100, e.sender)
  {
    var before, after := Blocker(e).content.power.named, e.content.power.named;
    assert !LevelChangeAllowed(Entry(before, UsersDefault), Entry(after, UsersDefault), 100, false);
  }

  lemma BlockedState(e: Event, s: State)
    requires ReadsOutsideSelection(e) && CouldPass(e, e.stateKey.value)
    requires Agree(s, AdminState(e), Selection(e)) && Lookup(s, RoomPowerLevels, e.stateKey.value) == Some(Blocker(e))
    ensures !Accepts(e, s)
  {
    AdminPasses(e, s);
    AdminCanSend(e, s);
    BlockerBlocks(e);
  }

  lemma OpenState(e: Event, s: State)
    requires ReadsOutsideSelection(e) && CouldPass(e, e.stateKey.value)
    requires Agree(s, AdminState(e), Selection(e)) && Lookup(s, RoomPowerLevels, e.stateKey.value).None?
    ensures Accepts(e, s)
  {
    AdminPasses(e, s);
  }

  lemma SiblingIdsDiffer(e: Event)
    ensures forall c: char, d: char :: e.id + [c] == e.id + [d] ==> c == d
  {
    forall c: char, d: char | e.id + [c] == e.id + [d] ensures c == d {
      assert (e.id + [c])[|e.id|] == c && (e.id + [d])[|e.id|] == d;
    }
  }

  lemma BlockedIsKeyed(e: Event)
    requires ReadsOutsideSelection(e)
    ensures Keyed(AdminState(e)[StateKey(RoomPowerLevels, e.stateKey.value) := Blocker(e)])
  {
    SiblingIdsDiffer(e);
  }

  /** The entry under the event's own key decides, and the selection does not fetch it. */
  lemma OutsideEntryDecides(e: Event) returns (s: State)
    requires ReadsOutsideSelection(e) && CouldPass(e, e.stateKey.value)
    ensures Keyed(s) && !Accepts(e, s) && Accepts(e, Restrict(s, Selection(e)))
  {
    BlockedIsKeyed(e);
    var own := StateKey(RoomPowerLevels, e.stateKey.value);
    s := AdminState(e)[own := Blocker(e)];
    assert own !in Selection(e);
    BlockedState(e, s);
    OpenState(e, Restrict(s, Selection(e)));
  }

  /** For every event of a known room version: its verdict on every room state equals
      its verdict on the selected part of that state, if and only if it is not a
      power-levels event under a non-empty state key that some state would accept. The states
      range over dictionaries of events by their own keys; where the verdicts are equal on
      those they are equal on every map. */
  lemma SelectionIsExact(e: Event)
    requires e.version in KNOWN_ROOM_VERSIONS
    ensures (forall s: State :: Keyed(s) ==> Accepts(e, s) == Accepts(e, Restrict(s, Selection(e))))
       <==> !(ReadsOutsideSelection(e) && CouldPass(e, e.stateKey.value))
    ensures (forall s: State :: Accepts(e, s) == Accepts(e, Restrict(s, Selection(e))))
       <==> !(ReadsOutsideSelection(e) && CouldPass(e, e.stateKey.value))
  {
    if ReadsOutsideSelection(e) && CouldPass(e, e.stateKey.value) {
      var s := OutsideEntryDecides(e);
      assert Accepts(e, s) != Accepts(e, Restrict(s, Selection(e)));
    } else {
      forall s: State ensures Accepts(e, s) == Accepts(e, Restrict(s, Selection(e))) {
        var r := Restrict(s, Selection(e));
        if ReadsOutsideSelection(e) {
          HopelessIsRejected(e, s);
          HopelessIsRejected(e, r);
        } else if AuthTypes(e).Raised? {
          UnselectableIsRejected(e, s);
          UnselectableIsRejected(e, r);
        } else {
          KnownVersions(e.version);
          VerdictDependsOnSelection(e, s, r);
        }
      }
    }
  }
}
