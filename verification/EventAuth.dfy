/** The authorization rules of synapse/event_auth.py. */
module EventAuth {
  import opened Basics
  import opened RoomVersions
  import opened Events

  // ---------------------------------------------------------------- levels

  function PowerLevelEvent(s: State): Option<Event> {
    Lookup(s, RoomPowerLevels, "")
  }

  /** The user the create event names as creator. */
  function Creator(create: Event, version: RoomVersion): Result<string> {
    if version.implicitRoomCreator then Ok(create.sender)
    else if create.content.creator.Some? then Ok(create.content.creator.value)
    else Raised
  }

  /** get_user_power_level */
  function UserLevel(u: string, s: State): Result<int> {
    match PowerLevelEvent(s)
    case Some(pl) =>
      var power := pl.content.power;
      var explicit :- power.users.Get(u);
      if explicit.Some? && !explicit.value.Null? then
        explicit.value.Int()
      else if UsersDefault in power.named && !power.named[UsersDefault].Null? then
        power.named[UsersDefault].Int()
      else
        Ok(0)
    case None =>
      match Lookup(s, RoomCreate, "")
      case None => Ok(0)
      case Some(create) =>
        var creator :- Creator(create, create.version);
        Ok(if creator == u then 100 else 0)
  }

  /** get_named_level */
  function NamedLevel(s: State, name: LevelName, default: int): Result<int> {
    match PowerLevelEvent(s)
    case None => Ok(default)
    case Some(pl) =>
      var named := pl.content.power.named;
      if name in named && !named[name].Null? then named[name].Int() else Ok(default)
  }

  /** get_send_level */
  function SendLevel(kind: EventType, isState: bool, s: State): Result<int> {
    var name := if isState then StateDefault else EventsDefault;
    var default := if isState then 50 else 0;
    match PowerLevelEvent(s)
    case None => Ok(default)
    case Some(pl) =>
      var power := pl.content.power;
      var custom :- power.events.Get(kind);
      if custom.Some? && !custom.value.Null? then custom.value.Int()
      else if name in power.named then power.named[name].Int()
      else Ok(default)
  }

  // ------------------------------------------------------------ membership

  /** The membership of a user in the state, None when there is no member event. */
  function MembershipOf(u: string, s: State): Result<Option<Membership>> {
    match Lookup(s, RoomMember, u)
    case None => Ok(None)
    case Some(e) => if e.content.membership.Some? then Ok(e.content.membership) else Raised
  }

  predicate IsIn(u: string, m: Membership, s: State) {
    MembershipOf(u, s) == Ok(Some(m))
  }

  predicate CanFederate(s: State) {
    var create := Lookup(s, RoomCreate, "");
    create.Some? && create.value.content.federatable
  }

  /** The rule in force: invite unless a join-rules event says otherwise. */
  function JoinRuleInForce(s: State): JoinRule {
    var e := Lookup(s, RoomJoinRules, "");
    if e.Some? && e.value.content.joinRule.Some? then e.value.content.joinRule.value else InviteOnly
  }

  /** Whether the event is the creator joining directly after the create event. */
  function IsCreatorJoin(e: Event, s: State): Result<bool> {
    var create := Lookup(s, RoomCreate, "");
    if |e.prevEvents| == 1 && e.content.membership == Some(Join)
       && create.Some? && e.prevEvents[0] == create.value.id
    then
      var creator :- Creator(create.value, e.version);
      Ok(e.stateKey == Some(creator))
    else
      Ok(false)
  }

  /** _verify_third_party_invite, with signature checking reduced to the set of
      keys under which the signed block verifies. */
  predicate ThirdPartyInviteVerifies(e: Event, s: State) {
    var tpi := e.content.thirdPartyInvite;
    tpi.Some? && tpi.value.Signed? && tpi.value.complete &&
    var invite := Lookup(s, RoomThirdPartyInvite, tpi.value.token);
    && invite.Some?
    && invite.value.sender == e.sender
    && e.stateKey == Some(tpi.value.mxid)
    && exists k :: k in invite.value.content.publicKeys && k in tpi.value.verifiesUnder
  }

  /** The join branch of _is_membership_change_allowed. */
  function JoinAllowed(e: Event, s: State, caller: Option<Membership>, target: string,
                       targetBanned: bool, inviteLevel: int): Result<()> {
    var v, rule := e.version, JoinRuleInForce(s);
    var inOrInvited := caller == Some(Join) || caller == Some(Invite);
    :- Require(e.sender == target && !targetBanned);
    if rule == Public then
      Ok(())
    else if (v.restrictedJoinRule && rule == Restricted)
            || (v.knockRestrictedJoinRule && rule == KnockRestricted)
    then
      if inOrInvited then Ok(())
      else
        :- Require(e.content.authorisingUser.Some?);
        var authoriser := e.content.authorisingUser.value;
        :- Require(IsIn(authoriser, Join, s));
        var level :- UserLevel(authoriser, s);
        :- Require(level >= inviteLevel);
        Ok(())
    else
      :- Require(rule == InviteOnly || (v.knockJoinRule && rule == KnockRule));
      :- Require(inOrInvited);
      Ok(())
  }

  /** The leave branch: a plain leave, a kick or an unban. */
  function LeaveAllowed(e: Event, s: State, target: string, targetBanned: bool,
                        userLevel: int, targetLevel: int, banLevel: int): Result<()> {
    var cannotUnban := targetBanned && userLevel < banLevel;
    :- Require(!cannotUnban);
    if target != e.sender then
      var kickLevel :- NamedLevel(s, KickLevel, 50);
      :- Require(userLevel >= kickLevel && userLevel > targetLevel);
      Ok(())
    else
      Ok(())
  }

  /** The knock branch. */
  function KnockAllowed(e: Event, s: State, caller: Option<Membership>, target: string,
                        targetMembership: Option<Membership>): Result<()> {
    var rule := JoinRuleInForce(s);
    :- Require(rule == KnockRule || (e.version.knockRestrictedJoinRule && rule == KnockRestricted));
    :- Require(target == e.sender);
    :- Require(targetMembership != Some(Join));
    :- Require(caller != Some(Invite));
    :- Require(targetMembership != Some(Ban));
    Ok(())
  }

  /** What the membership rules know about the sender and the target. */
  datatype Parties = Parties(
    caller: Option<Membership>,
    target: Option<Membership>,
    userLevel: int,
    targetLevel: int,
    inviteLevel: int,
    banLevel: int
  )

  function PartiesOf(sender: string, target: string, s: State): Result<Parties> {
    var caller :- MembershipOf(sender, s);
    var targetMembership :- MembershipOf(target, s);
    var userLevel :- UserLevel(sender, s);
    var targetLevel :- UserLevel(target, s);
    var inviteLevel :- NamedLevel(s, InviteLevel, 0);
    var banLevel :- NamedLevel(s, BanLevel, 50);
    Ok(Parties(caller, targetMembership, userLevel, targetLevel, inviteLevel, banLevel))
  }

  /** The rules for each membership, once the sender is known to be entitled to try. */
  function MembershipRule(e: Event, s: State, membership: Membership, target: string, p: Parties): Result<()> {
    var targetBanned := p.target == Some(Ban);
    match membership
    case Invite =>
      :- Require(!targetBanned && p.target != Some(Join));
      :- Require(p.userLevel >= p.inviteLevel);
      Ok(())
    case Join => JoinAllowed(e, s, p.caller, target, targetBanned, p.inviteLevel)
    case Leave => LeaveAllowed(e, s, target, targetBanned, p.userLevel, p.targetLevel, p.banLevel)
    case Ban =>
      :- Require(p.userLevel >= p.banLevel && p.userLevel > p.targetLevel);
      Ok(())
    case Knock =>
      :- Require(e.version.knockJoinRule);
      KnockAllowed(e, s, p.caller, target, p.target)
    case OtherMembership(_) => Raised
  }

  /** The part of the rules that follows the look-up of the parties: third-party
      invites, declining an invite or knock, then the rule for each membership. */
  function PartiesRule(e: Event, s: State, membership: Membership, target: string, p: Parties): Result<()> {
    if membership == Invite && e.content.thirdPartyInvite.Some? then
      :- Require(ThirdPartyInviteVerifies(e, s));
      :- Require(p.target != Some(Ban));
      Ok(())
    else if membership == Leave && target == e.sender
            && (p.caller == Some(Invite) || (e.version.knockJoinRule && p.caller == Some(Knock)))
    then
      Ok(())
    else
      :- Require(membership == Join || membership == Knock || p.caller == Some(Join));
      MembershipRule(e, s, membership, target, p)
  }

  /** _is_membership_change_allowed */
  function MembershipChange(e: Event, s: State): Result<()> {
    var content := e.content;
    :- Require(content.membership.Some? && e.stateKey.Some?);
    var membership, target := content.membership.value, e.stateKey.value;
    var creatorJoin :- IsCreatorJoin(e, s);
    if creatorJoin then Ok(())
    else
      var creatingDomain :- Domain(e.roomId);
      var targetDomain :- Domain(target);
      :- Require(creatingDomain == targetDomain || CanFederate(s));
      var p :- PartiesOf(e.sender, target, s);
      PartiesRule(e, s, membership, target, p)
  }

  // ------------------------------------------------------- sending and state

  /** The user id at the head of a state key under MSC3757. */
  function StateKeyOwner(e: Event, key: string): Result<string> {
    var colon := Find(key, ':', 1);
    :- Require(colon != -1 && e.ownerIdValid);
    var suffix := Find(key, '_', colon + 1);
    Ok(if suffix == -1 then key else key[..suffix])
  }

  /** _can_send_event */
  function CanSend(e: Event, s: State): Result<()> {
    var sendLevel :- SendLevel(e.kind, e.stateKey.Some?, s);
    var userLevel :- UserLevel(e.sender, s);
    :- Require(userLevel >= sendLevel);
    if e.stateKey.Some? && |e.stateKey.value| > 0 && e.stateKey.value[0] == '@'
       && e.stateKey.value != e.sender
    then
      :- Require(e.version.msc3757Enabled);
      var owner :- StateKeyOwner(e, e.stateKey.value);
      if owner == e.sender then Ok(())
      else
        var ownerLevel :- UserLevel(owner, s);
        :- Require(userLevel > ownerLevel);
        Ok(())
    else
      Ok(())
  }

  /** check_redaction */
  function CheckRedaction(e: Event, s: State): Result<()> {
    var userLevel :- UserLevel(e.sender, s);
    var redactLevel :- NamedLevel(s, RedactLevel, 50);
    if userLevel >= redactLevel || !e.version.domainEventIds then Ok(())
    else
      var redacter :- Domain(e.id);
      if e.redacts.None? then Ok(())
      else
        var redactee :- Domain(e.redacts.value);
        :- Require(redacter == redactee);
        Ok(())
  }

  // ------------------------------------------------------------ power levels

  function Entry<K(==)>(m: map<K, Level>, k: K): Option<Level> {
    if k in m then Some(m[k]) else None
  }

  /** One turn of the loop over `levels_to_check`. `shielded` says that the entry is
      another user's level. */
  predicate LevelChangeAllowed(before: Option<Level>, after: Option<Level>, userLevel: int, shielded: bool) {
    && (before.Some? ==> before.value.Int().Ok?)
    && (after.Some? ==> after.value.Int().Ok?)
    && (
         || (before.Some? && after.Some? && before.value.Int() == after.value.Int())
         || (&& (before.Some? ==> before.value.n <= userLevel && !(shielded && before.value.n == userLevel))
             && (after.Some? ==> after.value.n <= userLevel)))
  }

  predicate TableChangeAllowed<K(==)>(before: LevelTable<K>, after: LevelTable<K>, userLevel: int) {
    && !before.Malformed? && !after.Malformed?
    && forall k :: k in before.Entries().Keys + after.Entries().Keys ==>
         LevelChangeAllowed(Entry(before.Entries(), k), Entry(after.Entries(), k), userLevel, false)
  }

  predicate UserChangesAllowed(before: LevelTable<string>, after: LevelTable<string>, userLevel: int, sender: string) {
    && !before.Malformed? && !after.Malformed?
    && forall u :: u in before.Entries().Keys + after.Entries().Keys ==>
         LevelChangeAllowed(Entry(before.Entries(), u), Entry(after.Entries(), u), userLevel, u != sender)
  }

  predicate NamedChangesAllowed(before: map<LevelName, Level>, after: map<LevelName, Level>, userLevel: int) {
    forall n: LevelName :: LevelChangeAllowed(Entry(before, n), Entry(after, n), userLevel, false)
  }

  predicate AllPlain<K(==)>(m: map<K, Level>) {
    forall k :: k in m ==> m[k].Plain?
  }

  /** The checks on a power-levels event that do not look at the room state. */
  predicate PowerContentValid(p: PowerLevels, version: RoomVersion) {
    && p.users.Levels?
    && (forall u :: u in p.users.levels ==> ParsesAsUserId(u) && p.users.levels[u].Int().Ok?)
    && (version.enforceIntPowerLevels ==>
          && AllPlain(p.named)
          && AllPlain(p.users.levels)
          && p.events.Levels? && AllPlain(p.events.levels)
          && p.notifications.Levels? && AllPlain(p.notifications.levels))
  }

  /** The comparison of a power-levels event with the one it replaces. */
  predicate PowerChangeAllowed(before: PowerLevels, after: PowerLevels, version: RoomVersion, userLevel: int,
                               sender: string)
  {
    && NamedChangesAllowed(before.named, after.named, userLevel)
    && UserChangesAllowed(before.users, after.users, userLevel, sender)
    && TableChangeAllowed(before.events, after.events, userLevel)
    && (version.limitNotificationsPowerLevels ==>
          TableChangeAllowed(before.notifications, after.notifications, userLevel))
  }

  /** _check_power_levels */
  function CheckPowerLevels(e: Event, s: State): Result<()> {
    var power := e.content.power;
    :- Require(PowerContentValid(power, e.version) && e.stateKey.Some?);
    match Lookup(s, e.kind, e.stateKey.value)
    case None => Ok(())
    case Some(current) =>
      var userLevel :- UserLevel(e.sender, s);
      :- Require(PowerChangeAllowed(current.content.power, power, e.version, userLevel, e.sender));
      Ok(())
  }

  // ---------------------------------------------------------------- verdicts

  /** The rules for events other than create, member and special-cased aliases. */
  function SenderRules(e: Event, s: State): Result<()> {
    var joined := IsIn(e.sender, Join, s);
    :- Require(joined);
    if e.kind == RoomThirdPartyInvite then
      var userLevel :- UserLevel(e.sender, s);
      var inviteLevel :- NamedLevel(s, InviteLevel, 0);
      :- Require(userLevel >= inviteLevel);
      Ok(())
    else
      var _ :- CanSend(e, s);
      if e.kind == RoomPowerLevels then CheckPowerLevels(e, s)
      else if e.kind == RoomRedaction then CheckRedaction(e, s)
      else Ok(())
  }

  /** check_state_dependent_auth_rules */
  function Verdict(e: Event, s: State): Result<()> {
    if e.kind == RoomCreate then Ok(())
    else
      var creatingDomain :- Domain(e.roomId);
      var originatingDomain :- Domain(e.sender);
      :- Require(creatingDomain == originatingDomain || CanFederate(s));
      if e.kind == RoomAliases && e.version.specialCaseAliasesAuth then
        :- Require(e.stateKey.Some? && e.stateKey.value != "" && e.stateKey.value == originatingDomain);
        Ok(())
      else if e.kind == RoomMember then
        MembershipChange(e, s)
      else
        SenderRules(e, s)
  }

  predicate Accepts(e: Event, s: State) {
    Verdict(e, s).Ok?
  }

  /** _check_create, for a create event. */
  predicate CreateAllowed(e: Event) {
    && e.prevEvents == []
    && Domain(e.sender).Ok? && Domain(e.sender) == Domain(e.roomId)
    && e.content.namesKnownVersion
    && (e.version.implicitRoomCreator || e.content.creator.Some?)
  }

  /** auth_types_for_event. It raises on a third-party invite without a token. */
  function AuthTypes(e: Event): Result<set<StateKey>> {
    if e.kind == RoomCreate then Ok({})
    else
      var base := {StateKey(RoomPowerLevels, ""), StateKey(RoomMember, e.sender), StateKey(RoomCreate, "")};
      if e.kind != RoomMember then Ok(base)
      else
        :- Require(e.content.membership.Some? && e.stateKey.Some?);
        var m := e.content.membership.value;
        var withRules := if m == Join || m == Invite || m == Knock then base + {StateKey(RoomJoinRules, "")} else base;
        var withTarget := withRules + {StateKey(RoomMember, e.stateKey.value)};
        var tpi := e.content.thirdPartyInvite;
        if m == Invite && tpi.Some? then
          :- Require(tpi.value.Signed?);
          Ok(withTarget + {StateKey(RoomThirdPartyInvite, tpi.value.token)})
        else if e.version.restrictedJoinRule && m == Join && e.content.authorisingUser.Some? then
          Ok(withTarget + {StateKey(RoomMember, e.content.authorisingUser.value)})
        else
          Ok(withTarget)
  }
}
