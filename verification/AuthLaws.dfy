/** The authorization rules as a law over the contents of the events in force. Every level,
    membership and rule is read here straight from the state, by relations that share nothing
    with the functions of EventAuth, and the verdict is proved to be exactly this law. */
module AuthLaws {
  import opened Basics
  import opened RoomVersions
  import opened Events
  import opened EventAuth
  import opened AuthLoops
  import opened AuthRuns

  // ------------------------------------------------------------------ reading

  /** The JSON value stands for the number. */
  ghost predicate Number(l: Level, n: int) {
    l == Plain(n) || l == Loose(n)
  }

  /** There is no value under the key, or only null. */
  ghost predicate Missing<K>(m: map<K, Level>, k: K) {
    k !in m || m[k] == Null
  }

  const POWER_KEY := StateKey(RoomPowerLevels, "")
  const CREATE_KEY := StateKey(RoomCreate, "")
  const RULES_KEY := StateKey(RoomJoinRules, "")

  ghost predicate CreatorIs(create: Event, version: RoomVersion, u: string) {
    if version.implicitRoomCreator then u == create.sender else create.content.creator == Some(u)
  }

  /** The user's own entry, else the users default, else 0; and before power levels are set 100
      for the creator and 0 for others. */
  ghost predicate UserHas(u: string, s: State, n: int) {
    if POWER_KEY in s then
      var p := s[POWER_KEY].content.power;
      p.users.Levels? &&
      var entries := p.users.levels;
      || (u in entries && Number(entries[u], n))
      || (Missing(entries, u) && UsersDefault in p.named && Number(p.named[UsersDefault], n))
      || (Missing(entries, u) && Missing(p.named, UsersDefault) && n == 0)
    else if CREATE_KEY in s then
      exists c :: CreatorIs(s[CREATE_KEY], s[CREATE_KEY].version, c) && n == if u == c then 100 else 0
    else
      n == 0
  }

  /** A named level, or its default when the event in force does not give it. */
  ghost predicate NamedIs(s: State, name: LevelName, default: int, n: int) {
    if POWER_KEY in s then
      var named := s[POWER_KEY].content.power.named;
      (name in named && Number(named[name], n)) || (Missing(named, name) && n == default)
    else
      n == default
  }

  /** The level needed to send: that of the event type, and with none the state default, 50
      when absent, for state and the events default, 0 when absent, for everything else. */
  ghost predicate SendNeeds(kind: EventType, isState: bool, s: State, n: int) {
    if POWER_KEY in s then
      var p := s[POWER_KEY].content.power;
      p.events.Levels? &&
      var entries := p.events.levels;
      || (kind in entries && Number(entries[kind], n))
      || (Missing(entries, kind) && isState && StateDefault in p.named && Number(p.named[StateDefault], n))
      || (Missing(entries, kind) && isState && StateDefault !in p.named && n == 50)
      || (Missing(entries, kind) && !isState && EventsDefault in p.named && Number(p.named[EventsDefault], n))
      || (Missing(entries, kind) && !isState && EventsDefault !in p.named && n == 0)
    else
      n == if isState then 50 else 0
  }

  ghost predicate MemberIs(u: string, s: State, m: Option<Membership>) {
    var k := StateKey(RoomMember, u);
    if k in s then m.Some? && s[k].content.membership == m else m == None
  }

  ghost predicate InRoom(u: string, s: State) {
    MemberIs(u, s, Some(Join))
  }

  /** The rule that the join-rules event in force names, and invite without one. */
  ghost predicate RuleIs(s: State, rule: JoinRule) {
    if RULES_KEY in s && s[RULES_KEY].content.joinRule.Some? then s[RULES_KEY].content.joinRule == Some(rule)
    else rule == InviteOnly
  }

  ghost predicate Federates(s: State) {
    CREATE_KEY in s && s[CREATE_KEY].content.federatable
  }

  /** The domain is what follows the first colon of the id. */
  ghost predicate DomainIs(id: string, d: string) {
    id != "" && if id[0] == ':' then d == id[1..] else DomainIs(id[1..], d)
  }

  /** The id belongs to the server that created the room, or the room federates. */
  ghost predicate Local(e: Event, id: string, s: State) {
    exists room, own :: DomainIs(e.roomId, room) && DomainIs(id, own) && (room == own || Federates(s))
  }

  lemma LevelIsRead(l: Level, n: int)
    ensures l.Int() == Ok(n) <==> Number(l, n)
  {
  }

  lemma UserLevelIsRead(u: string, s: State, n: int)
    ensures UserLevel(u, s) == Ok(n) <==> UserHas(u, s, n)
  {
    if POWER_KEY !in s && CREATE_KEY in s {
      var create := s[CREATE_KEY];
      var creator := Creator(create, create.version);
      assert forall c :: CreatorIs(create, create.version, c) <==> creator == Ok(c);
      if creator.Ok? {
        assert CreatorIs(create, create.version, creator.value);
      }
    }
  }

  lemma NamedLevelIsRead(s: State, name: LevelName, default: int, n: int)
    ensures NamedLevel(s, name, default) == Ok(n) <==> NamedIs(s, name, default, n)
  {
  }

  lemma SendLevelIsRead(kind: EventType, isState: bool, s: State, n: int)
    ensures SendLevel(kind, isState, s) == Ok(n) <==> SendNeeds(kind, isState, s, n)
  {
  }

  lemma MembershipIsRead(u: string, s: State, m: Option<Membership>)
    ensures MembershipOf(u, s) == Ok(m) <==> MemberIs(u, s, m)
  {
  }

  lemma RuleIsRead(s: State, rule: JoinRule)
    ensures JoinRuleInForce(s) == rule <==> RuleIs(s, rule)
  {
  }

  lemma {:induction false} DomainIsRead(id: string, d: string)
    ensures Domain(id) == Ok(d) <==> DomainIs(id, d)
  {
    if id != "" && id[0] != ':' {
      DomainIsRead(id[1..], d);
      DomainOfTail(id);
    }
  }

  lemma {:induction false} DomainOfTail(id: string)
    requires id != "" && id[0] != ':'
    ensures Domain(id) == Domain(id[1..])
  {
    var i, k := Find(id, ':', 0), Find(id[1..], ':', 0);
    if k != -1 {
      assert id[k + 1] == ':';
      assert forall j :: 0 < j < k + 1 ==> id[j] == id[1..][j - 1];
      assert i == k + 1;
      assert id[1..][k + 1..] == id[i + 1..];
    }
  }

  lemma LocalIsRead(e: Event, id: string, s: State)
    ensures Local(e, id, s) <==>
      Domain(e.roomId).Ok? && Domain(id).Ok? && (Domain(e.roomId) == Domain(id) || CanFederate(s))
  {
    var room, own := Domain(e.roomId), Domain(id);
    if room.Ok? && own.Ok? {
      DomainIsRead(e.roomId, room.value);
      DomainIsRead(id, own.value);
    }
    forall d | DomainIs(e.roomId, d) ensures room == Ok(d) {
      DomainIsRead(e.roomId, d);
    }
    forall d | DomainIs(id, d) ensures own == Ok(d) {
      DomainIsRead(id, d);
    }
  }

  // ------------------------------------------------------- replacing power levels

  /** The JSON value that a table of power levels has for the entry. */
  ghost function RawAt(r: LevelRef, p: PowerLevels): Option<Level> {
    match r
    case Named(name) => if name in p.named then Some(p.named[name]) else None
    case OfUser(u) => if p.users.Levels? && u in p.users.levels then Some(p.users.levels[u]) else None
    case OfEvent(k) => if p.events.Levels? && k in p.events.levels then Some(p.events.levels[k]) else None
    case OfNotification(k) =>
      if p.notifications.Levels? && k in p.notifications.levels then Some(p.notifications.levels[k]) else None
  }

  /** The entry is the number, or is not there. */
  ghost predicate Reads(l: Option<Level>, v: Option<int>) {
    match l
    case None => v == None
    case Some(json) => v.Some? && Number(json, v.value)
  }

  ghost predicate AtMost(v: Option<int>, level: int) {
    v.Some? ==> v.value <= level
  }

  /** Both values of the entry are numbers or absent, and if they differ neither is above the
      sender and it is not the entry of another user at the sender's own level. */
  ghost predicate EntryWithin(r: LevelRef, before: PowerLevels, after: PowerLevels, level: int, sender: string) {
    exists was, now ::
      && Reads(RawAt(r, before), was) && Reads(RawAt(r, after), now)
      && (was != now ==>
            && AtMost(was, level) && AtMost(now, level)
            && !(r.OfUser? && r.user != sender && was == Some(level)))
  }

  /** Notification levels are compared in later room versions only. */
  predicate Compared(r: LevelRef, version: RoomVersion) {
    r.OfNotification? ==> version.limitNotificationsPowerLevels
  }

  ghost predicate ChangesWithin(before: PowerLevels, after: PowerLevels, version: RoomVersion, level: int,
                                sender: string)
  {
    && before.users != Malformed && after.users != Malformed && before.events != Malformed && after.events != Malformed
    && (version.limitNotificationsPowerLevels ==> before.notifications != Malformed && after.notifications != Malformed)
    && (forall r :: Compared(r, version) ==> EntryWithin(r, before, after, level, sender))
  }

  lemma EntryIsCompared(r: LevelRef, before: PowerLevels, after: PowerLevels, level: int, sender: string)
    ensures RefAllowed(r, before, after, level, sender) <==> EntryWithin(r, before, after, level, sender)
  {
    var was, now := RawAt(r, before), RawAt(r, after);
    OneComparison(was, now, level, r.OfUser? && r.user != sender);
    assert RefAllowed(r, before, after, level, sender) <==>
           LevelChangeAllowed(was, now, level, r.OfUser? && r.user != sender);
  }

  lemma OneComparison(before: Option<Level>, after: Option<Level>, level: int, shielded: bool)
    ensures LevelChangeAllowed(before, after, level, shielded) <==>
      exists was, now ::
        && Reads(before, was) && Reads(after, now)
        && (was != now ==> AtMost(was, level) && AtMost(now, level) && !(shielded && was == Some(level)))
  {
    if LevelChangeAllowed(before, after, level, shielded) {
      var was := if before.Some? then Some(before.value.n) else None;
      var now := if after.Some? then Some(after.value.n) else None;
      assert Reads(before, was) && Reads(after, now);
    }
  }

  lemma UnlistedIsWithin(r: LevelRef, before: PowerLevels, after: PowerLevels, version: RoomVersion, level: int,
                         sender: string)
    requires Compared(r, version) && !Listed(r, before, after, version)
    ensures EntryWithin(r, before, after, level, sender)
  {
    assert Reads(RawAt(r, before), None) && Reads(RawAt(r, after), None);
  }

  /** The comparison of the original is exactly this: with readable levels, every entry whose
      value differs or is on one side only has both values at most the sender's level, and no
      such entry is another user's at the sender's own level. */
  lemma ComparisonIsExact(before: PowerLevels, after: PowerLevels, version: RoomVersion, level: int, sender: string)
    ensures PowerChangeAllowed(before, after, version, level, sender) <==>
            ChangesWithin(before, after, version, level, sender)
  {
    if !(before.users.Malformed? || after.users.Malformed? || before.events.Malformed? || after.events.Malformed?
         || (version.limitNotificationsPowerLevels
             && (before.notifications.Malformed? || after.notifications.Malformed?))) {
      RefsDecide(before, after, version, level, sender);
      forall r ensures RefAllowed(r, before, after, level, sender) <==> EntryWithin(r, before, after, level, sender) {
        EntryIsCompared(r, before, after, level, sender);
      }
      forall r | Compared(r, version) && !Listed(r, before, after, version)
        ensures EntryWithin(r, before, after, level, sender)
      {
        UnlistedIsWithin(r, before, after, version, level, sender);
      }
      assert forall r :: Listed(r, before, after, version) ==> Compared(r, version);
    }
  }

  // ------------------------------------------------------------------- sending

  ghost predicate IsUserId(id: string) {
    |id| > 0 && id[0] == '@' && exists i :: 0 < i < |id| && id[i] == ':'
  }

  ghost predicate AllNumbers<K>(m: map<K, Level>) {
    forall k :: k in m ==> exists n :: Number(m[k], n)
  }

  ghost predicate OnlyIntegers<K>(table: LevelTable<K>) {
    table.Levels? && forall k :: k in table.levels ==> exists n :: table.levels[k] == Plain(n)
  }

  /** The content of a power-levels event is in order by itself. */
  ghost predicate WellFormedLevels(p: PowerLevels, version: RoomVersion) {
    && p.users.Levels? && (forall u :: u in p.users.levels ==> IsUserId(u)) && AllNumbers(p.users.levels)
    && (version.enforceIntPowerLevels ==>
          && OnlyIntegers(p.users) && OnlyIntegers(p.events) && OnlyIntegers(p.notifications)
          && forall name :: name in p.named ==> exists n :: p.named[name] == Plain(n))
  }

  ghost predicate PowerLawful(e: Event, s: State) {
    && WellFormedLevels(e.content.power, e.version)
    && e.stateKey.Some?
    && var own := StateKey(RoomPowerLevels, e.stateKey.value);
       own in s ==>
         exists level :: UserHas(e.sender, s, level)
                         && ChangesWithin(s[own].content.power, e.content.power, e.version, level, e.sender)
  }

  /** At or above the redact level, or in the first two room versions of the same server as the
      event redacted, which later versions check elsewhere. */
  ghost predicate RedactionLawful(e: Event, s: State) {
    exists level, need ::
      && UserHas(e.sender, s, level) && NamedIs(s, RedactLevel, 50, need)
      && (level >= need || !e.version.domainEventIds
          || exists d :: DomainIs(e.id, d) && (e.redacts.Some? ==> DomainIs(e.redacts.value, d)))
  }

  ghost predicate FirstColonAt(key: string, colon: int) {
    0 < colon < |key| && key[colon] == ':' && forall j :: 0 < j < colon ==> key[j] != ':'
  }

  /** The owner ends at the first underscore after the colon, or at the end. */
  ghost predicate OwnerEnds(key: string, colon: int, end: int)
    requires FirstColonAt(key, colon)
  {
    && colon < end <= |key|
    && (forall j :: colon < j < end ==> key[j] != '_')
    && (end < |key| ==> key[end] == '_')
  }

  /** The owner is the key up to the first underscore after its first colon, or all of it. */
  ghost predicate OwnerIs(key: string, owner: string) {
    exists colon, end :: FirstColonAt(key, colon) && OwnerEnds(key, colon, end) && owner == key[..end]
  }

  /** A key that looks like a user id is the sender's own, or under MSC3757 belongs to the sender
      or to somebody strictly below. */
  ghost predicate KeyLawful(e: Event, s: State, level: int) {
    e.stateKey.Some? && |e.stateKey.value| > 0 && e.stateKey.value[0] == '@' && e.stateKey.value != e.sender ==>
      && e.version.msc3757Enabled && e.ownerIdValid
      && exists owner :: OwnerIs(e.stateKey.value, owner)
                         && (owner == e.sender || exists n :: UserHas(owner, s, n) && level > n)
  }

  ghost predicate SendLawful(e: Event, s: State) {
    && (exists level, need ::
          && UserHas(e.sender, s, level) && SendNeeds(e.kind, e.stateKey.Some?, s, need)
          && level >= need && KeyLawful(e, s, level))
    && (e.kind == RoomPowerLevels ==> PowerLawful(e, s))
    && (e.kind == RoomRedaction ==> RedactionLawful(e, s))
  }

  lemma OwnerIsRead(e: Event, key: string, owner: string)
    ensures StateKeyOwner(e, key) == Ok(owner) <==> e.ownerIdValid && OwnerIs(key, owner)
  {
    if StateKeyOwner(e, key) == Ok(owner) {
      OwnerIsFound(e, key);
    }
    if e.ownerIdValid && OwnerIs(key, owner) {
      var colon, end :| FirstColonAt(key, colon) && OwnerEnds(key, colon, end) && owner == key[..end];
      OwnerIsFirst(e, key, colon, end);
    }
  }

  lemma OwnerIsFound(e: Event, key: string)
    requires StateKeyOwner(e, key).Ok?
    ensures OwnerIs(key, StateKeyOwner(e, key).value)
  {
    var colon := Find(key, ':', 1);
    var suffix := Find(key, '_', colon + 1);
    var end := if suffix == -1 then |key| else suffix;
    assert FirstColonAt(key, colon) && OwnerEnds(key, colon, end);
    assert key == key[..|key|];
  }

  lemma OwnerIsFirst(e: Event, key: string, colon: int, end: int)
    requires e.ownerIdValid && FirstColonAt(key, colon) && OwnerEnds(key, colon, end)
    ensures StateKeyOwner(e, key) == Ok(key[..end])
  {
    assert Find(key, ':', 1) == colon;
    var suffix := Find(key, '_', colon + 1);
    assert end < |key| ==> suffix == end;
    assert key == key[..|key|];
  }

  lemma KeyIsChecked(e: Event, s: State, level: int)
    requires UserLevel(e.sender, s) == Ok(level)
    ensures KeyLawful(e, s, level) <==>
      (e.stateKey.Some? && |e.stateKey.value| > 0 && e.stateKey.value[0] == '@' && e.stateKey.value != e.sender ==>
         && e.version.msc3757Enabled && StateKeyOwner(e, e.stateKey.value).Ok?
         && var owner := StateKeyOwner(e, e.stateKey.value).value;
            owner == e.sender || (UserLevel(owner, s).Ok? && level > UserLevel(owner, s).value))
  {
    if e.stateKey.Some? {
      var key := e.stateKey.value;
      var named := StateKeyOwner(e, key);
      if named.Ok? {
        OwnerIsRead(e, key, named.value);
        if UserLevel(named.value, s).Ok? {
          UserLevelIsRead(named.value, s, UserLevel(named.value, s).value);
        }
      }
      forall owner | e.ownerIdValid && OwnerIs(key, owner) ensures named == Ok(owner) {
        OwnerIsRead(e, key, owner);
      }
      forall owner, n | UserHas(owner, s, n) ensures UserLevel(owner, s) == Ok(n) {
        UserLevelIsRead(owner, s, n);
      }
    }
  }

  lemma SendIsChecked(e: Event, s: State)
    ensures CanSend(e, s).Ok? <==>
      exists level, need ::
        && UserHas(e.sender, s, level) && SendNeeds(e.kind, e.stateKey.Some?, s, need)
        && level >= need && KeyLawful(e, s, level)
  {
    var level, need := UserLevel(e.sender, s), SendLevel(e.kind, e.stateKey.Some?, s);
    if level.Ok? && need.Ok? {
      UserLevelIsRead(e.sender, s, level.value);
      SendLevelIsRead(e.kind, e.stateKey.Some?, s, need.value);
      KeyIsChecked(e, s, level.value);
    }
    forall n | UserHas(e.sender, s, n) ensures level == Ok(n) {
      UserLevelIsRead(e.sender, s, n);
    }
    forall n | SendNeeds(e.kind, e.stateKey.Some?, s, n) ensures need == Ok(n) {
      SendLevelIsRead(e.kind, e.stateKey.Some?, s, n);
    }
  }

  lemma UserIdIsParsed(id: string)
    ensures ParsesAsUserId(id) <==> IsUserId(id)
  {
    var i := Find(id, ':', 1);
    if i != -1 {
      assert id[i] == ':';
    }
  }

  lemma NumbersAreRead(l: Level)
    ensures l.Int().Ok? <==> exists n :: Number(l, n)
    ensures l.Plain? <==> exists n :: l == Plain(n)
  {
    if l.Int().Ok? {
      assert Number(l, l.n);
    }
    if l.Plain? {
      assert l == Plain(l.n);
    }
  }

  lemma ContentIsChecked(p: PowerLevels, version: RoomVersion)
    ensures PowerContentValid(p, version) <==> WellFormedLevels(p, version)
  {
    forall u ensures ParsesAsUserId(u) <==> IsUserId(u) {
      UserIdIsParsed(u);
    }
    forall l: Level ensures l.Int().Ok? <==> exists n :: Number(l, n) {
      NumbersAreRead(l);
    }
    forall l: Level ensures l.Plain? <==> exists n :: l == Plain(n) {
      NumbersAreRead(l);
    }
  }

  lemma PowerIsChecked(e: Event, s: State)
    requires e.kind == RoomPowerLevels
    ensures CheckPowerLevels(e, s).Ok? <==> PowerLawful(e, s)
  {
    ContentIsChecked(e.content.power, e.version);
    if e.stateKey.Some? && StateKey(RoomPowerLevels, e.stateKey.value) in s {
      var before := s[StateKey(RoomPowerLevels, e.stateKey.value)].content.power;
      var level := UserLevel(e.sender, s);
      if level.Ok? {
        UserLevelIsRead(e.sender, s, level.value);
        ComparisonIsExact(before, e.content.power, e.version, level.value, e.sender);
      }
      forall n | UserHas(e.sender, s, n) ensures level == Ok(n) {
        UserLevelIsRead(e.sender, s, n);
      }
    }
  }

  lemma RedactionIsChecked(e: Event, s: State)
    ensures CheckRedaction(e, s).Ok? <==> RedactionLawful(e, s)
  {
    var level, need := UserLevel(e.sender, s), NamedLevel(s, RedactLevel, 50);
    if level.Ok? && need.Ok? {
      UserLevelIsRead(e.sender, s, level.value);
      NamedLevelIsRead(s, RedactLevel, 50, need.value);
    }
    forall n | UserHas(e.sender, s, n) ensures level == Ok(n) {
      UserLevelIsRead(e.sender, s, n);
    }
    forall n | NamedIs(s, RedactLevel, 50, n) ensures need == Ok(n) {
      NamedLevelIsRead(s, RedactLevel, 50, n);
    }
    forall d ensures Domain(e.id) == Ok(d) <==> DomainIs(e.id, d) {
      DomainIsRead(e.id, d);
    }
    if e.redacts.Some? {
      forall d ensures Domain(e.redacts.value) == Ok(d) <==> DomainIs(e.redacts.value, d) {
        DomainIsRead(e.redacts.value, d);
      }
    }
  }

  // ---------------------------------------------------------------- membership

  /** Joined, and at or above the invite level, 0 when absent. */
  ghost predicate Inviter(u: string, s: State) {
    && InRoom(u, s)
    && exists level, need :: UserHas(u, s, level) && NamedIs(s, InviteLevel, 0, need) && level >= need
  }

  /** Joined, at or above the named level, 50 when absent, and strictly above the other user. */
  ghost predicate Above(who: string, u: string, s: State, name: LevelName) {
    && InRoom(who, s) && who != u
    && exists level, other, need ::
         && UserHas(who, s, level) && UserHas(u, s, other) && NamedIs(s, name, 50, need)
         && level >= need && level > other
  }

  /** The invite is signed for its target under a key of the third-party invite with its token,
      which the same sender issued. */
  ghost predicate TokenLawful(e: Event, s: State) {
    exists token, mxid, keys, k ::
      && e.content.thirdPartyInvite == Some(Signed(token, true, mxid, keys)) && e.stateKey == Some(mxid)
      && StateKey(RoomThirdPartyInvite, token) in s
      && s[StateKey(RoomThirdPartyInvite, token)].sender == e.sender
      && k in s[StateKey(RoomThirdPartyInvite, token)].content.publicKeys && k in keys
  }

  /** The join rule lets in a user who comes from the given membership. */
  ghost predicate DoorOpen(from: Option<Membership>, e: Event, s: State) {
    var v, known := e.version, from == Some(Join) || from == Some(Invite);
    || RuleIs(s, Public)
    || (RuleIs(s, InviteOnly) && known)
    || (RuleIs(s, KnockRule) && v.knockJoinRule && known)
    || (((RuleIs(s, Restricted) && v.restrictedJoinRule) || (RuleIs(s, KnockRestricted) && v.knockRestrictedJoinRule))
        && (known || exists a :: e.content.authorisingUser == Some(a) && Inviter(a, s)))
  }

  ghost predicate MoveLawful(from: Option<Membership>, to: Membership, e: Event, u: string, s: State) {
    match to
    case Join => e.sender == u && from != Some(Ban) && DoorOpen(from, e, s)
    case Invite =>
      && from != Some(Ban)
      && (if e.content.thirdPartyInvite.Some? then TokenLawful(e, s) else from != Some(Join) && Inviter(e.sender, s))
    case Knock =>
      && e.sender == u && e.version.knockJoinRule
      && from != Some(Join) && from != Some(Invite) && from != Some(Ban)
      && (RuleIs(s, KnockRule) || (e.version.knockRestrictedJoinRule && RuleIs(s, KnockRestricted)))
    case Leave =>
      if e.sender == u then
        from == Some(Join) || from == Some(Invite) || (e.version.knockJoinRule && from == Some(Knock))
      else
        Above(e.sender, u, s, KickLevel) && (from == Some(Ban) ==> Above(e.sender, u, s, BanLevel))
    case Ban => Above(e.sender, u, s, BanLevel)
    case OtherMembership(_) => false
  }

  /** Whatever the move, both memberships, both levels and the invite and ban levels must be
      readable. */
  ghost predicate PartiesReadable(sender: string, u: string, s: State) {
    && (exists m :: MemberIs(sender, s, m)) && (exists m :: MemberIs(u, s, m))
    && (exists n :: UserHas(sender, s, n)) && (exists n :: UserHas(u, s, n))
    && (exists n :: NamedIs(s, InviteLevel, 0, n)) && (exists n :: NamedIs(s, BanLevel, 50, n))
  }

  ghost predicate ChangeLawful(e: Event, u: string, to: Membership, s: State) {
    && Local(e, u, s) && PartiesReadable(e.sender, u, s)
    && exists from :: MemberIs(u, s, from) && MoveLawful(from, to, e, u, s)
  }

  /** The event follows the create event alone and is a join. */
  ghost predicate FirstJoin(e: Event, to: Membership, s: State) {
    to == Join && CREATE_KEY in s && e.prevEvents == [s[CREATE_KEY].id]
  }

  /** A first join needs a named creator, and the creator's own needs nothing else. */
  ghost predicate MemberLawful(e: Event, s: State) {
    exists u, to ::
      && e.stateKey == Some(u) && e.content.membership == Some(to)
      && if FirstJoin(e, to, s) then
           exists c :: CreatorIs(s[CREATE_KEY], e.version, c) && (c == u || ChangeLawful(e, u, to, s))
         else
           ChangeLawful(e, u, to, s)
  }

  lemma AllLevelsRead(s: State)
    ensures forall u, n :: UserLevel(u, s) == Ok(n) <==> UserHas(u, s, n)
    ensures forall name, default, n :: NamedLevel(s, name, default) == Ok(n) <==> NamedIs(s, name, default, n)
    ensures forall u, m :: MembershipOf(u, s) == Ok(m) <==> MemberIs(u, s, m)
  {
    forall u, n ensures UserLevel(u, s) == Ok(n) <==> UserHas(u, s, n) {
      UserLevelIsRead(u, s, n);
    }
    forall name, default, n ensures NamedLevel(s, name, default) == Ok(n) <==> NamedIs(s, name, default, n) {
      NamedLevelIsRead(s, name, default, n);
    }
    forall u, m ensures MembershipOf(u, s) == Ok(m) <==> MemberIs(u, s, m) {
      MembershipIsRead(u, s, m);
    }
  }

  lemma InviterIsChecked(u: string, s: State)
    ensures MayInvite(u, s) <==> Inviter(u, s)
  {
    AllLevelsRead(s);
    if MayInvite(u, s) {
      assert UserHas(u, s, UserLevel(u, s).value) && NamedIs(s, InviteLevel, 0, NamedLevel(s, InviteLevel, 0).value);
    }
  }

  lemma RankIsChecked(who: string, u: string, s: State, name: LevelName)
    ensures Outranks(who, u, s, name) <==> Above(who, u, s, name)
  {
    AllLevelsRead(s);
    if Outranks(who, u, s, name) {
      assert UserHas(who, s, UserLevel(who, s).value) && UserHas(u, s, UserLevel(u, s).value)
             && NamedIs(s, name, 50, NamedLevel(s, name, 50).value);
    }
  }

  lemma TokenIsChecked(e: Event, s: State)
    ensures ThirdPartyInviteVerifies(e, s) <==> TokenLawful(e, s)
  {
    if ThirdPartyInviteVerifies(e, s) {
      var tpi := e.content.thirdPartyInvite.value;
      var k :| k in Lookup(s, RoomThirdPartyInvite, tpi.token).value.content.publicKeys && k in tpi.verifiesUnder;
      assert e.content.thirdPartyInvite == Some(Signed(tpi.token, true, tpi.mxid, tpi.verifiesUnder));
    }
  }

  lemma DoorIsChecked(from: Option<Membership>, e: Event, s: State)
    ensures JoinRuleAdmits(from, e, s) <==> DoorOpen(from, e, s)
  {
    forall rule ensures JoinRuleInForce(s) == rule <==> RuleIs(s, rule) {
      RuleIsRead(s, rule);
    }
    if e.content.authorisingUser.Some? {
      InviterIsChecked(e.content.authorisingUser.value, s);
    }
  }

  lemma MoveIsChecked(from: Option<Membership>, to: Membership, e: Event, u: string, s: State)
    ensures LegalMove(from, to, e, u, s) <==> MoveLawful(from, to, e, u, s)
  {
    match to
    case Join => DoorIsChecked(from, e, s);
    case Invite =>
      TokenIsChecked(e, s);
      InviterIsChecked(e.sender, s);
    case Knock =>
      RuleIsRead(s, KnockRule);
      RuleIsRead(s, KnockRestricted);
    case Leave =>
      RankIsChecked(e.sender, u, s, KickLevel);
      RankIsChecked(e.sender, u, s, BanLevel);
    case Ban => RankIsChecked(e.sender, u, s, BanLevel);
    case OtherMembership(_) =>
  }

  lemma PartiesAreRead(sender: string, u: string, s: State)
    ensures PartiesOf(sender, u, s).Ok? <==> PartiesReadable(sender, u, s)
  {
    AllLevelsRead(s);
    if PartiesOf(sender, u, s).Ok? {
      assert MemberIs(sender, s, MembershipOf(sender, s).value) && MemberIs(u, s, MembershipOf(u, s).value);
      assert UserHas(sender, s, UserLevel(sender, s).value) && UserHas(u, s, UserLevel(u, s).value);
      assert NamedIs(s, InviteLevel, 0, NamedLevel(s, InviteLevel, 0).value);
      assert NamedIs(s, BanLevel, 50, NamedLevel(s, BanLevel, 50).value);
    }
  }

  lemma ChangeIsChecked(e: Event, u: string, to: Membership, s: State)
    requires e.stateKey == Some(u) && e.content.membership == Some(to)
    ensures ChangeLawful(e, u, to, s) <==>
      && Local(e, u, s) && PartiesOf(e.sender, u, s).Ok?
      && PartiesRule(e, s, to, u, PartiesOf(e.sender, u, s).value).Ok?
  {
    PartiesAreRead(e.sender, u, s);
    var p := PartiesOf(e.sender, u, s);
    if p.Ok? {
      RulesAreLegalMoves(e, s, u, to, p.value);
      MoveIsChecked(p.value.target, to, e, u, s);
      MembershipIsRead(u, s, p.value.target);
      forall from | MemberIs(u, s, from) ensures from == p.value.target {
        MembershipIsRead(u, s, from);
      }
    }
  }

  lemma MembershipIsChecked(e: Event, s: State)
    ensures MembershipChange(e, s).Ok? <==> MemberLawful(e, s)
  {
    if e.stateKey.Some? && e.content.membership.Some? {
      var u, to := e.stateKey.value, e.content.membership.value;
      ChangeIsChecked(e, u, to, s);
      LocalIsRead(e, u, s);
      FirstJoinIsRead(e, u, to, s);
    }
  }

  lemma FirstJoinIsRead(e: Event, u: string, to: Membership, s: State)
    requires e.stateKey == Some(u) && e.content.membership == Some(to)
    ensures IsCreatorJoin(e, s).Ok? <==>
      (FirstJoin(e, to, s) ==> exists c :: CreatorIs(s[CREATE_KEY], e.version, c))
    ensures IsCreatorJoin(e, s) == Ok(true) <==> FirstJoin(e, to, s) && CreatorIs(s[CREATE_KEY], e.version, u)
  {
    if |e.prevEvents| == 1 {
      assert e.prevEvents == [e.prevEvents[0]];
    }
    if FirstJoin(e, to, s) {
      var creator := Creator(s[CREATE_KEY], e.version);
      if creator.Ok? {
        assert CreatorIs(s[CREATE_KEY], e.version, creator.value);
      }
    }
  }

  // ------------------------------------------------------------------ the verdict

  /** An alias event of the first room versions is kept under the sender's own server. */
  ghost predicate AliasLawful(e: Event) {
    exists d :: DomainIs(e.sender, d) && d != "" && e.stateKey == Some(d)
  }

  ghost predicate SenderLawful(e: Event, s: State) {
    && InRoom(e.sender, s)
    && if e.kind == RoomThirdPartyInvite then Inviter(e.sender, s) else SendLawful(e, s)
  }

  /** The law for every event against every state. */
  ghost predicate Lawful(e: Event, s: State) {
    e.kind == RoomCreate ||
    (Local(e, e.sender, s) &&
     if e.kind == RoomAliases && e.version.specialCaseAliasesAuth then AliasLawful(e)
     else if e.kind == RoomMember then MemberLawful(e, s)
     else SenderLawful(e, s))
  }

  lemma AliasIsChecked(e: Event, d: string)
    requires Domain(e.sender) == Ok(d)
    ensures AliasLawful(e) <==> e.stateKey.Some? && e.stateKey.value != "" && e.stateKey.value == d
  {
    forall x ensures DomainIs(e.sender, x) <==> x == d {
      DomainIsRead(e.sender, x);
    }
  }

  lemma SenderIsChecked(e: Event, s: State)
    ensures SenderRules(e, s).Ok? <==> SenderLawful(e, s)
  {
    MembershipIsRead(e.sender, s, Some(Join));
    InviterIsChecked(e.sender, s);
    SendIsChecked(e, s);
    RedactionIsChecked(e, s);
    if e.kind == RoomPowerLevels {
      PowerIsChecked(e, s);
    }
  }

  lemma AliasVerdict(e: Event, s: State)
    requires e.kind == RoomAliases && e.version.specialCaseAliasesAuth
    ensures Accepts(e, s) <==> Local(e, e.sender, s) && AliasLawful(e)
  {
    LocalIsRead(e, e.sender, s);
    if Domain(e.sender).Ok? {
      AliasIsChecked(e, Domain(e.sender).value);
    }
  }

  lemma MemberVerdict(e: Event, s: State)
    requires e.kind == RoomMember
    ensures Accepts(e, s) <==> Local(e, e.sender, s) && MemberLawful(e, s)
  {
    LocalIsRead(e, e.sender, s);
    MembershipIsChecked(e, s);
  }

  lemma SenderVerdict(e: Event, s: State)
    requires e.kind != RoomCreate && e.kind != RoomMember
    requires !(e.kind == RoomAliases && e.version.specialCaseAliasesAuth)
    ensures Accepts(e, s) <==> Local(e, e.sender, s) && SenderLawful(e, s)
  {
    LocalIsRead(e, e.sender, s);
    SenderIsChecked(e, s);
  }

  /** The verdict of the rules is exactly the law, for every event and every state. */
  lemma VerdictIsLaw(e: Event, s: State)
    ensures Accepts(e, s) <==> Lawful(e, s)
  {
    if e.kind == RoomAliases && e.version.specialCaseAliasesAuth {
      AliasVerdict(e, s);
    } else if e.kind == RoomMember {
      MemberVerdict(e, s);
    } else if e.kind != RoomCreate {
      SenderVerdict(e, s);
    }
  }

  /** Every event of every linear run is lawful against the state it met. */
  lemma {:induction false} RunsAreLawful(events: seq<Event>, i: nat)
    requires Run(events) && 0 < i < |events|
    ensures Lawful(events[i], Before(events, i))
  {
    assert Follows(events, i);
    VerdictIsLaw(events[i], Before(events, i));
  }

  /** Every entry of the table is a number or absent, and none is above the level. */
  ghost predicate NoneAbove(p: PowerLevels, version: RoomVersion, level: int) {
    && p.users != Malformed && p.events != Malformed
    && (version.limitNotificationsPowerLevels ==> p.notifications != Malformed)
    && (forall r :: Compared(r, version) ==> exists v :: Reads(RawAt(r, p), v) && AtMost(v, level))
  }

  ghost predicate OthersBelow(p: PowerLevels, u: string, level: int) {
    forall w, v :: w != u && Reads(RawAt(OfUser(w), p), v) ==> v != Some(level)
  }

  lemma WithinIfNoneAbove(before: PowerLevels, after: PowerLevels, version: RoomVersion, level: int, sender: string)
    requires NoneAbove(before, version, level) && OthersBelow(before, sender, level) && NoneAbove(after, version, level)
    ensures ChangesWithin(before, after, version, level, sender)
  {
    forall r | Compared(r, version) ensures EntryWithin(r, before, after, level, sender) {
      var was :| Reads(RawAt(r, before), was) && AtMost(was, level);
      var now :| Reads(RawAt(r, after), now) && AtMost(now, level);
    }
  }

  /** A member whom no level in force exceeds, and whom no other user equals, and a well-formed
      table none of whose levels is above the member's own. */
  ghost predicate MayInstall(s: State, e: Event, level: int) {
    && e.kind == RoomPowerLevels && e.stateKey == Some("")
    && POWER_KEY in s && InRoom(e.sender, s) && Local(e, e.sender, s) && UserHas(e.sender, s, level)
    && (exists need :: SendNeeds(RoomPowerLevels, true, s, need) && level >= need)
    && NoneAbove(s[POWER_KEY].content.power, e.version, level)
    && OthersBelow(s[POWER_KEY].content.power, e.sender, level)
    && WellFormedLevels(e.content.power, e.version) && NoneAbove(e.content.power, e.version, level)
  }

  lemma InstallIsAccepted(s: State, e: Event, level: int)
    requires MayInstall(s, e, level)
    ensures Accepts(e, s)
  {
    WithinIfNoneAbove(s[POWER_KEY].content.power, e.content.power, e.version, level, e.sender);
    assert KeyLawful(e, s, level);
    VerdictIsLaw(e, s);
  }

  /** In every run from any state such a member may install such a table. */
  lemma {:induction false} TopMayInstall(start: State, events: seq<Event>, e: Event, level: int)
    requires AllAccepted(start, events) && MayInstall(StateFrom(start, events), e, level)
    ensures AllAccepted(start, events + [e])
    ensures PowerLevelEvent(StateFrom(start, events + [e])) == Some(e)
  {
    InstallIsAccepted(StateFrom(start, events), e, level);
    AppendAccepted(start, events, e);
  }

  lemma {:induction false} AppendAccepted(start: State, events: seq<Event>, e: Event)
    requires AllAccepted(start, events) && Accepts(e, StateFrom(start, events))
    ensures AllAccepted(start, events + [e]) && StateFrom(start, events + [e]) == Apply(StateFrom(start, events), e)
  {
    assert (events + [e])[..|events|] == events;
  }

  // ---------------------------------------------------------- create and selection

  /** A create event comes first, from the server that names the room, in a known version and
      with a creator where the version wants one. */
  lemma CreateIsChecked(e: Event)
    ensures CreateAllowed(e) <==>
      && e.prevEvents == [] && e.content.namesKnownVersion
      && (exists d :: DomainIs(e.sender, d) && DomainIs(e.roomId, d))
      && (exists c :: CreatorIs(e, e.version, c))
  {
    if Domain(e.sender).Ok? && Domain(e.roomId).Ok? {
      DomainIsRead(e.sender, Domain(e.sender).value);
      DomainIsRead(e.roomId, Domain(e.roomId).value);
    }
    if d :| DomainIs(e.sender, d) && DomainIs(e.roomId, d) {
      DomainIsRead(e.sender, d);
      DomainIsRead(e.roomId, d);
    }
    if e.version.implicitRoomCreator {
      assert CreatorIs(e, e.version, e.sender);
    } else if e.content.creator.Some? {
      assert CreatorIs(e, e.version, e.content.creator.value);
    }
  }

  /** The entries that an event of a room must cite. */
  ghost predicate Cites(e: Event, k: StateKey) {
    && e.kind != RoomCreate
    && (|| k == POWER_KEY || k == CREATE_KEY || k == StateKey(RoomMember, e.sender)
        || (e.kind == RoomMember && CitesAsMember(e, k)))
  }

  ghost predicate CitesAsMember(e: Event, k: StateKey) {
    var to := e.content.membership;
    || (k == RULES_KEY && (to == Some(Join) || to == Some(Invite) || to == Some(Knock)))
    || (k.kind == RoomMember && e.stateKey == Some(k.key))
    || (k.kind == RoomThirdPartyInvite && to == Some(Invite)
        && exists complete, mxid, keys :: e.content.thirdPartyInvite == Some(Signed(k.key, complete, mxid, keys)))
    || (k.kind == RoomMember && to == Some(Join) && e.version.restrictedJoinRule
        && e.content.authorisingUser == Some(k.key))
  }

  /** The selection can be computed exactly for events other than malformed member events, and
      then holds exactly the entries that the event must cite. */
  lemma SelectionIsListed(e: Event, k: StateKey)
    ensures AuthTypes(e).Ok? <==>
      (e.kind == RoomMember ==>
         && e.content.membership.Some? && e.stateKey.Some?
         && !(e.content.membership == Some(Invite) && e.content.thirdPartyInvite == Some(NoToken)))
    ensures AuthTypes(e).Ok? ==> (k in AuthTypes(e).value <==> Cites(e, k))
  {
    if AuthTypes(e).Ok? && e.kind == RoomMember && e.content.membership == Some(Invite)
       && e.content.thirdPartyInvite.Some? {
      var t := e.content.thirdPartyInvite.value;
      assert e.content.thirdPartyInvite == Some(Signed(t.token, t.complete, t.mxid, t.verifiesUnder));
    }
  }
}
