/** Power levels, bans and invitations over whole runs of accepted events. */
module AuthRuns {
  import opened Basics
  import opened RoomVersions
  import opened Events
  import opened EventAuth

  /** A state event replaces the entry under its type and state key. */
  function Apply(s: State, e: Event): State {
    if e.stateKey.Some? then s[StateKey(e.kind, e.stateKey.value) := e] else s
  }

  function StateFrom(s: State, events: seq<Event>): State {
    if events == [] then s
    else Apply(StateFrom(s, events[..|events| - 1]), events[|events| - 1])
  }

  /** Every event is accepted against the state its predecessors left. */
  ghost predicate AllAccepted(s: State, events: seq<Event>) {
    events == [] ||
    var n := |events| - 1;
    AllAccepted(s, events[..n]) && Accepts(events[n], StateFrom(s, events[..n]))
  }

  // ---------------------------------------------------- the power ceiling

  /** The largest element of a non-empty set. */
  ghost function Max(s: set<int>): (m: int)
    requires s != {}
    ensures m in s && forall x :: x in s ==> x <= m
  {
    assert (forall x: int :: x !in s) ==> s == {};
    var x: int :| x in s;
    if s == {x} then x
    else
      var rest := s - {x};
      assert s == rest + {x};
      var m := Max(rest);
      if x > m then x else m
  }

  function LevelOf(l: Level): int {
    if l.Int().Ok? then l.n else 0
  }

  /** 0, the users default and every explicit level. */
  ghost function UserLevels(p: PowerLevels): set<int> {
    {0}
    + (if UsersDefault in p.named then {LevelOf(p.named[UsersDefault])} else {})
    + (set u | u in p.users.Entries() :: LevelOf(p.users.Entries()[u]))
  }

  /** The largest level that the power-levels event in force gives to anyone. */
  ghost function Ceiling(s: State): int
    requires PowerLevelEvent(s).Some?
  {
    Max(UserLevels(PowerLevelEvent(s).value.content.power))
  }

  lemma NobodyAboveCeiling(s: State, u: string)
    requires PowerLevelEvent(s).Some? && UserLevel(u, s).Ok?
    ensures UserLevel(u, s).value <= Ceiling(s)
  {
    var p := PowerLevelEvent(s).value.content.power;
    if p.users.Levels? && u in p.users.levels && !p.users.levels[u].Null? {
      assert LevelOf(p.users.Entries()[u]) in UserLevels(p);
    } else if UsersDefault in p.named && !p.named[UsersDefault].Null? {
      assert LevelOf(p.named[UsersDefault]) in UserLevels(p);
    } else {
      assert 0 in UserLevels(p);
    }
  }

  /** What acceptance of a replacement for the event in force tells us. */
  lemma AcceptedPowerLevels(s: State, e: Event)
    requires PowerLevelEvent(s).Some? && Accepts(e, s)
    requires e.kind == RoomPowerLevels && e.stateKey == Some("")
    ensures UserLevel(e.sender, s).Ok?
    ensures PowerChangeAllowed(PowerLevelEvent(s).value.content.power, e.content.power,
                               e.version, UserLevel(e.sender, s).value, e.sender)
  {
    assert CheckPowerLevels(e, s).Ok?;
  }

  lemma CeilingBound(before: PowerLevels, after: PowerLevels, version: RoomVersion, level: int, sender: string, x: int)
    requires PowerChangeAllowed(before, after, version, level, sender)
    requires level <= Max(UserLevels(before)) && x in UserLevels(after)
    ensures x <= Max(UserLevels(before))
  {
    var top := Max(UserLevels(before));
    assert 0 in UserLevels(before);
    if UsersDefault in after.named && x == LevelOf(after.named[UsersDefault]) {
      assert LevelChangeAllowed(Entry(before.named, UsersDefault), Entry(after.named, UsersDefault), level, false);
      if UsersDefault in before.named {
        assert LevelOf(before.named[UsersDefault]) in UserLevels(before);
      }
    } else if x != 0 {
      var u :| u in after.users.Entries() && x == LevelOf(after.users.Entries()[u]);
      assert u in before.users.Entries().Keys + after.users.Entries().Keys;
      assert LevelChangeAllowed(Entry(before.users.Entries(), u), Entry(after.users.Entries(), u), level, u != sender);
      if u in before.users.Entries() {
        assert LevelOf(before.users.Entries()[u]) in UserLevels(before);
      }
    }
  }

  lemma CeilingStep(s: State, e: Event)
    requires PowerLevelEvent(s).Some? && Accepts(e, s)
    ensures PowerLevelEvent(Apply(s, e)).Some?
    ensures Ceiling(Apply(s, e)) <= Ceiling(s)
  {
    if e.kind == RoomPowerLevels && e.stateKey == Some("") {
      AcceptedPowerLevels(s, e);
      NobodyAboveCeiling(s, e.sender);
      CeilingBound(PowerLevelEvent(s).value.content.power, e.content.power, e.version,
                   UserLevel(e.sender, s).value, e.sender, Ceiling(Apply(s, e)));
    } else {
      assert PowerLevelEvent(Apply(s, e)) == PowerLevelEvent(s);
    }
  }

  /** Once a power-levels event is in force, no run of accepted events raises the ceiling. */
  lemma {:induction false} CeilingNeverRises(s: State, events: seq<Event>)
    requires PowerLevelEvent(s).Some? && AllAccepted(s, events)
    ensures PowerLevelEvent(StateFrom(s, events)).Some?
    ensures Ceiling(StateFrom(s, events)) <= Ceiling(s)
  {
    if events != [] {
      var n := |events| - 1;
      CeilingNeverRises(s, events[..n]);
      CeilingStep(StateFrom(s, events[..n]), events[n]);
    }
  }

  /** The user is listed, at the ceiling. */
  ghost predicate AtCeiling(u: string, s: State) {
    PowerLevelEvent(s).Some? &&
    var users := PowerLevelEvent(s).value.content.power.users;
    users.Levels? && u in users.levels && users.levels[u].Int() == Ok(Ceiling(s))
  }

  lemma TopUserStep(s: State, e: Event, u: string)
    requires AtCeiling(u, s) && Accepts(e, s)
    requires !(e.kind == RoomPowerLevels && e.sender == u)
    ensures AtCeiling(u, Apply(s, e)) && Ceiling(Apply(s, e)) == Ceiling(s)
  {
    CeilingStep(s, e);
    if e.kind == RoomPowerLevels && e.stateKey == Some("") {
      AcceptedPowerLevels(s, e);
      NobodyAboveCeiling(s, e.sender);
      var before, after := PowerLevelEvent(s).value.content.power, e.content.power;
      assert u in before.users.Entries().Keys + after.users.Entries().Keys;
      assert LevelChangeAllowed(Entry(before.users.Entries(), u), Entry(after.users.Entries(), u),
                                UserLevel(e.sender, s).value, true);
      assert u in after.users.Entries();
      assert LevelOf(after.users.Entries()[u]) in UserLevels(after);
    } else {
      assert PowerLevelEvent(Apply(s, e)) == PowerLevelEvent(s);
    }
  }

  /** A listed user at the ceiling who sends no power-levels event keeps that level, and
      in the whole run nobody comes to stand above them. */
  lemma {:induction false} TopUserIsNeverOvertaken(s: State, events: seq<Event>, u: string)
    requires AtCeiling(u, s) && AllAccepted(s, events)
    requires forall i :: 0 <= i < |events| ==> !(events[i].kind == RoomPowerLevels && events[i].sender == u)
    ensures AtCeiling(u, StateFrom(s, events)) && Ceiling(StateFrom(s, events)) == Ceiling(s)
    ensures UserLevel(u, StateFrom(s, events)) == Ok(Ceiling(s))
    ensures forall w :: UserLevel(w, StateFrom(s, events)).Ok? ==>
      UserLevel(w, StateFrom(s, events)).value <= Ceiling(s)
  {
    if events != [] {
      var n := |events| - 1;
      TopUserIsNeverOvertaken(s, events[..n], u);
      TopUserStep(StateFrom(s, events[..n]), events[n], u);
    }
    var t := StateFrom(s, events);
    forall w | UserLevel(w, t).Ok? ensures UserLevel(w, t).value <= Ceiling(s) {
      NobodyAboveCeiling(t, w);
    }
  }

  // ------------------------------------------------------------ linear runs

  /** A linear history: the create event, then events each following its predecessor and
      each accepted by the state its predecessors left. */
  ghost predicate Run(events: seq<Event>) {
    && events != []
    && events[0].kind == RoomCreate && events[0].stateKey == Some("") && CreateAllowed(events[0])
    && (forall i :: 0 < i < |events| ==> Follows(events, i))
    && (forall i, j :: 0 <= i < j < |events| ==> events[i].id != events[j].id)
  }

  ghost predicate Follows(events: seq<Event>, i: nat)
    requires 0 < i < |events|
  {
    && events[i].prevEvents == [events[i - 1].id]
    && events[i].version == events[0].version && events[i].roomId == events[0].roomId
    && (events[i].kind == RoomCreate ==> CreateAllowed(events[i]))
    && Accepts(events[i], Before(events, i))
  }

  /** The state just before event `i`. */
  ghost function Before(events: seq<Event>, i: nat): State
    requires i <= |events|
  {
    StateFrom(map[], events[..i])
  }

  lemma BeforeNext(events: seq<Event>, i: nat)
    requires i < |events|
    ensures Before(events, i + 1) == Apply(Before(events, i), events[i])
  {
    assert events[..i + 1][..i] == events[..i];
  }

  /** The latest event written under a key, and where it was written. */
  lemma {:induction false} EntryOrigin(events: seq<Event>, i: nat, k: StateKey) returns (j: nat)
    requires i <= |events| && k in Before(events, i)
    ensures j < i && events[j] == Before(events, i)[k]
    ensures events[j].kind == k.kind && events[j].stateKey == Some(k.key)
    ensures forall m :: j < m <= i ==> k in Before(events, m) && Before(events, m)[k] == events[j]
    decreases i
  {
    BeforeNext(events, i - 1);
    var e := events[i - 1];
    if e.kind == k.kind && e.stateKey == Some(k.key) {
      j := i - 1;
    } else {
      j := EntryOrigin(events, i - 1, k);
    }
  }

  /** The create event is never replaced. */
  lemma {:induction false} CreateStays(events: seq<Event>, i: nat)
    requires Run(events) && 0 < i <= |events|
    ensures Lookup(Before(events, i), RoomCreate, "") == Some(events[0])
  {
    BeforeNext(events, i - 1);
    if i > 1 {
      CreateStays(events, i - 1);
      assert Follows(events, i - 1);
    }
  }

  /** The creator's shortcut is open to the second event only. */
  lemma ShortcutIsForSecondEvent(events: seq<Event>, i: nat)
    requires Run(events) && 1 < i < |events|
    ensures IsCreatorJoin(events[i], Before(events, i)) == Ok(false)
  {
    CreateStays(events, i);
    assert Follows(events, i);
    assert events[0].id != events[i - 1].id;
  }

  // ------------------------------------------------------------------- bans

  /** A leave that lifts a ban: sent by somebody else, who is joined, at or above the ban
      and kick levels and strictly above the target. */
  ghost predicate ProperUnban(e: Event, s: State, u: string) {
    && e.kind == RoomMember && e.stateKey == Some(u) && e.content.membership == Some(Leave)
    && e.sender != u && IsIn(e.sender, Join, s)
    && UserLevel(e.sender, s).Ok? && UserLevel(u, s).Ok?
    && NamedLevel(s, BanLevel, 50).Ok? && NamedLevel(s, KickLevel, 50).Ok?
    && UserLevel(e.sender, s).value >= NamedLevel(s, BanLevel, 50).value
    && UserLevel(e.sender, s).value >= NamedLevel(s, KickLevel, 50).value
    && UserLevel(e.sender, s).value > UserLevel(u, s).value
  }

  lemma BannedRules(e: Event, s: State, u: string, p: Parties)
    requires e.stateKey == Some(u) && e.content.membership.Some? && e.content.membership != Some(Ban)
    requires PartiesOf(e.sender, u, s) == Ok(p) && IsIn(u, Ban, s)
    requires PartiesRule(e, s, e.content.membership.value, u, p).Ok?
    ensures e.kind == RoomMember ==> ProperUnban(e, s, u)
  {
  }

  lemma BanStep(e: Event, s: State, u: string)
    requires Accepts(e, s) && IsIn(u, Ban, s) && IsCreatorJoin(e, s) == Ok(false)
    requires !IsIn(u, Ban, Apply(s, e))
    ensures ProperUnban(e, s, u)
  {
    assert e.kind == RoomMember && e.stateKey == Some(u);
    assert MembershipChange(e, s).Ok?;
    BannedRules(e, s, u, PartiesOf(e.sender, u, s).value);
  }

  /** In every linear run a banned user stays banned until a proper unban. */
  lemma {:induction false} BansHold(events: seq<Event>, i: nat, j: nat, u: string)
    requires Run(events) && i <= j <= |events|
    requires IsIn(u, Ban, Before(events, i)) && !IsIn(u, Ban, Before(events, j))
    ensures exists k :: i <= k < j && ProperUnban(events[k], Before(events, k), u)
    decreases j
  {
    var k := j - 1;
    if IsIn(u, Ban, Before(events, k)) {
      BeforeNext(events, k);
      var _ := EntryOrigin(events, k, StateKey(RoomMember, u));
      ShortcutIsForSecondEvent(events, k);
      assert Follows(events, k);
      BanStep(events[k], Before(events, k), u);
    } else {
      BansHold(events, i, k, u);
    }
  }

  // ----------------------------------------------------------- invite-only rooms

  /** The sender is joined and at or above the invite level. */
  ghost predicate MayInvite(u: string, s: State) {
    && IsIn(u, Join, s)
    && UserLevel(u, s).Ok? && NamedLevel(s, InviteLevel, 0).Ok?
    && UserLevel(u, s).value >= NamedLevel(s, InviteLevel, 0).value
  }

  /** The invite at position `j` rests on a member who may invite: its own sender, or for a
      third-party invite the same sender when they created the token. */
  ghost predicate Vouched(events: seq<Event>, j: nat)
    requires j < |events|
  {
    var e := events[j];
    if e.content.thirdPartyInvite.None? then MayInvite(e.sender, Before(events, j))
    else
      e.content.thirdPartyInvite.value.Signed? &&
      exists h :: 0 <= h < j
                  && events[h].kind == RoomThirdPartyInvite
                  && events[h].stateKey == Some(e.content.thirdPartyInvite.value.token)
                  && events[h].sender == e.sender
                  && MayInvite(e.sender, Before(events, h))
  }

  lemma JoinRuleStep(e: Event, s: State, u: string, p: Parties)
    requires e.stateKey == Some(u) && e.content.membership == Some(Join)
    requires JoinRuleInForce(s) == InviteOnly && !IsIn(u, Join, s)
    requires PartiesOf(e.sender, u, s) == Ok(p) && PartiesRule(e, s, Join, u, p).Ok?
    ensures IsIn(u, Invite, s) && e.sender == u
  {
  }

  lemma InviteStep(e: Event, s: State)
    requires e.kind == RoomMember && e.content.membership == Some(Invite) && Accepts(e, s)
    ensures e.stateKey.Some?
    ensures e.content.thirdPartyInvite.None? ==> MayInvite(e.sender, s)
    ensures e.content.thirdPartyInvite.Some? ==> ThirdPartyInviteVerifies(e, s)
  {
    assert MembershipChange(e, s).Ok?;
    var p := PartiesOf(e.sender, e.stateKey.value, s);
    assert p.Ok? && PartiesRule(e, s, Invite, e.stateKey.value, p.value).Ok?;
  }

  lemma InvitesAreVouched(events: seq<Event>, j: nat)
    requires Run(events) && j < |events|
    requires events[j].kind == RoomMember && events[j].content.membership == Some(Invite)
    ensures Vouched(events, j)
  {
    assert Follows(events, j);
    var e, s := events[j], Before(events, j);
    InviteStep(e, s);
    if e.content.thirdPartyInvite.Some? {
      var h := EntryOrigin(events, j, StateKey(RoomThirdPartyInvite, e.content.thirdPartyInvite.value.token));
      assert Follows(events, h);
      assert SenderRules(events[h], Before(events, h)).Ok?;
      assert MayInvite(e.sender, Before(events, h));
    }
  }

  /** The user goes from not joined to joined at event `i`. */
  ghost predicate Enters(events: seq<Event>, i: nat, u: string)
    requires i < |events|
  {
    !IsIn(u, Join, Before(events, i)) && IsIn(u, Join, Before(events, i + 1))
  }

  lemma EntryStep(e: Event, s: State, u: string)
    requires Accepts(e, s) && JoinRuleInForce(s) == InviteOnly
    requires !IsIn(u, Join, s) && IsIn(u, Join, Apply(s, e))
    ensures e.kind == RoomMember && e.stateKey == Some(u)
    ensures IsCreatorJoin(e, s) == Ok(true) || (IsIn(u, Invite, s) && e.sender == u)
  {
    assert MembershipChange(e, s).Ok?;
    if IsCreatorJoin(e, s) == Ok(false) {
      JoinRuleStep(e, s, u, PartiesOf(e.sender, u, s).value);
    }
  }

  /** In every linear run during which the rule in force is invite, nobody enters except the
      creator in the second event or a user who is accepting an invitation: some earlier
      event invited them, they have been invited ever since, and that invitation was
      vouched for by a member entitled to invite. */
  lemma EntryIsByInvitation(events: seq<Event>, i: nat, u: string)
    requires Run(events) && 0 < i < |events| && Enters(events, i, u)
    requires JoinRuleInForce(Before(events, i)) == InviteOnly
    ensures (i == 1 && Creator(events[0], events[0].version) == Ok(u))
         || (events[i].sender == u &&
             exists j :: 0 <= j < i && events[j].kind == RoomMember && events[j].stateKey == Some(u)
                         && events[j].content.membership == Some(Invite)
                         && (forall m :: j < m <= i ==> IsIn(u, Invite, Before(events, m)))
                         && Vouched(events, j))
  {
    var e, s := events[i], Before(events, i);
    BeforeNext(events, i);
    assert Follows(events, i);
    CreateStays(events, i);
    EntryStep(e, s, u);
    if IsIn(u, Invite, s) && e.sender == u {
      var j := EntryOrigin(events, i, StateKey(RoomMember, u));
      InvitesAreVouched(events, j);
    } else if i > 1 {
      ShortcutIsForSecondEvent(events, i);
    }
  }

  // ------------------------------------------------- the membership state machine

  /** `who` is joined, at or above the given level, and strictly above `u`. */
  ghost predicate Outranks(who: string, u: string, s: State, name: LevelName) {
    && IsIn(who, Join, s) && who != u
    && UserLevel(who, s).Ok? && UserLevel(u, s).Ok? && NamedLevel(s, name, 50).Ok?
    && UserLevel(who, s).value >= NamedLevel(s, name, 50).value
    && UserLevel(who, s).value > UserLevel(u, s).value
  }

  /** The join rule lets the user in, given the membership they come from: anyone if it is
      public; under a restricted rule also one for whom a joined user at or above the invite
      level vouches in the event; and otherwise only a member or somebody invited. */
  ghost predicate JoinRuleAdmits(from: Option<Membership>, e: Event, s: State) {
    var v, rule, known := e.version, JoinRuleInForce(s), from == Some(Join) || from == Some(Invite);
    || rule == Public
    || (rule == InviteOnly && known)
    || (rule == KnockRule && v.knockJoinRule && known)
    || (((rule == Restricted && v.restrictedJoinRule) || (rule == KnockRestricted && v.knockRestrictedJoinRule))
        && (known || (e.content.authorisingUser.Some? && MayInvite(e.content.authorisingUser.value, s))))
  }

  /** The move of `u`'s membership that the event makes is one that the protocol allows, on the
      authority that it needs. */
  ghost predicate LegalMove(from: Option<Membership>, to: Membership, e: Event, u: string, s: State) {
    match to
    case Join => e.sender == u && from != Some(Ban) && JoinRuleAdmits(from, e, s)
    case Invite =>
      && from != Some(Ban)
      && (if e.content.thirdPartyInvite.Some? then ThirdPartyInviteVerifies(e, s)
          else from != Some(Join) && MayInvite(e.sender, s))
    case Knock =>
      && e.sender == u && e.version.knockJoinRule
      && from != Some(Join) && from != Some(Invite) && from != Some(Ban)
      && (JoinRuleInForce(s) == KnockRule
          || (e.version.knockRestrictedJoinRule && JoinRuleInForce(s) == KnockRestricted))
    case Leave =>
      if e.sender == u then
        from == Some(Join) || from == Some(Invite) || (e.version.knockJoinRule && from == Some(Knock))
      else
        Outranks(e.sender, u, s, KickLevel) && (from == Some(Ban) ==> Outranks(e.sender, u, s, BanLevel))
    case Ban => Outranks(e.sender, u, s, BanLevel)
    case OtherMembership(_) => false
  }

  /** Once sender and target are known, the rules accept exactly the legal moves. */
  lemma RulesAreLegalMoves(e: Event, s: State, u: string, to: Membership, p: Parties)
    requires e.stateKey == Some(u) && e.content.membership == Some(to) && PartiesOf(e.sender, u, s) == Ok(p)
    ensures PartiesRule(e, s, to, u, p).Ok? <==> LegalMove(p.target, to, e, u, s)
  {
    match to
    case Join => JoinIsLegal(e, s, u, p);
    case _ =>
  }

  lemma JoinIsLegal(e: Event, s: State, u: string, p: Parties)
    requires e.stateKey == Some(u) && e.content.membership == Some(Join) && PartiesOf(e.sender, u, s) == Ok(p)
    ensures PartiesRule(e, s, Join, u, p).Ok? <==> LegalMove(p.target, Join, e, u, s)
  {
    if e.sender == u {
      assert p.caller == p.target;
    }
  }

  /** In every linear run, from the third event on, each accepted membership event is one of
      the legal moves: nobody is joined or made to knock by somebody else or against the join
      rule, nobody is invited except on the authority of a member who may invite, nobody
      leaves a ban on their own, and nobody is kicked, banned or unbanned except by a joined
      user strictly above them. */
  lemma MembershipsMoveLegally(events: seq<Event>, i: nat)
    requires Run(events) && 1 < i < |events| && events[i].kind == RoomMember
    ensures var e, s := events[i], Before(events, i);
            && e.stateKey.Some? && e.content.membership.Some? && MembershipOf(e.stateKey.value, s).Ok?
            && LegalMove(MembershipOf(e.stateKey.value, s).value, e.content.membership.value, e, e.stateKey.value, s)
  {
    var e, s := events[i], Before(events, i);
    assert Follows(events, i);
    ShortcutIsForSecondEvent(events, i);
    assert MembershipChange(e, s).Ok?;
    var p := PartiesOf(e.sender, e.stateKey.value, s);
    RulesAreLegalMoves(e, s, e.stateKey.value, e.content.membership.value, p.value);
  }
}
