/** What every linear run of accepted events keeps about who governs a room, where its
    members come from, and whose state is whose. */
module AuthGovernance {
  import opened Basics
  import opened Events
  import opened EventAuth
  import opened AuthRuns

  // --------------------------------------------- before power levels are set

  lemma LevelsBeforePowerLevels(events: seq<Event>, i: nat, u: string)
    requires Run(events) && 0 < i <= |events| && PowerLevelEvent(Before(events, i)).None?
    ensures Creator(events[0], events[0].version).Ok?
    ensures UserLevel(u, Before(events, i)) == Ok(if Creator(events[0], events[0].version) == Ok(u) then 100 else 0)
  {
    CreateStays(events, i);
  }

  /** The event is governed by send levels: it is not a membership, a third-party invite or
      a specially treated alias event. */
  predicate NeedsSendLevel(e: Event) {
    && e.kind != RoomCreate && e.kind != RoomMember && e.kind != RoomThirdPartyInvite
    && !(e.kind == RoomAliases && e.version.specialCaseAliasesAuth)
  }

  /** Until power levels are set, the creator alone sets state. */
  lemma OnlyCreatorSetsState(events: seq<Event>, i: nat)
    requires Run(events) && 0 < i < |events| && PowerLevelEvent(Before(events, i)).None?
    requires NeedsSendLevel(events[i]) && events[i].stateKey.Some?
    ensures Creator(events[0], events[0].version) == Ok(events[i].sender)
  {
    var e, s := events[i], Before(events, i);
    assert Follows(events, i);
    LevelsBeforePowerLevels(events, i, e.sender);
    assert SenderRules(e, s).Ok?;
    assert CanSend(e, s).Ok?;
  }

  /** Until power levels are set, the creator alone kicks, bans and unbans. */
  lemma OnlyCreatorRemoves(events: seq<Event>, i: nat)
    requires Run(events) && 1 < i < |events| && PowerLevelEvent(Before(events, i)).None?
    requires events[i].kind == RoomMember && events[i].stateKey != Some(events[i].sender)
    requires events[i].content.membership == Some(Leave) || events[i].content.membership == Some(Ban)
    ensures Creator(events[0], events[0].version) == Ok(events[i].sender)
  {
    MembershipsMoveLegally(events, i);
    LevelsBeforePowerLevels(events, i, events[i].sender);
  }

  // ------------------------------------------------------- unfederatable rooms

  lemma LocalStep(e: Event, s: State)
    requires Accepts(e, s) && e.kind != RoomCreate && !CanFederate(s)
    ensures Domain(e.sender) == Domain(e.roomId) && Domain(e.roomId).Ok?
    ensures e.kind == RoomMember && IsCreatorJoin(e, s) == Ok(false) ==>
              e.stateKey.Some? && Domain(e.stateKey.value) == Domain(e.roomId)
  {
  }

  /** In a room marked as not federating, every event is sent from the room's own server, and
      from the third event on every member event in force is about one of its own users. */
  lemma UnfederatableStaysLocal(events: seq<Event>, i: nat, u: string)
    requires Run(events) && 0 < i <= |events| && !events[0].content.federatable
    ensures i < |events| ==> Domain(events[i].sender) == Domain(events[0].roomId)
    ensures StateKey(RoomMember, u) in Before(events, i) ==>
              Domain(u) == Domain(events[0].roomId) ||
                (|events| > 1 && Before(events, i)[StateKey(RoomMember, u)] == events[1])
  {
    if i < |events| {
      SenderIsLocal(events, i);
    }
    var k := StateKey(RoomMember, u);
    if k in Before(events, i) {
      var j := EntryOrigin(events, i, k);
      if j > 1 {
        SenderIsLocal(events, j);
        ShortcutIsForSecondEvent(events, j);
      }
    }
  }

  lemma SenderIsLocal(events: seq<Event>, i: nat)
    requires Run(events) && 0 < i < |events| && !events[0].content.federatable
    ensures Domain(events[i].sender) == Domain(events[0].roomId)
    ensures events[i].kind == RoomMember && IsCreatorJoin(events[i], Before(events, i)) == Ok(false) ==>
              events[i].stateKey.Some? && Domain(events[i].stateKey.value) == Domain(events[0].roomId)
  {
    CreateStays(events, i);
    assert Follows(events, i);
    LocalStep(events[i], Before(events, i));
  }

  // ----------------------------------------------- state under a user's own key

  predicate LooksLikeUser(key: string) {
    |key| > 0 && key[0] == '@'
  }

  lemma OwnedStep(e: Event, s: State)
    requires Accepts(e, s) && NeedsSendLevel(e) && e.stateKey.Some? && LooksLikeUser(e.stateKey.value)
    ensures e.sender == e.stateKey.value || (e.version.msc3757Enabled && OwnedUnder3757(e, s))
  {
    assert SenderRules(e, s).Ok?;
    assert CanSend(e, s).Ok?;
  }

  /** The user whose id heads the state key is the sender, or is strictly below the sender in
      power. */
  ghost predicate OwnedUnder3757(e: Event, s: State)
    requires e.stateKey.Some?
  {
    var named := StateKeyOwner(e, e.stateKey.value);
    named.Ok? &&
    var owner := named.value;
    || owner == e.sender
    || (UserLevel(e.sender, s).Ok? && UserLevel(owner, s).Ok?
        && UserLevel(e.sender, s).value > UserLevel(owner, s).value)
  }

  /** In every linear run, state under a key that looks like a user id was set by that user;
      in rooms with MSC3757, by the owner of the key or somebody strictly above them. */
  lemma UserKeyedStateIsOwned(events: seq<Event>, i: nat, k: StateKey) returns (j: nat)
    requires Run(events) && i <= |events| && k in Before(events, i) && LooksLikeUser(k.key)
    requires NeedsSendLevel(Before(events, i)[k])
    ensures j < i && events[j] == Before(events, i)[k] && events[j].stateKey == Some(k.key)
    ensures events[j].sender == k.key ||
            (events[0].version.msc3757Enabled && OwnedUnder3757(events[j], Before(events, j)))
  {
    j := EntryOrigin(events, i, k);
    assert Follows(events, j);
    OwnedStep(events[j], Before(events, j));
  }
}
