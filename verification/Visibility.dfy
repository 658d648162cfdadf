/** Who may see an event: the decisions of synapse/visibility.py, and the bulk filter that
    must agree with them. */
module Visibility {
  import opened Basics
  import opened Events

  datatype HistoryVisibility = WorldReadable | Shared | Invited | Joined | OtherVisibility(text: string)

  datatype Kind = Member | RoomHistoryVisibility | Dummy | Aliases | Other(name: string)

  datatype VEvent = VEvent(
    id: string,
    kind: Kind,
    stateKey: Option<string>,
    sender: string,
    originServerTs: int,
    softFailed: bool,
    outlier: bool,
    membership: Option<Membership>,              // content.membership
    historyVisibility: Option<HistoryVisibility>, // content.history_visibility
    prevMembership: Option<Membership>,          // unsigned.prev_content.membership
    prevHistoryVisibility: Option<HistoryVisibility>
  )

  datatype VKey = VKey(kind: Kind, key: string)

  type VState = map<VKey, VEvent>

  const HISTORY_VIS_KEY := VKey(RoomHistoryVisibility, "")

  /** The state after the event. */
  function After(prev: VState, e: VEvent): VState {
    if e.stateKey.Some? then prev[VKey(e.kind, e.stateKey.value) := e] else prev
  }

  /** The event is in force under its own key, and nothing else has changed. */
  lemma AfterExactly(prev: VState, e: VEvent, k: VKey)
    ensures e.kind == k.kind && e.stateKey == Some(k.key) ==> k in After(prev, e) && After(prev, e)[k] == e
    ensures !(e.kind == k.kind && e.stateKey == Some(k.key)) ==>
      (k in After(prev, e) <==> k in prev) && (k in prev ==> After(prev, e)[k] == prev[k])
  {
  }

  function Filtered(s: VState, keys: set<VKey>): VState {
    map k | k in s && k in keys :: s[k]
  }

  /** Position in VISIBILITY_PRIORITY; values outside it count as shared. */
  function Normal(v: Option<HistoryVisibility>): HistoryVisibility {
    if v.Some? && !v.value.OtherVisibility? then v.value else Shared
  }

  function VisibilityPriority(v: HistoryVisibility): nat {
    match v
    case WorldReadable => 0
    case Shared => 1
    case Invited => 2
    case Joined => 3
    case OtherVisibility(_) => 4
  }

  function MembershipPriority(m: Membership): nat {
    match m
    case Join => 0
    case Invite => 1
    case Knock => 2
    case Leave => 3
    case Ban => 4
    case OtherMembership(_) => 5
  }

  /** The content value, or leave when it is absent or not a known membership. */
  function Known(m: Option<Membership>): Membership {
    if m.Some? && !m.value.OtherMembership? then m.value else Leave
  }

  /** get_effective_room_visibility_from_state */
  function EffectiveVisibility(s: VState): HistoryVisibility {
    if HISTORY_VIS_KEY in s then Normal(s[HISTORY_VIS_KEY].historyVisibility) else Shared
  }

  predicate Lax(v: HistoryVisibility, isPeeking: bool) {
    (v == Shared && !isPeeking) || v == WorldReadable
  }

  /** _check_history_visibility */
  predicate HistoryAllows(e: VEvent, visibility: HistoryVisibility, isPeeking: bool) {
    var v :=
      if e.kind == RoomHistoryVisibility then
        var before := Normal(e.prevHistoryVisibility);
        if VisibilityPriority(before) < VisibilityPriority(visibility) then before else visibility
      else visibility;
    Lax(v, isPeeking)
  }

  datatype MembershipCheck = MembershipCheck(allowed: bool, joined: bool)

  predicate IsOwnMembership(u: string, e: VEvent) {
    e.kind == Member && e.stateKey == Some(u)
  }

  /** The membership that counts for the user: for their own membership event the more joined
      of the old and the new one, and otherwise the one in the state. */
  function MembershipAt(u: string, e: VEvent, s: VState): Option<Membership> {
    if IsOwnMembership(u, e) then
      var now, before := Known(e.membership), Known(e.prevMembership);
      Some(if MembershipPriority(before) < MembershipPriority(now) then before else now)
    else if VKey(Member, u) in s then s[VKey(Member, u)].membership
    else None
  }

  /** The membership is to be read from a member event that has none, which raises. */
  predicate LacksMembership(u: string, e: VEvent, s: VState) {
    !IsOwnMembership(u, e) && VKey(Member, u) in s && s[VKey(Member, u)].membership.None?
  }

  /** The user's own leave from a room they were in or invited to. */
  predicate IsOwnLeave(u: string, e: VEvent) {
    IsOwnMembership(u, e) && Known(e.membership) == Leave
    && (Known(e.prevMembership) == Join || Known(e.prevMembership) == Invite)
  }

  /** _check_membership; None when it raises. */
  function CheckMembership(u: string, e: VEvent, visibility: HistoryVisibility, s: VState,
                           isPeeking: bool): Option<MembershipCheck>
  {
    if IsOwnLeave(u, e) then Some(MembershipCheck(true, false))
    else if LacksMembership(u, e, s) then None
    else
      var m := MembershipAt(u, e, s);
      if m == Some(Join) then Some(MembershipCheck(true, true))
      else if visibility == Joined then Some(MembershipCheck(false, false))
      else if visibility == Invited then Some(MembershipCheck(m == Some(Invite), false))
      else if visibility == Shared && isPeeking then Some(MembershipCheck(false, false))
      else Some(MembershipCheck(true, false))
  }

  /** What is the same for all users of one call. */
  datatype Call = Call(
    now: int,
    maxLifetime: Option<int>,
    sendToClient: bool,
    isPeeking: bool
  )

  /** _check_filter_send_to_client does not deny. */
  predicate MaySend(e: VEvent, c: Call, senderIgnored: bool) {
    && e.kind != Dummy
    && !(e.stateKey.None? && senderIgnored)
    && e.kind != Aliases
    && !(e.stateKey.None? && c.maxLifetime.Some? && e.originServerTs < c.now - c.maxLifetime.value)
  }

  datatype Sight = Hidden | Full | Pruned | Raises

  predicate Shown(sight: Sight) {
    sight == Full || sight == Pruned
  }

  /** _check_client_allowed_to_see_event */
  function Sees(u: string, e: VEvent, c: Call, alwaysInclude: set<string>, senderIgnored: bool,
                s: VState, senderErased: bool): Sight {
    if c.sendToClient && !MaySend(e, c, senderIgnored) then Hidden
    else if e.id in alwaysInclude then Full
    else if e.outlier then (if IsOwnMembership(u, e) then Full else Hidden)
    else
      var visibility := EffectiveVisibility(s);
      if !senderErased && HistoryAllows(e, visibility, c.isPeeking) then Full
      else
        var check := CheckMembership(u, e, visibility, s, c.isPeeking);
        if check.None? then Raises
        else if !check.value.allowed then Hidden
        else if senderErased && !check.value.joined then Pruned
        else Full
  }

  // -------------------------------------------------------------- the bulk filter

  /** The decision reads only the history visibility and the user's own membership. */
  lemma SeesReadsTwoKeys(u: string, e: VEvent, c: Call, always: set<string>, ignored: bool, s: VState, t: VState,
                         erased: bool)
    requires forall k :: k in {HISTORY_VIS_KEY, VKey(Member, u)} ==> (k in s <==> k in t) && (k in s ==> s[k] == t[k])
    ensures Sees(u, e, c, always, ignored, s, erased) == Sees(u, e, c, always, ignored, t, erased)
  {
    assert EffectiveVisibility(s) == EffectiveVisibility(t);
    assert MembershipAt(u, e, s) == MembershipAt(u, e, t);
    assert LacksMembership(u, e, s) == LacksMembership(u, e, t);
  }

  /** _get_state_map */
  function StateMap(prev: VState, e: VEvent, keys: set<VKey>): VState {
    After(Filtered(prev, keys), e)
  }

  /** The loop that drops the users to whom the event may not be sent. */
  method Sendable(users: seq<string>, e: VEvent, c: Call, ignoredBy: set<string>) returns (allowed: set<string>)
    ensures forall u :: u in allowed <==> u in users && (c.sendToClient ==> MaySend(e, c, u in ignoredBy))
  {
    allowed := set u | u in users;
    if c.sendToClient {
      for i := 0 to |users|
        invariant forall u :: u in allowed <==>
          u in users && (u in users[..i] ==> MaySend(e, c, u in ignoredBy))
      {
        if !MaySend(e, c, users[i] in ignoredBy) {
          allowed := allowed - {users[i]};
        }
      }
    }
  }

  lemma FilteredVisibilityAgrees(e: VEvent, prev: VState, keys: set<VKey>)
    requires HISTORY_VIS_KEY in keys
    ensures EffectiveVisibility(StateMap(prev, e, keys)) == EffectiveVisibility(After(prev, e))
  {
  }

  lemma FilteredMembershipAgrees(u: string, e: VEvent, v: HistoryVisibility, prev: VState, keys: set<VKey>,
                                 isPeeking: bool)
    requires VKey(Member, u) in keys
    ensures CheckMembership(u, e, v, StateMap(prev, e, keys), isPeeking) ==
      CheckMembership(u, e, v, After(prev, e), isPeeking)
  {
  }

  /** The check of one membership, on the state after the event. */
  function CheckAfter(u: string, e: VEvent, c: Call, prev: VState): Option<MembershipCheck> {
    CheckMembership(u, e, EffectiveVisibility(After(prev, e)), After(prev, e), c.isPeeking)
  }

  predicate LaxAfter(e: VEvent, c: Call, prev: VState) {
    HistoryAllows(e, EffectiveVisibility(After(prev, e)), c.isPeeking)
  }

  /** The membership half of the filter, for events that are not outliers; None when it raises. */
  method FilterByState(allowed: set<string>, e: VEvent, c: Call, prev: VState) returns (visible: Option<set<string>>)
    ensures visible.None? <==> !LaxAfter(e, c, prev) && exists u :: u in allowed && CheckAfter(u, e, c, prev).None?
    ensures visible.Some? ==> forall u :: u in visible.value <==>
      u in allowed && (LaxAfter(e, c, prev) || CheckAfter(u, e, c, prev).value.allowed)
  {
    FilteredVisibilityAgrees(e, prev, {HISTORY_VIS_KEY});
    var visibility := EffectiveVisibility(StateMap(prev, e, {HISTORY_VIS_KEY}));
    if HistoryAllows(e, visibility, c.isPeeking) {
      return Some(allowed);
    }
    var keys := (set u | u in allowed :: VKey(Member, u)) + {HISTORY_VIS_KEY};
    var state := StateMap(prev, e, keys);
    forall u | u in allowed
      ensures CheckMembership(u, e, visibility, state, c.isPeeking) == CheckAfter(u, e, c, prev)
    {
      FilteredMembershipAgrees(u, e, visibility, prev, keys, c.isPeeking);
    }
    if exists u :: u in allowed && CheckMembership(u, e, visibility, state, c.isPeeking).None? {
      return None;
    }
    visible := Some(set u | u in allowed && CheckMembership(u, e, visibility, state, c.isPeeking).value.allowed);
  }

  /** The per-user check that the bulk filter stands for: on the state after the event, with
      the sender not erased and no always-included ids. */
  function SeesAfter(u: string, e: VEvent, c: Call, ignoredBy: set<string>, prev: VState): Sight {
    Sees(u, e, c, {}, u in ignoredBy, After(prev, e), false)
  }

  /** filter_event_for_clients_with_state: it raises exactly when the per-user check of some
      user does, and otherwise returns exactly the users whom that check lets see the event. */
  method FilterForClients(users: seq<string>, e: VEvent, c: Call, ignoredBy: set<string>, prev: VState)
    returns (visible: Option<set<string>>)
    ensures visible.None? <==> !e.softFailed && exists u :: u in users && SeesAfter(u, e, c, ignoredBy, prev).Raises?
    ensures visible.Some? ==> forall u :: u in visible.value <==>
      u in users && !e.softFailed && Shown(SeesAfter(u, e, c, ignoredBy, prev))
  {
    if e.softFailed || users == [] {
      return Some({});
    }
    var allowed := Sendable(users, e, c, ignoredBy);
    if e.outlier {
      if e.kind == Member && e.stateKey.Some? && e.stateKey.value in allowed {
        return Some({e.stateKey.value});
      }
      return Some({});
    }
    forall u | u in users
      ensures SeesAfter(u, e, c, ignoredBy, prev) ==
        if u !in allowed then Hidden
        else if LaxAfter(e, c, prev) then Full
        else if CheckAfter(u, e, c, prev).None? then Raises
        else if CheckAfter(u, e, c, prev).value.allowed then Full
        else Hidden
    {
    }
    visible := FilterByState(allowed, e, c, prev);
  }

  // ------------------------------------------------------------------- erasure

  /** The old history visibility let everybody see the change, the new one does not, and
      neither does the user's membership. */
  predicate BoundaryOnly(u: string, e: VEvent, s: VState, isPeeking: bool) {
    && e.kind == RoomHistoryVisibility
    && Lax(Normal(e.prevHistoryVisibility), isPeeking)
    && VisibilityPriority(Normal(e.prevHistoryVisibility)) < VisibilityPriority(EffectiveVisibility(s))
    && MembershipAt(u, e, s) != Some(Join)
    && match EffectiveVisibility(s) {
         case Joined => true
         case Invited => MembershipAt(u, e, s) != Some(Invite)
         case Shared => isPeeking
         case _ => false
       }
  }

  /** Marking the sender erased leaves who sees the event as it was, if and only if the event
      is not a history-visibility change that the user sees only by the boundary rule, nor one
      whose lax history spared a membership that cannot be read; and where it is still seen,
      it is pruned exactly when the user was not joined. */
  lemma ErasureOnlyPrunes(u: string, e: VEvent, c: Call, always: set<string>, ignored: bool, s: VState)
    requires !e.outlier && e.id !in always
    ensures var kept, erased := Sees(u, e, c, always, ignored, s, false), Sees(u, e, c, always, ignored, s, true);
            var visibility := EffectiveVisibility(s);
            && ((Shown(kept) <==> Shown(erased)) <==>
                  !((c.sendToClient ==> MaySend(e, c, ignored))
                    && (BoundaryOnly(u, e, s, c.isPeeking)
                        || (LacksMembership(u, e, s) && HistoryAllows(e, visibility, c.isPeeking)))))
            && (Shown(erased) ==>
                  var check := CheckMembership(u, e, visibility, s, c.isPeeking);
                  check.Some? && (erased == Pruned <==> !check.value.joined))
            && kept != Pruned
  {
  }

  /** Such an event: shared history closed to members, seen by a user who never joined. */
  lemma ErasureCanHide()
    ensures var e := VEvent("$e", RoomHistoryVisibility, Some(""), "@a:hs", 0, false, false,
                            None, Some(Joined), None, Some(Shared));
            var c := Call(0, None, true, false);
            && Sees("@u:hs", e, c, {}, false, After(map[], e), false) == Full
            && Sees("@u:hs", e, c, {}, false, After(map[], e), true) == Hidden
  {
  }

  // ---------------------------------------------------------- who sees an event

  /** An event that may be sent is seen by exactly those whom the history visibility at its
      boundary, their own leaving, their being joined, or an invitation in an invited-history
      room lets see it. */
  lemma SeenExactly(u: string, e: VEvent, c: Call, always: set<string>, ignored: bool, s: VState)
    requires !e.outlier && e.id !in always && (c.sendToClient ==> MaySend(e, c, ignored))
    ensures Shown(Sees(u, e, c, always, ignored, s, false)) <==>
            || HistoryAllows(e, EffectiveVisibility(s), c.isPeeking)
            || IsOwnLeave(u, e)
            || MembershipAt(u, e, s) == Some(Join)
            || (EffectiveVisibility(s) == Invited && MembershipAt(u, e, s) == Some(Invite))
  {
  }

  /** The one case in which a more open history shows less: an invited user who peeks sees
      the events of a room with invited history, but not those of one with shared history. */
  predicate InvitedPeeker(u: string, e: VEvent, c: Call, s: VState, t: VState) {
    && c.isPeeking && MembershipAt(u, e, s) == Some(Invite) && !IsOwnLeave(u, e)
    && EffectiveVisibility(s) == Invited && EffectiveVisibility(t) == Shared
    && !HistoryAllows(e, Shared, true)
  }

  /** Opening the history of a room hides nothing that the user could see before, if and only
      if the user is not an invited peeker. */
  lemma OpeningHistory(u: string, e: VEvent, c: Call, always: set<string>, ignored: bool, s: VState, t: VState)
    requires !e.outlier && e.id !in always
    requires MembershipAt(u, e, s) == MembershipAt(u, e, t)
    requires VisibilityPriority(EffectiveVisibility(t)) <= VisibilityPriority(EffectiveVisibility(s))
    requires Shown(Sees(u, e, c, always, ignored, s, false))
    ensures Shown(Sees(u, e, c, always, ignored, t, false)) <==> !InvitedPeeker(u, e, c, s, t)
  {
    SeenExactly(u, e, c, always, ignored, s);
    SeenExactly(u, e, c, always, ignored, t);
  }

  function History(v: HistoryVisibility): VEvent {
    VEvent("$h", RoomHistoryVisibility, Some(""), "@a:hs", 0, false, false, None, Some(v), None, None)
  }

  /** Such a user: a message is shown to the invited peeker under invited history and hidden
      under shared history. */
  lemma OpeningCanHide()
    ensures var e := VEvent("$m", Other("m.room.message"), None, "@a:hs", 0, false, false, None, None, None, None);
            var invite := VEvent("$i", Member, Some("@u:hs"), "@a:hs", 0, false, false, Some(Invite), None, None, None);
            var c := Call(0, None, true, true);
            var invited: VState := map[VKey(Member, "@u:hs") := invite, HISTORY_VIS_KEY := History(Invited)];
            && Sees("@u:hs", e, c, {}, false, invited, false) == Full
            && Sees("@u:hs", e, c, {}, false, invited[HISTORY_VIS_KEY := History(Shared)], false) == Hidden
  {
  }

  // ------------------------------------------------------------ the law of sight
  //
  // The decision once more, straight from the contents of the events.

  /** The history visibility that the state gives, shared when it gives none that is known. */
  ghost predicate HistoryIs(s: VState, v: HistoryVisibility) {
    if HISTORY_VIS_KEY in s then Gives(s[HISTORY_VIS_KEY].historyVisibility, v) else v == Shared
  }

  ghost predicate Gives(value: Option<HistoryVisibility>, v: HistoryVisibility) {
    match value
    case Some(WorldReadable) => v == WorldReadable
    case Some(Shared) => v == Shared
    case Some(Invited) => v == Invited
    case Some(Joined) => v == Joined
    case _ => v == Shared
  }

  ghost predicate OpenTo(v: HistoryVisibility, isPeeking: bool) {
    v == WorldReadable || (v == Shared && !isPeeking)
  }

  /** Everybody sees the event: the history is open, or the event closes an open history. */
  ghost predicate SeenByAll(e: VEvent, s: VState, isPeeking: bool) {
    || (exists v :: HistoryIs(s, v) && OpenTo(v, isPeeking))
    || (e.kind == RoomHistoryVisibility && exists v :: Gives(e.prevHistoryVisibility, v) && OpenTo(v, isPeeking))
  }

  /** The event is not of a kind that clients are spared, nor an old or ignored message. */
  ghost predicate Deliverable(e: VEvent, c: Call, ignored: bool) {
    && e.kind != Dummy && e.kind != Aliases
    && (e.stateKey.Some? || (!ignored && (c.maxLifetime.Some? ==> e.originServerTs + c.maxLifetime.value >= c.now)))
  }

  ghost predicate About(u: string, e: VEvent) {
    e.kind == Member && e.stateKey == Some(u)
  }

  /** The user has the membership at the event: for their own event before or after it. */
  ghost predicate MemberAs(u: string, e: VEvent, s: VState, m: Membership) {
    if About(u, e) then e.membership == Some(m) || e.prevMembership == Some(m)
    else VKey(Member, u) in s && s[VKey(Member, u)].membership == Some(m)
  }

  ghost predicate Unknown(u: string, e: VEvent, s: VState) {
    !About(u, e) && VKey(Member, u) in s && s[VKey(Member, u)].membership == None
  }

  /** The user leaves, or turns down an invitation. */
  ghost predicate Leaves(u: string, e: VEvent) {
    && About(u, e)
    && e.membership != Some(Join) && e.membership != Some(Invite)
    && e.membership != Some(Knock) && e.membership != Some(Ban)
    && (e.prevMembership == Some(Join) || e.prevMembership == Some(Invite))
  }

  ghost predicate SeenByMembership(u: string, e: VEvent, s: VState, isPeeking: bool) {
    || Leaves(u, e)
    || (!Unknown(u, e, s)
        && (|| MemberAs(u, e, s, Join)
            || (exists v :: HistoryIs(s, v) && OpenTo(v, isPeeking))
            || (HistoryIs(s, Invited) && MemberAs(u, e, s, Invite))))
  }

  lemma HistoryIsRead(s: VState, v: HistoryVisibility)
    ensures EffectiveVisibility(s) == v <==> HistoryIs(s, v)
  {
  }

  lemma SeenByAllIsChecked(e: VEvent, s: VState, isPeeking: bool)
    ensures HistoryAllows(e, EffectiveVisibility(s), isPeeking) <==> SeenByAll(e, s, isPeeking)
    ensures OpenTo(EffectiveVisibility(s), isPeeking) <==> exists v :: HistoryIs(s, v) && OpenTo(v, isPeeking)
  {
    forall v ensures EffectiveVisibility(s) == v <==> HistoryIs(s, v) {
      HistoryIsRead(s, v);
    }
    assert HistoryIs(s, EffectiveVisibility(s));
    assert Gives(e.prevHistoryVisibility, Normal(e.prevHistoryVisibility));
    assert forall v :: Gives(e.prevHistoryVisibility, v) ==> v == Normal(e.prevHistoryVisibility);
  }

  lemma MembershipIsChecked(u: string, e: VEvent, s: VState, isPeeking: bool)
    ensures var check := CheckMembership(u, e, EffectiveVisibility(s), s, isPeeking);
            && (check.None? <==> Unknown(u, e, s))
            && (check.Some? ==>
                  && (check.value.allowed <==> SeenByMembership(u, e, s, isPeeking))
                  && (check.value.joined <==> MemberAs(u, e, s, Join) && !Leaves(u, e)))
  {
    SeenByAllIsChecked(e, s, isPeeking);
    HistoryIsRead(s, Invited);
    assert MembershipAt(u, e, s) == Some(Join) <==> MemberAs(u, e, s, Join);
    assert !MemberAs(u, e, s, Join) ==> (MembershipAt(u, e, s) == Some(Invite) <==> MemberAs(u, e, s, Invite));
  }

  /** The whole decision: when it raises, when the event is shown, and when it is pruned. */
  lemma SightIsLaw(u: string, e: VEvent, c: Call, always: set<string>, ignored: bool, s: VState, erased: bool)
    ensures var sight := Sees(u, e, c, always, ignored, s, erased);
            var sendable := c.sendToClient ==> Deliverable(e, c, ignored);
            var checked := sendable && e.id !in always && !e.outlier && (erased || !SeenByAll(e, s, c.isPeeking));
            && (sight == Raises <==> checked && Unknown(u, e, s))
            && (Shown(sight) <==>
                  && sendable
                  && (|| e.id in always
                      || (e.outlier && About(u, e))
                      || (!e.outlier && !erased && SeenByAll(e, s, c.isPeeking))
                      || (checked && SeenByMembership(u, e, s, c.isPeeking))))
            && (sight == Pruned <==>
                  && checked && erased && SeenByMembership(u, e, s, c.isPeeking)
                  && !(MemberAs(u, e, s, Join) && !Leaves(u, e)))
  {
    SeenByAllIsChecked(e, s, c.isPeeking);
    MembershipIsChecked(u, e, s, c.isPeeking);
  }
}
