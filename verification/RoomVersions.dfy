/** The room-version flags that the authorization rules consult, and the table
    of known versions. */
module RoomVersions {

  datatype RoomVersion = RoomVersion(
    identifier: string,
    domainEventIds: bool,          // event ids are "$id:server" (room versions 1 and 2)
    specialCaseAliasesAuth: bool,
    limitNotificationsPowerLevels: bool,
    implicitRoomCreator: bool,
    restrictedJoinRule: bool,
    knockJoinRule: bool,
    knockRestrictedJoinRule: bool,
    enforceIntPowerLevels: bool,
    msc3757Enabled: bool
  )

  const V1 := RoomVersion("1", true, true, false, false, false, false, false, false, false)
  const V2 := V1.(identifier := "2")
  const V3 := V1.(identifier := "3", domainEventIds := false)
  const V4 := V3.(identifier := "4")
  const V5 := V3.(identifier := "5")
  const V6 := V3.(identifier := "6", specialCaseAliasesAuth := false, limitNotificationsPowerLevels := true)
  const V7 := V6.(identifier := "7", knockJoinRule := true)
  const V8 := V7.(identifier := "8", restrictedJoinRule := true)
  const V9 := V8.(identifier := "9")
  const V10 := V9.(identifier := "10", knockRestrictedJoinRule := true, enforceIntPowerLevels := true)
  const V11 := V10.(identifier := "11", implicitRoomCreator := true)
  const MSC3757_V10 := V10.(identifier := "org.matrix.msc3757.10", msc3757Enabled := true)
  const MSC3757_V11 := V11.(identifier := "org.matrix.msc3757.11", msc3757Enabled := true)

  const KNOWN_ROOM_VERSIONS: set<RoomVersion> :=
    {V1, V2, V3, V4, V5, V6, V7, V8, V9, V10, V11, MSC3757_V10, MSC3757_V11}

  const NUMBERED_VERSIONS: seq<RoomVersion> := [V1, V2, V3, V4, V5, V6, V7, V8, V9, V10, V11]

  /** The number of the version from which each flag is set, or up to which. */
  lemma FlagsByNumber(n: nat)
    requires 1 <= n <= 11
    ensures var v := NUMBERED_VERSIONS[n - 1];
            && v in KNOWN_ROOM_VERSIONS
            && (v.domainEventIds <==> n <= 2)
            && (v.specialCaseAliasesAuth <==> n <= 5)
            && (v.limitNotificationsPowerLevels <==> n >= 6)
            && (v.knockJoinRule <==> n >= 7)
            && (v.restrictedJoinRule <==> n >= 8)
            && (v.knockRestrictedJoinRule <==> n >= 10)
            && (v.enforceIntPowerLevels <==> n >= 10)
            && (v.implicitRoomCreator <==> n >= 11)
            && !v.msc3757Enabled
  {
  }

  /** The two further versions are numbered ones with MSC3757 enabled, and no other is known. */
  lemma KnownVersionsAre(v: RoomVersion)
    ensures v in KNOWN_ROOM_VERSIONS <==>
      || v in NUMBERED_VERSIONS
      || (v.msc3757Enabled && v.(identifier := "10", msc3757Enabled := false) == V10
          && v.identifier == "org.matrix.msc3757.10")
      || (v.msc3757Enabled && v.(identifier := "11", msc3757Enabled := false) == V11
          && v.identifier == "org.matrix.msc3757.11")
  {
    assert forall v :: v in NUMBERED_VERSIONS <==>
      v in {V1, V2, V3, V4, V5, V6, V7, V8, V9, V10, V11};
  }
}
