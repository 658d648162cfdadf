/** Events as the authorization rules see them.

    A check either returns or raises; every exception, whatever its class, means
    that the event is not accepted, so they are all the one value `Raised`. */
module Events {
  import opened Basics
  import opened RoomVersions

  datatype Result<+T> = Ok(value: T) | Raised {
    predicate IsFailure() { Raised? }
    function PropagateFailure<U>(): Result<U>
      requires Raised?
    { Raised }
    function Extract(): T
      requires Ok?
    { value }
  }

  /** The outcome of a test that raises when it fails. */
  datatype Guard = Passed | Failed {
    predicate IsFailure() { Failed? }
    function PropagateFailure<U>(): Result<U>
      requires Failed?
    { Raised }
  }

  function Require(condition: bool): Guard {
    if condition then Passed else Failed
  }

  datatype EventType =
    | RoomCreate
    | RoomMember
    | RoomPowerLevels
    | RoomJoinRules
    | RoomThirdPartyInvite
    | RoomAliases
    | RoomRedaction
    | OtherType(name: string)

  datatype Membership = Join | Invite | Knock | Leave | Ban | OtherMembership(text: string)

  datatype JoinRule = Public | InviteOnly | KnockRule | Restricted | KnockRestricted | OtherRule(text: string)

  /** A JSON value found where a power level belongs. */
  datatype Level =
    | Plain(n: int)   // a JSON integer
    | Loose(n: int)   // another value that int() converts: a numeric string, a float, a boolean
    | Null
    | Unreadable      // int() raises on it
  {
    /** Python's int(). */
    function Int(): Result<int> {
      match this
      case Plain(n) => Ok(n)
      case Loose(n) => Ok(n)
      case Null => Raised
      case Unreadable => Raised
    }
  }

  /** The value under "users", "events" or "notifications"; an absent key reads as the empty mapping. */
  datatype LevelTable<K(==)> =
    | Levels(levels: map<K, Level>)
    | Hollow      // an empty list or an empty string: iterates like {} but has no .get
    | Malformed   // anything else
  {
    /** dict.get; only a mapping has it. */
    function Get(k: K): Result<Option<Level>> {
      match this
      case Levels(m) => Ok(if k in m then Some(m[k]) else None)
      case Hollow => Raised
      case Malformed => Raised
    }

    /** The entries found by iterating over the value. */
    function Entries(): map<K, Level> {
      if Levels? then levels else map[]
    }
  }

  datatype LevelName = UsersDefault | EventsDefault | StateDefault | BanLevel | RedactLevel | KickLevel | InviteLevel

  datatype PowerLevels = PowerLevels(
    named: map<LevelName, Level>,
    users: LevelTable<string>,
    events: LevelTable<EventType>,
    notifications: LevelTable<string>
  )

  /** The "third_party_invite" block of an invite. */
  datatype ThirdPartyInvite =
    | NoToken                // not of the shape {"signed": {"token": ...}}
    | Signed(token: string,
             complete: bool,               // "mxid" and "signatures" are present too
             mxid: string,
             verifiesUnder: set<string>)   // the public keys under which a signature verifies

  datatype Content = Content(
    membership: Option<Membership>,
    thirdPartyInvite: Option<ThirdPartyInvite>,
    authorisingUser: Option<string>,
    joinRule: Option<JoinRule>,
    creator: Option<string>,
    namesKnownVersion: bool,   // room_version, "1" when absent, is a known version
    federatable: bool,         // m.federate is absent or exactly true
    publicKeys: set<string>,   // of an m.room.third_party_invite
    power: PowerLevels
  )

  datatype Event = Event(
    id: string,
    kind: EventType,
    stateKey: Option<string>,
    sender: string,
    roomId: string,
    version: RoomVersion,
    prevEvents: seq<string>,
    authEvents: seq<string>,
    rejected: bool,
    redacts: Option<string>,
    ownerIdValid: bool,        // UserID.is_valid of the user id that heads the state key
    content: Content
  )

  datatype StateKey = StateKey(kind: EventType, key: string)

  type State = map<StateKey, Event>

  function Lookup(s: State, kind: EventType, key: string): Option<Event> {
    var k := StateKey(kind, key);
    if k in s then Some(s[k]) else None
  }

  /** str.find from a position: the first index of `c` at or after `from`, or -1. */
  function Find(s: string, c: char, from: nat): (i: int)
    ensures i == -1 || (from <= i < |s| && s[i] == c)
    ensures forall j :: from <= j < |s| && (i == -1 || j < i) ==> s[j] != c
    decreases |s| - from
  {
    if from >= |s| then -1 else if s[from] == c then from else Find(s, c, from + 1)
  }

  /** get_domain_from_id */
  function Domain(id: string): Result<string> {
    var i := Find(id, ':', 0);
    if i == -1 then Raised else Ok(id[i + 1..])
  }

  /** UserID.from_string does not raise. */
  predicate ParsesAsUserId(id: string) {
    |id| > 0 && id[0] == '@' && Find(id, ':', 1) != -1
  }
}
