/**
 * The room around the matches as functions on `Room` (server/internal/room/room.go):
 * members, host, settings lock, host hand-over, and the match being played.
 * `Rooms.Room` runs them in place.
 */
module RoomRules {
  import opened Basics
  import opened MatchTypes
  import Rules = MatchRules
  import Clock = MatchClock
  import Commands = MatchCommands
  import Openings = MatchOpening

  const SECOND := 1_000_000_000
  const HOST_RECONNECT := 30 * SECOND
  const CODE_DIGITS := 6

  datatype RoomStatus = Lobby | InGame

  datatype Reason = HostTimeout | HostLeft | HostRemoved

  datatype RoomError =
    | InvalidCode | InvalidSettings | InvalidPlayerId | UnknownMember | NotHost | SettingsLocked
    | CannotKickSelf | NotEnoughMembers | RoomFull | GameInProgress | NoGame | MatchError(error: Error)

  /** `Done` is Go's nil error. */
  datatype RoomReply = Done | Refused(error: RoomError)

  datatype Settings = Settings(maxPlayers: int, hintSeconds: int, categoryIds: seq<string>)
  {
    predicate Valid() {
      && MIN_PLAYERS_TO_START <= maxPlayers <= MAX_PLAYERS
      && hintSeconds in {30, 60, 90}
      && categoryIds != [] && "" !in categoryIds
    }
  }

  datatype Member = Member(id: Id, connected: bool, joinedAt: Time)

  datatype Transfer = Transfer(from: Id, to: Id, reason: Reason)

  /** Every field of Go's `Room`; "" is no host, `participants` are the ids the last match began with. */
  datatype Room = Room(
    code: string, settings: Settings, locked: bool, members: seq<Member>, host: Id, status: RoomStatus,
    version: nat, hostDeadline: Option<Time>, pendingFrom: Id, transfer: Option<Transfer>,
    policy: Policy, game: Option<State>, participants: seq<Id>)

  /** The randomness of a start: any shuffle of the ids and any seat for the impostor. */
  datatype Draw = Draw(shuffle: seq<Id> -> seq<Id>, seat: seq<Id> -> nat)

  ghost predicate Fair(d: Draw) {
    forall ids :: multiset(d.shuffle(ids)) == multiset(ids) && (ids != [] ==> d.seat(ids) < |d.shuffle(ids)|)
  }

  function DefaultConfig(): Config {
    Config(60 * SECOND, 20 * SECOND, 15 * SECOND, 60 * SECOND, 5 * SECOND,
           5 * SECOND, 3 * SECOND, 30 * SECOND, 20 * SECOND)
  }

  // ----- members -----

  function Ids(members: seq<Member>): (r: seq<Id>)
    ensures |r| == |members| && forall k :: 0 <= k < |members| ==> r[k] == members[k].id
  {
    seq(|members|, k requires 0 <= k < |members| => members[k].id)
  }

  ghost predicate IsMember(members: seq<Member>, id: Id) { exists m :: m in members && m.id == id }

  ghost predicate Online(members: seq<Member>, id: Id) { exists m :: m in members && m.id == id && m.connected }

  /** `member(id).Connected`: what the first member with the id says. */
  ghost predicate LineUp(members: seq<Member>, id: Id) {
    members != [] && if members[0].id == id then members[0].connected else LineUp(members[1..], id)
  }

  /** `removeMember` */
  function Dismiss(members: seq<Member>, id: Id): seq<Member> {
    if members == [] then []
    else (if members[0].id == id then [] else [members[0]]) + Dismiss(members[1..], id)
  }

  lemma {:induction false} DismissNobody(members: seq<Member>, id: Id)
    requires !IsMember(members, id)
    ensures Dismiss(members, id) == members
  {
    if members != [] {
      assert members[0] in members;
      assert forall m <- members[1..] :: m in members;
      DismissNobody(members[1..], id);
    }
  }

  /** `member(id)` written to: the first member with the id. */
  function Marked(members: seq<Member>, id: Id, connected: bool): seq<Member> {
    if members == [] then []
    else if members[0].id == id then [members[0].(connected := connected)] + members[1..]
    else [members[0]] + Marked(members[1..], id, connected)
  }

  /** The member who takes over from `from`: the first in join order who is somebody else and connected. */
  ghost function Heir(members: seq<Member>, from: Id): (r: nat)
    ensures r <= |members|
    ensures r < |members| ==> members[r].connected && members[r].id != from
    ensures forall k :: 0 <= k < r ==> members[k].id == from || !members[k].connected
  {
    if members == [] then 0
    else if members[0].id != from && members[0].connected then 0
    else 1 + Heir(members[1..], from)
  }

  // ----- the room -----

  /** What the code relies on between calls: a match in progress exists. */
  ghost predicate RoomWf(r: Room) {
    && (r.game.Some? ==> Rules.Wf(r.game.value))
    && (r.status == InGame ==> r.game.Some? && r.participants != [])
  }

  predicate ValidCode(code: string) {
    |code| == CODE_DIGITS && forall c <- code :: '0' <= c <= '9'
  }

  /** `New` */
  ghost function New(code: string, hostId: Id, settings: Settings, policy: Policy,
    now: Time): (r: (Option<Room>, RoomReply))
    ensures r.0.Some? ==> RoomWf(r.0.value)
  {
    if !ValidCode(code) then (None, Refused(InvalidCode))
    else if hostId == "" || !settings.Valid() then (None, Refused(InvalidSettings))
    else (Some(Room(code, settings, false, [Member(hostId, true, now)], hostId, Lobby, 0, None, "", None, policy,
      None, [])), Done)
  }

  ghost function Bumped(r: Room): Room { r.(version := r.version + 1) }

  /** Whom a hand-over replaces. */
  ghost function Outgoing(r: Room): Id { if r.host != "" then r.host else r.pendingFrom }

  /** `transferHost` */
  ghost function TransferHost(r: Room, reason: Reason, at: Time): (t: Room)
    ensures t == r.(host := t.host, hostDeadline := t.hostDeadline, pendingFrom := t.pendingFrom,
      transfer := t.transfer)
  {
    var from, t := Outgoing(r), r.(hostDeadline := None, pendingFrom := "");
    var i := Heir(r.members, from);
    if i == |r.members| && reason == HostTimeout then t.(host := "", pendingFrom := from)
    else if r.members == [] then t.(host := "")
    else
      var to := if i < |r.members| then r.members[i] else r.members[0];
      t.(host := to.id, transfer := Some(Transfer(from, to.id, reason)),
         hostDeadline := if to.connected then None else Some(at + HOST_RECONNECT))
  }

  /** A member goes; a host is replaced. */
  ghost function Depart(r: Room, id: Id, reason: Reason, at: Time): Room {
    var t := r.(members := Dismiss(r.members, id));
    if id == r.host then TransferHost(t, reason, at) else t
  }

  /** One player of the loop in `syncGame`. */
  ghost function SyncPlayer(r: Room, id: Id, status: Status, now: Time): Room {
    if status == Active || status == Eliminated || !IsMember(r.members, id) then r
    else
      Bumped(Depart(r, id, if status == Removed then HostRemoved else HostLeft, now))
  }

  /** The loop of `syncGame`, over the turn order. */
  ghost function SyncPlayers(r: Room, order: seq<Id>, players: map<Id, Player>, now: Time): (t: Room)
    ensures t.status == r.status && t.game == r.game && t.participants == r.participants
    decreases |order|
  {
    if order == [] then r
    else if order[0] !in players then SyncPlayers(r, order[1..], players, now)
    else SyncPlayers(SyncPlayer(r, order[0], players[order[0]].status, now), order[1..], players, now)
  }

  /** `syncGame` */
  ghost function SyncGame(r: Room, now: Time): (t: Room)
    requires RoomWf(r)
    ensures RoomWf(t) && t.game == r.game
  {
    if r.status != InGame || r.participants[0] !in r.game.value.players then r
    else
      var s := r.game.value;
      var t := SyncPlayers(r, s.setup.order, s.players, now);
      if s.phase == Ended then Bumped(t.(status := Lobby)) else t
  }

  /** `Deadline` */
  ghost function Deadline(r: Room): Option<Time>
    requires RoomWf(r)
  {
    var d := if r.status == InGame then Clock.Deadline(r.game.value) else None;
    if d.Some? && (r.hostDeadline.None? || d.value < r.hostDeadline.value) then d else r.hostDeadline
  }

  /** The first half of `Tick`: the match's timers, and what they mean for the room. */
  ghost function TickGame(r: Room, now: Time): (t: Room)
    requires RoomWf(r)
    ensures RoomWf(t)
  {
    if r.status == InGame then SyncGame(r.(game := Some(Clock.Tick(r.game.value, now))), now) else r
  }

  /** The second half of `Tick`: a host who has been away too long. */
  ghost function TickHost(r: Room, now: Time): (t: Room)
    ensures t.game == r.game && t.status == r.status && t.participants == r.participants && t.members == r.members
  {
    if r.hostDeadline.Some? && r.hostDeadline.value <= now
    then Bumped(TransferHost(r, HostTimeout, r.hostDeadline.value)) else r
  }

  /** `Tick` */
  ghost function Tick(r: Room, now: Time): (t: Room)
    requires RoomWf(r)
    ensures RoomWf(t)
  {
    TickHost(TickGame(r, now), now)
  }

  // ----- commands, after their leading `Tick` -----

  ghost function ActJoin(r: Room, id: Id, now: Time): (t: (Room, RoomReply))
    requires RoomWf(r)
    ensures RoomWf(t.0)
  {
    if IsMember(r.members, id) then (r, Done)
    else if r.status == InGame then (r, Refused(GameInProgress))
    else if |r.members| >= r.settings.maxPlayers then (r, Refused(RoomFull))
    else
      var t := r.(members := r.members + [Member(id, true, now)], locked := true);
      (Bumped(if r.pendingFrom != "" then TransferHost(t, HostTimeout, now)
              else if r.host == "" then t.(host := id, transfer := None)
              else t), Done)
  }

  /** `hostInLobby`, after its `Tick` */
  ghost function HostInLobby(r: Room, byId: Id): RoomReply {
    if !IsMember(r.members, byId) then Refused(UnknownMember)
    else if byId != r.host then Refused(NotHost)
    else if r.status == InGame then Refused(GameInProgress)
    else Done
  }

  ghost function ActUpdateSettings(r: Room, byId: Id, settings: Settings): (t: (Room, RoomReply))
    requires RoomWf(r)
    ensures RoomWf(t.0)
  {
    if HostInLobby(r, byId) != Done then (r, HostInLobby(r, byId))
    else if r.locked then (r, Refused(SettingsLocked))
    else if !settings.Valid() then (r, Refused(InvalidSettings))
    else (Bumped(r.(settings := settings)), Done)
  }

  ghost function ActKick(r: Room, byId: Id, id: Id): (t: (Room, RoomReply))
    requires RoomWf(r)
    ensures RoomWf(t.0)
  {
    if HostInLobby(r, byId) != Done then (r, HostInLobby(r, byId))
    else if id == byId then (r, Refused(CannotKickSelf))
    else if !IsMember(r.members, id) then (r, Refused(UnknownMember))
    else (Bumped(r.(members := Dismiss(r.members, id))), Done)
  }

  /** The offline members of a starting match, marked one by one; stops at the first error. */
  ghost function MarkMembers(s: State, members: seq<Member>): (t: (State, Reply))
    requires Rules.Wf(s)
    ensures Rules.Wf(t.0)
    decreases |members|
  {
    if members == [] then (s, Ok)
    else if members[0].connected then MarkMembers(s, members[1..])
    else
      var t := Commands.MarkOffline(s, members[0].id);
      if t.1 != Ok then t else MarkMembers(t.0, members[1..])
  }

  ghost function MatchConfig(settings: Settings): Config {
    DefaultConfig().(hint := settings.hintSeconds * SECOND)
  }

  /** `start` */
  ghost function ActStart(r: Room, category: string, secret: string, d: Draw, now: Time): (t: (Room, RoomReply))
    requires RoomWf(r) && Fair(d)
    ensures RoomWf(t.0)
  {
    var ids := Ids(r.members);
    if |r.members| < MIN_PLAYERS_TO_START then (r, Refused(NotEnoughMembers))
    else
      var g := Openings.New(MatchConfig(r.settings), r.policy, ids, category, secret, d.shuffle(ids), d.seat(ids), now);
      if g.None? then (r, Refused(MatchError(InvalidSetup)))
      else
        var m := MarkMembers(g.value, r.members);
        if m.1 != Ok then (r, Refused(MatchError(m.1.error)))
        else (Bumped(r.(game := Some(m.0), participants := ids, status := InGame)), Done)
  }

  /** `Start` after its `Tick` */
  ghost function ActHostStart(r: Room, byId: Id, category: string, secret: string, d: Draw,
    now: Time): (t: (Room, RoomReply))
    requires RoomWf(r) && Fair(d)
    ensures RoomWf(t.0)
  {
    if HostInLobby(r, byId) != Done then (r, HostInLobby(r, byId)) else ActStart(r, category, secret, d, now)
  }

  /** `StartByServer` after its `Tick` */
  ghost function ActServerStart(r: Room, category: string, secret: string, d: Draw, now: Time): (t: (Room, RoomReply))
    requires RoomWf(r) && Fair(d)
    ensures RoomWf(t.0)
  {
    if r.status == InGame then (r, Refused(GameInProgress)) else ActStart(r, category, secret, d, now)
  }

  /** What `WithGame` is for: presence and leaving go through the room. */
  predicate Playing(c: Command) { !c.Disconnect? && !c.Reconnect? && !c.Leave? }

  ghost function FromMatch(reply: Reply): RoomReply { if reply == Ok then Done else Refused(MatchError(reply.error)) }

  /** `WithGame` after its `Tick` */
  ghost function ActWithGame(r: Room, c: Command, now: Time): (t: (Room, RoomReply))
    requires RoomWf(r) && r.game.Some?
    ensures RoomWf(t.0)
  {
    var m := Commands.Apply(r.game.value, now, c);
    (SyncGame(r.(game := Some(m.0)), now), FromMatch(m.1))
  }

  /** The call into the match that `Leave`, `Disconnect` and `Reconnect` make for a participant. */
  ghost function Inform(r: Room, c: Command, now: Time): (t: (Room, Reply))
    requires RoomWf(r)
    ensures RoomWf(t.0)
    ensures t.0 == r.(game := t.0.game)
  {
    if r.status == InGame && c.id in r.participants then
      var m := Commands.Apply(r.game.value, now, c);
      (r.(game := Some(m.0)), m.1)
    else (r, Ok)
  }

  ghost function ActLeave(r: Room, id: Id, now: Time): (t: (Room, RoomReply))
    requires RoomWf(r)
    ensures RoomWf(t.0)
  {
    hide Inform, Rules.Wf, TransferHost, Dismiss, Marked;
    if !IsMember(r.members, id) then (r, Refused(UnknownMember))
    else
      var m := Inform(r, Command.Leave(id), now);
      if m.1 != Ok then (m.0, FromMatch(m.1))
      else (Bumped(SyncGame(Depart(m.0, id, HostLeft, now), now)), Done)
  }

  ghost function Mark(r: Room, id: Id, connected: bool): Room { r.(members := Marked(r.members, id, connected)) }

  /** A host whose line goes is on the clock. */
  ghost function LineGone(r: Room, id: Id, now: Time): Room {
    if id == r.host then r.(hostDeadline := Some(now + HOST_RECONNECT)) else r
  }

  /** A line that is back may give the room its host, or stop the host's clock. */
  ghost function LineBack(r: Room, id: Id, now: Time): Room {
    if r.pendingFrom != "" then (if id != r.pendingFrom then TransferHost(r, HostTimeout, now) else r)
    else if id == r.host then r.(hostDeadline := None)
    else r
  }

  ghost function ActDisconnect(r: Room, id: Id, now: Time): (t: (Room, RoomReply))
    requires RoomWf(r)
    ensures RoomWf(t.0)
  {
    hide Inform, Rules.Wf, TransferHost, Dismiss, Marked;
    if !IsMember(r.members, id) then (r, Refused(UnknownMember))
    else if !LineUp(r.members, id) then (r, Done)
    else
      var m := Inform(Mark(r, id, false), Command.Disconnect(id), now);
      if m.1 != Ok then (m.0, FromMatch(m.1))
      else (Bumped(SyncGame(LineGone(m.0, id, now), now)), Done)
  }

  ghost function ActReconnect(r: Room, id: Id, now: Time): (t: (Room, RoomReply))
    requires RoomWf(r)
    ensures RoomWf(t.0)
  {
    hide Inform, Rules.Wf, TransferHost, Dismiss, Marked;
    if !IsMember(r.members, id) then (r, Refused(UnknownMember))
    else if LineUp(r.members, id) then (r, Done)
    else
      var m := Inform(Mark(r, id, true), Command.Reconnect(id), now);
      if m.1 != Ok then (m.0, FromMatch(m.1))
      else (Bumped(SyncGame(LineBack(m.0, id, now), now)), Done)
  }

  // ----- whole calls and runs -----

  datatype RoomCommand =
    | Join(id: Id)
    | UpdateSettings(byId: Id, settings: Settings)
    | Kick(byId: Id, id: Id)
    | Start(byId: Id, category: string, secret: string, draw: Draw)
    | StartByServer(category: string, secret: string, draw: Draw)
    | Play(command: Command)
    | Leave(id: Id)
    | Disconnect(id: Id)
    | Reconnect(id: Id)

  /** Calls the room is meant to get: fair draws, and presence through the room. */
  ghost predicate Proper(c: RoomCommand) {
    match c
    case Start(_, _, _, d) => Fair(d)
    case StartByServer(_, _, d) => Fair(d)
    case Play(command) => Playing(command)
    case _ => true
  }

  /** The checks a call makes before its `Tick`. */
  ghost function Precheck(r: Room, c: RoomCommand): RoomReply {
    if c.Join? && c.id == "" then Refused(InvalidPlayerId)
    else if c.Play? && r.game.None? then Refused(NoGame)
    else Done
  }

  ghost function Act(r: Room, c: RoomCommand, now: Time): (t: (Room, RoomReply))
    requires RoomWf(r) && Proper(c) && Precheck(r, c) == Done
    ensures RoomWf(t.0)
  {
    match c
    case Join(id) => ActJoin(r, id, now)
    case UpdateSettings(byId, settings) => ActUpdateSettings(r, byId, settings)
    case Kick(byId, id) => ActKick(r, byId, id)
    case Start(byId, category, secret, d) => ActHostStart(r, byId, category, secret, d, now)
    case StartByServer(category, secret, d) => ActServerStart(r, category, secret, d, now)
    case Play(command) => ActWithGame(r, command, now)
    case Leave(id) => ActLeave(r, id, now)
    case Disconnect(id) => ActDisconnect(r, id, now)
    case Reconnect(id) => ActReconnect(r, id, now)
  }

  /** A call as the caller makes it. */
  ghost function Apply(r: Room, c: RoomCommand, now: Time): (t: (Room, RoomReply))
    requires RoomWf(r) && Proper(c)
    ensures RoomWf(t.0)
  {
    if Precheck(r, c) != Done then (r, Precheck(r, c))
    else
      TickKeepsGame(r, now);
      Act(Tick(r, now), c, now)
  }

  lemma TickKeepsGame(r: Room, now: Time)
    requires RoomWf(r)
    ensures Tick(r, now).game.Some? <==> r.game.Some?
  {
  }

  datatype RoomEvent = Timer(at: Time) | Call(at: Time, command: RoomCommand)

  ghost function Next(r: Room, e: RoomEvent): (t: Room)
    requires RoomWf(r) && (e.Call? ==> Proper(e.command))
    ensures RoomWf(t)
  {
    match e case Timer(at) => Tick(r, at) case Call(at, c) => Apply(r, c, at).0
  }

  ghost predicate Goes(trace: seq<Room>, events: seq<RoomEvent>, k: int) {
    && 0 <= k < |events| && k + 1 < |trace| && RoomWf(trace[k])
    && (events[k].Call? ==> Proper(events[k].command))
    && trace[k + 1] == Next(trace[k], events[k])
  }

  /** The rooms that the calls lead through, one after the other. */
  ghost predicate Trace(trace: seq<Room>, events: seq<RoomEvent>) {
    |trace| == |events| + 1 && forall k :: 0 <= k < |events| ==> Goes(trace, events, k)
  }

  lemma TraceTail(trace: seq<Room>, events: seq<RoomEvent>)
    requires Trace(trace, events) && events != []
    ensures Goes(trace, events, 0) && Trace(trace[1..], events[1..])
  {
    hide Next, RoomWf;
    assert Goes(trace, events, 0);
    forall k | 0 <= k < |events[1..]| ensures Goes(trace[1..], events[1..], k) {
      assert Goes(trace, events, k + 1);
    }
  }

  lemma TraceLength(trace: seq<Room>, events: seq<RoomEvent>)
    requires Trace(trace, events)
    ensures |trace| == |events| + 1
  {
  }

  ghost predicate InOrder(from: Time, events: seq<RoomEvent>, to: Time)
    decreases |events|
  {
    if events == [] then from <= to else from <= events[0].at && InOrder(events[0].at, events[1..], to)
  }
}
