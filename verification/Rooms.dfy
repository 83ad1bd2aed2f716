/**
 * The room itself: `Room` of server/internal/room/room.go, its fields and its match updated in place.
 * `Abs` reads it off as a `RoomRules.Room`; every method makes of it what the rules say.
 */
module Rooms {
  import opened Basics
  import opened MatchTypes
  import Match
  import MatchRules
  import Clock = MatchClock
  import Commands = MatchCommands
  import Openings = MatchOpening
  import Rules = RoomRules
  import opened RoomRules

  class Room {
    const code: string
    const policy: Policy

    var settings: Settings
    var locked: bool
    var members: seq<Member>
    var host: Id
    var status: RoomStatus
    var version: nat
    var hostDeadline: Option<Time>
    var pendingFrom: Id
    var transfer: Option<Transfer>
    var game: Match.Game?
    var participants: seq<Id>

    ghost function Abs(): Rules.Room
      reads this, game
    {
      Rules.Room(code, settings, locked, members, host, status, version, hostDeadline, pendingFrom, transfer,
        policy, if game == null then None else Some(game.Abs()), participants)
    }

    ghost predicate Valid()
      reads this, game
    {
      RoomWf(Abs())
    }

    constructor (code: string, host: Id, settings: Settings, policy: Policy, now: Time)
      ensures Abs() == Rules.Room(code, settings, false, [Member(host, true, now)], host, Lobby, 0, None, "", None,
        policy, None, [])
    {
      this.code, this.policy, this.settings, this.host := code, policy, settings, host;
      locked, members, status, version := false, [Member(host, true, now)], Lobby, 0;
      hostDeadline, pendingFrom, transfer := None, "", None;
      game, participants := null, [];
    }

    /** `New` */
    static method New(code: string, host: Id, settings: Settings, policy: Policy, now: Time) returns (r: Room?,
      reply: RoomReply)
      ensures r != null ==> fresh(r) && r.game == null
      ensures (if r == null then None else Some(r.Abs()), reply) == Rules.New(code, host, settings, policy, now)
    {
      if !ValidCode(code) { return null, Refused(InvalidCode); }
      if host == "" { return null, Refused(InvalidSettings); }
      if !settings.Valid() { return null, Refused(InvalidSettings); }
      r := new Room(code, host, settings, policy, now);
      reply := Done;
    }

    // ----- members -----

    /** `member`: the first member with the id, or the number of members. */
    method Find(id: Id) returns (i: nat)
      ensures i <= |members| && (i < |members| ==> members[i].id == id)
      ensures forall k :: 0 <= k < i ==> members[k].id != id
      ensures i < |members| <==> IsMember(members, id)
    {
      i := 0;
      while i < |members| && members[i].id != id
        invariant i <= |members|
        invariant forall k :: 0 <= k < i ==> members[k].id != id
      {
        i := i + 1;
      }
    }

    /** `removeMember` */
    method RemoveMember(id: Id) returns (removed: bool)
      modifies `members
      ensures members == Dismiss(old(members), id)
      ensures removed <==> IsMember(old(members), id)
    {
      var n := |members|;
      DismissCounts(members, id);
      members := Dismiss(members, id);
      removed := |members| < n;
    }

    method SetLine(i: nat, connected: bool)
      requires i < |members| && forall k :: 0 <= k < i ==> members[k].id != members[i].id
      modifies `members
      ensures members == Marked(old(members), old(members)[i].id, connected)
    {
      MarkedAt(members, i, connected);
      members := members[i := members[i].(connected := connected)];
    }

    // ----- the host -----

    /** `transferHost` */
    method TransferHost(reason: Reason, at: Time)
      modifies `host, `hostDeadline, `pendingFrom, `transfer
      ensures Abs() == Rules.TransferHost(old(Abs()), reason, at)
    {
      var from := if host != "" then host else pendingFrom;
      hostDeadline, pendingFrom := None, "";
      var i := NextHost(from);
      if i == |members| && reason == HostTimeout {
        host, pendingFrom := "", from;
        return;
      }
      if i == |members| {
        if |members| == 0 {
          host := "";
          return;
        }
        i := 0;
      }
      TakeOver(from, members[i], reason, at);
    }

    /** The search of `transferHost`. */
    method NextHost(from: Id) returns (i: nat)
      ensures i == Heir(members, from)
    {
      i := 0;
      assert members[0..] == members;
      while i < |members| && (members[i].id == from || !members[i].connected)
        invariant i <= |members|
        invariant Heir(members, from) == i + Heir(members[i..], from)
      {
        i := i + 1;
      }
    }

    method TakeOver(from: Id, to: Member, reason: Reason, at: Time)
      modifies `host, `hostDeadline, `transfer
      ensures host == to.id && transfer == Some(Transfer(from, to.id, reason))
      ensures hostDeadline == if to.connected then old(hostDeadline) else Some(at + HOST_RECONNECT)
    {
      host := to.id;
      transfer := Some(Transfer(from, to.id, reason));
      if !to.connected { hostDeadline := Some(at + HOST_RECONNECT); }
    }

    // ----- the match -----

    /** `syncGame` */
    method SyncGame(now: Time)
      requires Valid()
      modifies this
      ensures Abs() == Rules.SyncGame(old(Abs()), now) && Valid() && game == old(game)
    {
      hide MatchRules.Wf, Rules.SyncPlayer;
      if status != InGame { return; }
      if participants[0] !in game.players { return; }
      ghost var r, s := Abs(), game.Abs();
      var order := game.order;
      var i := 0;
      assert order[0..] == order;
      while i < |order|
        invariant 0 <= i <= |order| && game == old(game) && status == InGame && participants == r.participants
        invariant game.Abs() == s
        invariant Rules.SyncPlayers(r, order, s.players, now) == Rules.SyncPlayers(Abs(), order[i..], s.players, now)
      {
        assert order[i..][0] == order[i] && order[i..][1..] == order[i + 1..];
        if order[i] in game.players {
          SyncPlayer(order[i], game.players[order[i]].status, now);
        }
        i := i + 1;
      }
      if game.phase == Ended {
        status := Lobby;
        version := version + 1;
      }
    }

    /** The body of `syncGame`'s loop. */
    method SyncPlayer(id: Id, playing: Status, now: Time)
      modifies `members, `host, `hostDeadline, `pendingFrom, `transfer, `version
      ensures Abs() == Rules.SyncPlayer(old(Abs()), id, playing, now)
    {
      hide Rules.TransferHost;
      if playing == Active || playing == Eliminated { return; }
      ghost var r := Abs();
      var removed := RemoveMember(id);
      if !removed {
        DismissNobody(r.members, id);
        return;
      }
      if id == host {
        TransferHost(if playing == Removed then HostRemoved else HostLeft, now);
      }
      version := version + 1;
    }

    // ----- timers -----

    /** `Deadline` */
    method Deadline() returns (next: Option<Time>)
      requires Valid()
      ensures next == Rules.Deadline(Abs())
    {
      next := hostDeadline;
      if status == InGame {
        var d := game.Deadline();
        if d.Some? && (next.None? || d.value < next.value) { next := d; }
      }
    }

    /** `Tick` */
    method Tick(now: Time)
      requires Valid()
      modifies this, game
      ensures Abs() == Rules.Tick(old(Abs()), now) && Valid() && game == old(game)
    {
      hide MatchRules.Wf, Clock.Tick, Rules.SyncGame, Rules.TransferHost;
      ghost var r := Abs();
      if status == InGame {
        game.Tick(now);
        assert Abs() == r.(game := Some(Clock.Tick(r.game.value, now)));
        SyncGame(now);
      }
      assert Abs() == Rules.TickGame(r, now);
      TickHost(now);
    }

    method TickHost(now: Time)
      modifies `host, `hostDeadline, `pendingFrom, `transfer, `version
      ensures Abs() == Rules.TickHost(old(Abs()), now)
    {
      hide Rules.TransferHost;
      if hostDeadline.Some? && hostDeadline.value <= now {
        TransferHost(HostTimeout, hostDeadline.value);
        version := version + 1;
      }
    }

    // ----- calls -----

    method Join(id: Id, now: Time) returns (reply: RoomReply)
      requires Valid()
      modifies this, game
      ensures (Abs(), reply) == Rules.Apply(old(Abs()), RoomCommand.Join(id), now) && Valid() && game == old(game)
    {
      hide MatchRules.Wf, Rules.Tick, Rules.TransferHost;
      if id == "" { return Refused(InvalidPlayerId); }
      Tick(now);
      var i := Find(id);
      if i < |members| { return Done; }
      if status == InGame { return Refused(GameInProgress); }
      if |members| >= settings.maxPlayers { return Refused(RoomFull); }
      Admit(id, now);
      return Done;
    }

    /** The end of `Join`: the player is in, and may become the host. */
    method Admit(id: Id, now: Time)
      modifies this
      ensures var r := old(Abs());
        var t := r.(members := r.members + [Member(id, true, now)], locked := true);
        Abs() == Bumped(if r.pendingFrom != "" then Rules.TransferHost(t, HostTimeout, now)
          else if r.host == "" then t.(host := id, transfer := None) else t)
      ensures game == old(game)
    {
      hide Rules.TransferHost;
      members := members + [Member(id, true, now)];
      locked := true;
      if pendingFrom != "" {
        TransferHost(HostTimeout, now);
      } else if host == "" {
        host, transfer := id, None;
      }
      version := version + 1;
    }

    /** `hostInLobby`, after its `Tick` */
    method HostInLobby(byId: Id) returns (reply: RoomReply)
      ensures reply == Rules.HostInLobby(Abs(), byId)
    {
      var i := Find(byId);
      if i == |members| { return Refused(UnknownMember); }
      if byId != host { return Refused(NotHost); }
      if status == InGame { return Refused(GameInProgress); }
      return Done;
    }

    method UpdateSettings(byId: Id, settings: Settings, now: Time) returns (reply: RoomReply)
      requires Valid()
      modifies this, game
      ensures (Abs(), reply) == Rules.Apply(old(Abs()), RoomCommand.UpdateSettings(byId, settings), now) && Valid() &&
        game == old(game)
    {
      hide MatchRules.Wf, Rules.Tick, Rules.HostInLobby;
      Tick(now);
      reply := HostInLobby(byId);
      if reply != Done { return; }
      if locked { return Refused(SettingsLocked); }
      if !settings.Valid() { return Refused(InvalidSettings); }
      this.settings := settings;
      version := version + 1;
    }

    method Kick(byId: Id, id: Id, now: Time) returns (reply: RoomReply)
      requires Valid()
      modifies this, game
      ensures (Abs(), reply) == Rules.Apply(old(Abs()), RoomCommand.Kick(byId, id), now) && Valid() && game == old(game)
    {
      hide MatchRules.Wf, Rules.Tick, Rules.HostInLobby, Dismiss;
      Tick(now);
      ghost var r := Abs();
      reply := HostInLobby(byId);
      if reply != Done { return; }
      if id == byId { return Refused(CannotKickSelf); }
      var removed := RemoveMember(id);
      if !removed {
        DismissNobody(r.members, id);
        return Refused(UnknownMember);
      }
      version := version + 1;
    }

    method Start(byId: Id, category: string, secret: string, d: Draw, now: Time) returns (reply: RoomReply)
      requires Valid() && Fair(d)
      modifies this, game
      ensures (Abs(), reply) == Rules.Apply(old(Abs()), RoomCommand.Start(byId, category, secret, d), now) && Valid()
      ensures game == old(game) || fresh(game)
    {
      hide MatchRules.Wf, Rules.Tick, Rules.HostInLobby, Rules.ActStart;
      Tick(now);
      reply := HostInLobby(byId);
      if reply != Done { return; }
      reply := Begin(category, secret, d, now);
    }

    method StartByServer(category: string, secret: string, d: Draw, now: Time) returns (reply: RoomReply)
      requires Valid() && Fair(d)
      modifies this, game
      ensures (Abs(), reply) == Rules.Apply(old(Abs()), RoomCommand.StartByServer(category, secret, d), now) && Valid()
      ensures game == old(game) || fresh(game)
    {
      hide MatchRules.Wf, Rules.Tick, Rules.ActStart;
      Tick(now);
      if status == InGame { return Refused(GameInProgress); }
      reply := Begin(category, secret, d, now);
    }

    /** `start` */
    method Begin(category: string, secret: string, d: Draw, now: Time) returns (reply: RoomReply)
      requires Valid() && Fair(d)
      modifies this
      ensures (Abs(), reply) == Rules.ActStart(old(Abs()), category, secret, d, now) && Valid()
      ensures game == old(game) || fresh(game)
    {
      hide MatchRules.Wf, Commands.Playable, Rules.MarkMembers, Openings.New, Bumped;
      if |members| < MIN_PLAYERS_TO_START { return Refused(NotEnoughMembers); }
      var ids := MemberIds();
      var cfg := DefaultConfig().(hint := settings.hintSeconds * SECOND);
      var g, made := Match.Game.New(cfg, policy, ids, category, secret, d.shuffle(ids), d.seat(ids), now);
      if g == null { return Refused(MatchError(InvalidSetup)); }
      var marked := MarkMembers(g);
      if marked != Ok { return Refused(MatchError(marked.error)); }
      Install(g, ids);
      return Done;
    }

    /** The room takes up a new match. */
    method Install(g: Match.Game, ids: seq<Id>)
      modifies `game, `participants, `status, `version
      ensures Abs() == Bumped(old(Abs()).(game := Some(old(g.Abs())), participants := ids, status := InGame)) &&
        game == g
    {
      game, participants, status := g, ids, InGame;
      version := version + 1;
    }

    method MemberIds() returns (ids: seq<Id>)
      ensures ids == Ids(members)
    {
      ids := [];
      var i := 0;
      while i < |members|
        invariant 0 <= i <= |members| && |ids| == i
        invariant forall k :: 0 <= k < i ==> ids[k] == members[k].id
      {
        ids := ids + [members[i].id];
        i := i + 1;
      }
    }

    /** The loop of `start` over the offline members. */
    method MarkMembers(g: Match.Game) returns (reply: Reply)
      requires g.Valid()
      modifies g
      ensures (g.Abs(), reply) == Rules.MarkMembers(old(g.Abs()), members) && g.Valid()
    {
      hide MatchRules.Wf;
      ghost var s := g.Abs();
      var i := 0;
      assert members[0..] == members;
      while i < |members|
        invariant 0 <= i <= |members| && g.Valid()
        invariant Rules.MarkMembers(s, members) == Rules.MarkMembers(g.Abs(), members[i..])
      {
        assert members[i..][0] == members[i] && members[i..][1..] == members[i + 1..];
        if !members[i].connected {
          reply := g.MarkOffline(members[i].id);
          if reply != Ok { return; }
        }
        i := i + 1;
      }
      return Ok;
    }

    method WithGame(c: Command, now: Time) returns (reply: RoomReply)
      requires Valid() && Playing(c)
      modifies this, game
      ensures (Abs(), reply) == Rules.Apply(old(Abs()), RoomCommand.Play(c), now) && Valid() && game == old(game)
    {
      hide MatchRules.Wf, Rules.Tick, Rules.SyncGame, Commands.Apply;
      if game == null { return Refused(NoGame); }
      Tick(now);
      ghost var r := Abs();
      var played := game.Do(now, c);
      assert Abs() == r.(game := Some(Commands.Apply(r.game.value, now, c).0));
      SyncGame(now);
      reply := if played == Ok then Done else Refused(MatchError(played.error));
    }

    /** The call into the match made for a participant. */
    method Inform(c: Command, now: Time) returns (reply: Reply)
      requires Valid()
      modifies game
      ensures (Abs(), reply) == Rules.Inform(old(Abs()), c, now) && Valid()
    {
      hide MatchRules.Wf, Commands.Apply;
      reply := Ok;
      if status == InGame && c.id in participants {
        reply := game.Do(now, c);
      }
    }

    method Leave(id: Id, now: Time) returns (reply: RoomReply)
      requires Valid()
      modifies this, game
      ensures (Abs(), reply) == Rules.Apply(old(Abs()), RoomCommand.Leave(id), now) && Valid() && game == old(game)
    {
      hide MatchRules.Wf, Rules.Tick, Rules.SyncGame, Rules.Inform, Rules.Depart;
      Tick(now);
      var i := Find(id);
      if i == |members| { return Refused(UnknownMember); }
      reply := TellLeave(id, now);
    }

    /** The rest of `Leave`: the match is told, and the member goes. */
    method TellLeave(id: Id, now: Time) returns (reply: RoomReply)
      requires Valid()
      modifies this, game
      ensures var m := Rules.Inform(old(Abs()), Command.Leave(id), now);
        (Abs(), reply) == if m.1 != Ok then (m.0, FromMatch(m.1))
          else (Bumped(Rules.SyncGame(Rules.Depart(m.0, id, HostLeft, now), now)), Done)
      ensures game == old(game)
    {
      hide MatchRules.Wf, Rules.SyncGame, Rules.Inform, Rules.TransferHost, Dismiss;
      var told := Inform(Command.Leave(id), now);
      if told != Ok { return Refused(MatchError(told.error)); }
      Depart(id, now);
      SyncGame(now);
      version := version + 1;
      return Done;
    }

    /** A member walks out; a host is followed. */
    method Depart(id: Id, now: Time)
      modifies `members, `host, `hostDeadline, `pendingFrom, `transfer
      ensures Abs() == Rules.Depart(old(Abs()), id, HostLeft, now)
    {
      hide Rules.TransferHost, Dismiss;
      var removed := RemoveMember(id);
      if id == host { TransferHost(HostLeft, now); }
    }

    method Disconnect(id: Id, now: Time) returns (reply: RoomReply)
      requires Valid()
      modifies this, game
      ensures (Abs(), reply) == Rules.Apply(old(Abs()), RoomCommand.Disconnect(id), now) && Valid() && game == old(game)
    {
      hide MatchRules.Wf, Rules.Tick, Rules.SyncGame, Rules.Inform, Marked, LineUp, Rules.LineGone;
      Tick(now);
      var i := Find(id);
      if i == |members| { return Refused(UnknownMember); }
      LineAt(members, i);
      if !members[i].connected { return Done; }
      SetLine(i, false);
      reply := TellDisconnect(id, now);
    }

    /** The rest of `Disconnect`: the match is told, and a host is on the clock. */
    method TellDisconnect(id: Id, now: Time) returns (reply: RoomReply)
      requires Valid()
      modifies this, game
      ensures var m := Rules.Inform(old(Abs()), Command.Disconnect(id), now);
        (Abs(), reply) == if m.1 != Ok then (m.0, FromMatch(m.1))
          else (Bumped(Rules.SyncGame(Rules.LineGone(m.0, id, now), now)), Done)
      ensures game == old(game)
    {
      hide MatchRules.Wf, Rules.SyncGame, Rules.Inform, Rules.TransferHost, Dismiss;
      var told := Inform(Command.Disconnect(id), now);
      if told != Ok { return Refused(MatchError(told.error)); }
      LineGone(id, now);
      SyncGame(now);
      version := version + 1;
      return Done;
    }

    method Reconnect(id: Id, now: Time) returns (reply: RoomReply)
      requires Valid()
      modifies this, game
      ensures (Abs(), reply) == Rules.Apply(old(Abs()), RoomCommand.Reconnect(id), now) && Valid() && game == old(game)
    {
      hide MatchRules.Wf, Rules.Tick, Rules.SyncGame, Rules.Inform, Marked, LineUp, Rules.LineBack;
      Tick(now);
      var i := Find(id);
      if i == |members| { return Refused(UnknownMember); }
      LineAt(members, i);
      if members[i].connected { return Done; }
      SetLine(i, true);
      reply := TellReconnect(id, now);
    }

    /** The rest of `Reconnect`: the match is told, and the room may get its host. */
    method TellReconnect(id: Id, now: Time) returns (reply: RoomReply)
      requires Valid()
      modifies this, game
      ensures var m := Rules.Inform(old(Abs()), Command.Reconnect(id), now);
        (Abs(), reply) == if m.1 != Ok then (m.0, FromMatch(m.1))
          else (Bumped(Rules.SyncGame(Rules.LineBack(m.0, id, now), now)), Done)
      ensures game == old(game)
    {
      hide MatchRules.Wf, Rules.SyncGame, Rules.Inform, Rules.TransferHost, Dismiss;
      var told := Inform(Command.Reconnect(id), now);
      if told != Ok { return Refused(MatchError(told.error)); }
      LineBack(id, now);
      SyncGame(now);
      version := version + 1;
      return Done;
    }

    /** The host's clock, when a line goes. */
    method LineGone(id: Id, now: Time)
      modifies `hostDeadline
      ensures Abs() == Rules.LineGone(old(Abs()), id, now)
    {
      if id == host { hostDeadline := Some(now + HOST_RECONNECT); }
    }

    /** The host's seat and clock, when a line is back. */
    method LineBack(id: Id, now: Time)
      modifies `host, `hostDeadline, `pendingFrom, `transfer
      ensures Abs() == Rules.LineBack(old(Abs()), id, now)
    {
      hide Rules.TransferHost;
      if pendingFrom != "" {
        if id != pendingFrom { TransferHost(HostTimeout, now); }
      } else if id == host {
        hostDeadline := None;
      }
    }
  }

  lemma {:induction false} DismissCounts(members: seq<Member>, id: Id)
    ensures |Dismiss(members, id)| <= |members|
    ensures |Dismiss(members, id)| < |members| <==> IsMember(members, id)
  {
    if members != [] {
      DismissCounts(members[1..], id);
      assert members == [members[0]] + members[1..];
      assert forall m :: m in members <==> m == members[0] || m in members[1..];
    }
  }

  lemma {:induction false} LineAt(members: seq<Member>, i: nat)
    requires i < |members| && forall k :: 0 <= k < i ==> members[k].id != members[i].id
    ensures LineUp(members, members[i].id) <==> members[i].connected
  {
    if i != 0 {
      LineAt(members[1..], i - 1);
    }
  }

  lemma {:induction false} MarkedAt(members: seq<Member>, i: nat, connected: bool)
    requires i < |members| && forall k :: 0 <= k < i ==> members[k].id != members[i].id
    ensures Marked(members, members[i].id, connected) == members[i := members[i].(connected := connected)]
  {
    if i != 0 {
      MarkedAt(members[1..], i - 1, connected);
    }
  }
}
