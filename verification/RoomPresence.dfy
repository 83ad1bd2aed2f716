/**
 * What the calls that reach into the match do to a room: commands of the match, exits, and lines that drop
 * and return.  Nobody leaves the room by them but the one whose exit it is.
 */
module RoomPresence {
  import opened Basics
  import opened MatchTypes
  import opened RoomRules
  import opened RoomInvariant
  import opened RoomSeats
  import opened RoomAgreement
  import opened RoomCalls
  import opened RoomReach
  import opened RoomSuccession
  import opened RoomAuthority
  import Rules = MatchRules
  import Clock = MatchClock
  import Commands = MatchCommands
  import Openings = MatchOpening
  import Effects = MatchEffects

  /** What the match makes of a command given to it through the room. */
  ghost function Played(t: Room, c: Command, now: Time): (State, Reply)
    requires RoomWf(t) && t.game.Some?
  {
    Commands.Apply(t.game.value, now, c)
  }

  /** The room stays as it is but for its match, which takes it to the lobby when it ends. */
  ghost predicate OnlyTheMatch(t: Room, u: Room, s: State) {
    u == t.(game := Some(s), status := if t.status == InGame && s.phase != Ended then InGame else Lobby,
            version := u.version)
  }

  /** A command takes nobody out of the match but by their own exit. */
  lemma OthersPlayOn(t: Room, c: Command, now: Time, id: Id)
    requires Level(t, now) && t.status == InGame && IsMember(t.members, id) && !(c == Command.Leave(id))
    ensures var s := Played(t, c, now).0; id in s.players && s.players[id].Watching()
  {
    hide Openings.Reachable, Seated, Rules.Wf, Clock.Settled, Clock.Tick, Commands.Act, Effects.Touched;
    var s := t.game.value;
    MembersPlay(t, id);
    Clock.TickBeforeDeadline(s, now);
    Effects.CommandsTouchPlayers(s, now, c);
    OthersUntouched(s, now, c, id);
  }

  lemma OthersUntouched(s: State, now: Time, c: Command, id: Id)
    requires id in s.players && !(c == Command.Leave(id))
    ensures Effects.Touched(s, now, c).Keys == s.players.Keys
    ensures Effects.Touched(s, now, c)[id].status == s.players[id].status
  {
  }

  lemma MatchFollows(t: Room, c: Command, now: Time)
    requires Level(t, now) && t.game.Some? && !c.Leave?
    ensures var s := Played(t, c, now).0;
      OnlyTheMatch(t, SyncGame(t.(game := Some(s)), now), s)
  {
    hide Openings.Reachable, Seated, Rules.Wf, Clock.Settled, Commands.Apply, Together;
    var s := Played(t, c, now).0;
    var u := t.(game := Some(s));
    if t.status == InGame {
      FirstIsPlayer(t);
      StillPlayers(t, c, now);
      forall m <- t.members ensures m.id in s.players && s.players[m.id].Watching() {
        assert IsMember(t.members, m.id);
        OthersPlayOn(t, c, now, m.id);
      }
      NothingToSync(u, s.setup.order, s.players, now);
    }
  }

  lemma StillPlayers(t: Room, c: Command, now: Time)
    requires RoomWf(t) && t.game.Some?
    ensures Played(t, c, now).0.players.Keys == t.game.value.players.Keys
  {
    hide Commands.Act, Clock.Tick;
    assert Rules.Wf(Played(t, c, now).0);
    var a, b := t.game.value, Played(t, c, now).0;
    assert a.players.Keys == Rules.Elements(a.setup.order) && b.players.Keys == Rules.Elements(b.setup.order);
  }

  /** The commands of a match are answered and carried out by the match, and the room follows it. */
  lemma CommandsGoToTheMatch(r: Room, from: Time, c: Command, now: Time)
    requires Reached(r, from) && Playing(c)
    ensures Inv(r)
    ensures r.game.None? ==> Apply(r, Play(c), now) == (r, Refused(NoGame))
    ensures var t, u := Tick(r, now), Apply(r, Play(c), now);
      t.game.Some? && r.game.Some? ==>
        && u.1 == FromMatch(Played(t, c, now).1)
        && OnlyTheMatch(t, u.0, Played(t, c, now).0)
  {
    hide Reached, Joined, Openings.Reachable, Seated, Agrees, Tick, Rules.Wf, Clock.Settled, Commands.Apply, SyncGame,
      OnlyTheMatch;
    TickedInv(r, from, now);
    TickKeepsGame(r, now);
    var t := Tick(r, now);
    if t.game.Some? { MatchFollows(t, c, now); }
  }

  // ----- lines -----

  lemma {:induction false} LineUpIsOnline(members: seq<Member>, id: Id)
    requires Rules.Distinct(Ids(members))
    ensures LineUp(members, id) <==> Online(members, id)
  {
    if members != [] {
      assert members == [members[0]] + members[1..];
      DistinctTail(members);
      IdsAreIds(members[1..]);
      LineUpIsOnline(members[1..], id);
      if members[0].id == id && Online(members, id) {
        var m :| m in members && m.id == id && m.connected;
        OneOfEach(members, m, members[0]);
      }
    }
  }

  /** One line is up or down, and everybody is where they were. */
  ghost predicate LineMoved(t: Room, u: Room, id: Id, up: bool) {
    && |u.members| == |t.members|
    && forall k :: 0 <= k < |t.members| ==>
         u.members[k] == if t.members[k].id == id then t.members[k].(connected := up) else t.members[k]
  }

  /** The room's match once it has been told, if it is being played. */
  ghost function Told(t: Room, c: Command, now: Time): Option<State>
    requires RoomWf(t)
  {
    if t.status == InGame then Some(Played(t, c, now).0) else t.game
  }

  /** `u` is `t` with the match told, members and host apart, and in the lobby once the match is over. */
  ghost predicate TellsTheMatch(t: Room, u: Room, c: Command, now: Time)
    requires RoomWf(t)
  {
    && u == t.(members := u.members, host := u.host, hostDeadline := u.hostDeadline, pendingFrom := u.pendingFrom,
         transfer := u.transfer, game := Told(t, c, now), status := u.status, version := u.version)
    && (u.status == InGame <==> t.status == InGame && u.game.Some? && u.game.value.phase != Ended)
  }

  /** A line dropped: a host is on the clock from now, and nothing else about the host has changed. */
  ghost predicate LineDropped(t: Room, u: Room, id: Id, now: Time)
    requires RoomWf(t)
  {
    && LineMoved(t, u, id, false) && TellsTheMatch(t, u, Command.Disconnect(id), now)
    && if id == t.host then SameHost(t.(hostDeadline := Some(now + 30 * SECOND)), u) else SameHost(t, u)
  }

  /** A line back: a host is off the clock, and a room that waits for one is handed to anybody but the last. */
  ghost predicate LineRestored(t: Room, u: Room, id: Id, now: Time)
    requires RoomWf(t)
  {
    && LineMoved(t, u, id, true) && TellsTheMatch(t, u, Command.Reconnect(id), now)
    && if t.pendingFrom != "" && id != t.pendingFrom then
         && u.host == id && u.hostDeadline == None && u.pendingFrom == ""
         && u.transfer == Some(Transfer(t.pendingFrom, id, HostTimeout))
       else
         SameHost(if t.pendingFrom == "" && id == t.host then t.(hostDeadline := None) else t, u)
  }

  lemma QuietAfterLine(t: Room, c: Command, u: Room, now: Time)
    requires Level(t, now) && IsMember(t.members, c.id) && LineCall(c)
    requires u == Inform(Mark(t, c.id, c.Reconnect?), c, now).0.(host := u.host, hostDeadline := u.hostDeadline,
      pendingFrom := u.pendingFrom, transfer := u.transfer)
    ensures RoomWf(u) && var v := SyncGame(u, now);
      && v == u.(status := v.status, version := v.version)
      && u.game == Told(t, c, now) && u.members == Marked(t.members, c.id, c.Reconnect?)
      && (v.status == InGame <==> t.status == InGame && v.game.Some? && v.game.value.phase != Ended)
  {
    hide Openings.Reachable, Seated, Rules.Wf, Clock.Settled, Commands.Apply, Together, Marked;
    SeatedIsDistinct(t);
    MarkedLine(t.members, c.id, c.Reconnect?);
    if t.status == InGame {
      MembersPlay(t, c.id);
      FirstIsPlayer(t);
      StillPlayers(t, c, now);
      var s := Played(t, c, now).0;
      forall m <- u.members ensures m.id in s.players && s.players[m.id].Watching() {
        assert IsMember(u.members, m.id);
        OthersPlayOn(t, c, now, m.id);
      }
      QuietSync(u, now);
    }
  }

  lemma DropMoves(t: Room, id: Id, now: Time)
    requires Level(t, now) && IsMember(t.members, id) && LineUp(t.members, id)
    ensures LineDropped(t, ActDisconnect(t, id, now).0, id, now)
  {
    hide Openings.Reachable, Seated, Agrees, Rules.Wf, Clock.Settled, SyncGame, Inform, Marked, IsMember, LineUp, Told;
    var c := Command.Disconnect(id);
    var m := Inform(Mark(t, id, false), c, now).0;
    LineInforms(t, c, now);
    SeatedIsDistinct(t);
    MarkedMembers(t.members, id, false);
    QuietAfterLine(t, c, LineGone(m, id, now), now);
  }

  lemma ReturnMoves(t: Room, id: Id, now: Time)
    requires Level(t, now) && IsMember(t.members, id) && !LineUp(t.members, id)
    ensures LineRestored(t, ActReconnect(t, id, now).0, id, now)
  {
    hide Openings.Reachable, Agrees, Rules.Wf, Clock.Settled, SyncGame, Inform, Marked, IsMember, LineUp, Told,
      TransferHost, Crowd;
    var c := Command.Reconnect(id);
    var m := Inform(Mark(t, id, true), c, now).0;
    LineInforms(t, c, now);
    SeatedIsDistinct(t);
    MarkedMembers(t.members, id, true);
    if t.pendingFrom != "" && id != t.pendingFrom { ReturnerHosts(t, m, id, now); }
    QuietAfterLine(t, c, LineBack(m, id, now), now);
  }

  /** In a room that waits for a host whoever comes back first, but for the last host, is the only one there. */
  lemma ReturnerHosts(t: Room, m: Room, id: Id, now: Time)
    requires Seated(t) && t.pendingFrom != "" && id != t.pendingFrom && IsMember(t.members, id)
    requires m == t.(members := Marked(t.members, id, true), game := m.game)
    ensures var u := TransferHost(m, HostTimeout, now);
      && u.host == id && u.hostDeadline == None && u.pendingFrom == ""
      && u.transfer == Some(Transfer(t.pendingFrom, id, HostTimeout))
  {
    hide TransferHost, Marked, Crowd, Hosted, HandedOver;
    SeatedIsDistinct(t);
    MarkedLine(t.members, id, true);
    var o :| o in m.members && o.id == id;
    NamedHost(t);
    ComerHosts(m, o, now);
  }

  lemma NamedHost(t: Room)
    requires Seated(t) && t.pendingFrom != ""
    ensures t.host == ""
  {
  }

  lemma ComerHosts(r: Room, m: Member, now: Time)
    requires r.host == "" && m in r.members && m.connected && m.id != r.pendingFrom
    requires forall o <- r.members :: o.connected ==> o.id == m.id || o.id == r.pendingFrom
    ensures var u := TransferHost(r, HostTimeout, now);
      && u.host == m.id && u.hostDeadline == None && u.pendingFrom == ""
      && u.transfer == Some(Transfer(r.pendingFrom, m.id, HostTimeout))
  {
    var k :| 0 <= k < |r.members| && r.members[k] == m;
    assert Heir(r.members, r.pendingFrom) <= k;
  }

  /** A member's line drops and returns, in a lobby or a match, with all that follows for match and host. */
  lemma LinesMove(r: Room, from: Time, id: Id, now: Time)
    requires Reached(r, from)
    ensures Inv(r)
    ensures var t := Tick(r, now);
      var d, b := Apply(r, RoomCommand.Disconnect(id), now), Apply(r, RoomCommand.Reconnect(id), now);
      if !IsMember(t.members, id) then d == b == (t, Refused(UnknownMember))
      else if Online(t.members, id) then d.1 == Done && LineDropped(t, d.0, id, now) && b == (t, Done)
      else d == (t, Done) && b.1 == Done && LineRestored(t, b.0, id, now)
  {
    hide Reached, Joined, Openings.Reachable, Seated, Agrees, Tick, Rules.Wf, Clock.Settled, LineDropped, LineRestored,
      LineUp, IsMember, Online, SyncGame, Inform;
    TickedInv(r, from, now);
    TickKeepsGame(r, now);
    var t := Tick(r, now);
    SeatedIsDistinct(t);
    LineUpIsOnline(t.members, id);
    DisconnectInv(t, id, now);
    ReconnectInv(t, id, now);
    if IsMember(t.members, id) {
      if LineUp(t.members, id) { DropMoves(t, id, now); } else { ReturnMoves(t, id, now); }
    }
  }

  // ----- exits -----

  /** Who follows a host who leaves: nobody if nobody is left, and on the clock if the new host is away. */
  ghost predicate HostFollowed(t: Room, u: Room, now: Time) {
    if u.members == [] then u.host == "" && u.hostDeadline == None && u.transfer == t.transfer
    else
      && u.transfer == Some(Transfer(t.host, u.host, HostLeft))
      && u.hostDeadline == if Online(u.members, u.host) then None else Some(now + 30 * SECOND)
  }

  ghost predicate SameHost(t: Room, u: Room) {
    u.host == t.host && u.hostDeadline == t.hostDeadline && u.pendingFrom == t.pendingFrom && u.transfer == t.transfer
  }

  /** An exit: the one member is gone, a match is told, and only the exit of a host changes anything about the host. */
  ghost predicate Exited(t: Room, u: Room, id: Id, now: Time)
    requires RoomWf(t)
  {
    && (forall m :: m in u.members <==> m in t.members && m.id != id)
    && TellsTheMatch(t, u, Command.Leave(id), now)
    && if id == t.host then u.pendingFrom == "" && HostFollowed(t, u, now) else SameHost(t, u)
  }

  lemma QuietAfterExit(t: Room, id: Id, u: Room, now: Time)
    requires Level(t, now) && IsMember(t.members, id)
    requires u == Inform(t, Command.Leave(id), now).0.(members := Dismiss(t.members, id), host := u.host,
      hostDeadline := u.hostDeadline, pendingFrom := u.pendingFrom, transfer := u.transfer)
    ensures RoomWf(u) && var v := SyncGame(u, now);
      && v == u.(status := v.status, version := v.version) && u.game == Told(t, Command.Leave(id), now)
      && (v.status == InGame <==> t.status == InGame && v.game.Some? && v.game.value.phase != Ended)
  {
    hide Openings.Reachable, Seated, Rules.Wf, Clock.Settled, Commands.Apply, Together, Dismiss;
    DismissMembers(t.members, id);
    if t.status == InGame {
      MembersPlay(t, id);
      FirstIsPlayer(t);
      StillPlayers(t, Command.Leave(id), now);
      var s := Played(t, Command.Leave(id), now).0;
      forall m <- u.members ensures m.id in s.players && s.players[m.id].Watching() {
        assert IsMember(t.members, m.id);
        OthersPlayOn(t, Command.Leave(id), now, m.id);
      }
      QuietSync(u, now);
    }
  }

  lemma HostIsFollowed(t: Room, m: Room, now: Time)
    requires Seated(t) && t.host != "" && m == t.(members := Dismiss(t.members, t.host), game := m.game)
    ensures var u := TransferHost(m, HostLeft, now);
      u.pendingFrom == "" && HostFollowed(t, u, now)
  {
    SeatedIsDistinct(t);
    DismissMembers(t.members, t.host);
    var i := Heir(m.members, t.host);
    if m.members != [] {
      var o := m.members[if i < |m.members| then i else 0];
      OnlineIsTheMember(m.members, o);
    }
  }

  lemma ExitMoves(t: Room, id: Id, now: Time)
    requires Level(t, now) && IsMember(t.members, id)
    ensures Exited(t, ActLeave(t, id, now).0, id, now)
  {
    hide Openings.Reachable, Seated, Agrees, Rules.Wf, Clock.Settled, SyncGame, Inform, Dismiss, IsMember, Told,
      TransferHost, HostFollowed, Online;
    var m := Inform(t, Command.Leave(id), now).0;
    LeaveInforms(t, id, now);
    DismissMembers(t.members, id);
    var u := Depart(m, id, HostLeft, now);
    if id == t.host {
      MemberIsNamed(t, id);
      HostIsFollowed(t, m.(members := Dismiss(m.members, id)), now);
    }
    QuietAfterExit(t, id, u, now);
    FollowedFrame(t, u, ActLeave(t, id, now).0, now);
  }

  lemma FollowedFrame(t: Room, u: Room, v: Room, now: Time)
    requires v == u.(status := v.status, version := v.version)
    ensures HostFollowed(t, u, now) <==> HostFollowed(t, v, now)
  {
  }

  /** A member's exit, from a lobby or a match. */
  lemma ExitsLeave(r: Room, from: Time, id: Id, now: Time)
    requires Reached(r, from)
    ensures Inv(r)
    ensures var t, u := Tick(r, now), Apply(r, RoomCommand.Leave(id), now);
      if !IsMember(t.members, id) then u == (t, Refused(UnknownMember)) else u.1 == Done && Exited(t, u.0, id, now)
  {
    hide Reached, Joined, Openings.Reachable, Seated, Agrees, Tick, Rules.Wf, Clock.Settled, Exited, IsMember,
      SyncGame, Inform, Depart;
    TickedInv(r, from, now);
    TickKeepsGame(r, now);
    var t := Tick(r, now);
    LeaveInv(t, id, now);
    if IsMember(t.members, id) { ExitMoves(t, id, now); }
  }

  // ----- opening -----

  /** A room opens for a code of six digits, a named host and valid settings, and holds nobody but that host. */
  lemma RoomsOpen(code: string, host: Id, settings: Settings, policy: Policy, now: Time)
    ensures var r := New(code, host, settings, policy, now);
      var digits := |code| == 6 && forall c <- code :: '0' <= c <= '9';
      && (!digits ==> r == (None, Refused(InvalidCode)))
      && (digits && (host == "" || !Settable(settings)) ==> r == (None, Refused(InvalidSettings)))
      && (digits && host != "" && Settable(settings) ==>
            && r.1 == Done && r.0.Some?
            && var u := r.0.value;
            && u.code == code && u.settings == settings && u.policy == policy && u.host == host
            && u.members == [Member(host, true, now)] && u.status == Lobby && !u.locked && u.game == None
            && u.hostDeadline == None && u.pendingFrom == "" && u.transfer == None)
  {
  }
}
