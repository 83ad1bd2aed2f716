/**
 * Calls that reach into the match, whole calls and runs of a room.
 * Main results: `TraceInv` (room and match agree after every call) with `LeaveInv`, `DisconnectInv` and
 * `ReconnectInv` (the match never objects).
 */
module RoomCalls {
  import opened Basics
  import opened MatchTypes
  import opened RoomRules
  import opened RoomInvariant
  import opened RoomSeats
  import opened RoomAgreement
  import RoomMatch
  import Rules = MatchRules
  import Clock = MatchClock
  import Commands = MatchCommands
  import Openings = MatchOpening
  import Progress = MatchProgress

  // ----- the match's side of a call -----

  /** A call on the match that moves nobody's line. */
  lemma CallBehind(r: Room, c: Command, now: Time)
    requires Inv(r) && r.game.Some? && !c.Disconnect? && !c.Reconnect?
    ensures var s := Commands.Apply(r.game.value, now, c).0;
      && MatchKnown(r.(game := Some(s)))
      && (r.status == InGame ==> Behind(r.members, s.players))
      && (r.status == Lobby ==> s.phase == Ended)
  {
    hide Openings.Reachable, Seated, Together, Behind, Progress.Advances, RoomMatch.SameLines, Commands.Apply,
      Rules.Wf;
    var s := r.game.value;
    Openings.ReachableGoesOn(s, Commands.Call(now, c));
    RoomMatch.ApplyLines(s, now, c);
    Progress.ApplyAdvances(s, now, c);
    RoomMatch.NobodyComesBack(s, Commands.Apply(s, now, c).0);
    if r.status == InGame {
      BehindAfter(r.members, s, Commands.Apply(s, now, c).0);
    }
  }

  lemma PlayInv(r: Room, c: Command, now: Time)
    requires Inv(r) && r.game.Some? && Playing(c)
    ensures Inv(ActWithGame(r, c, now).0)
  {
    hide Openings.Reachable, Seated, MatchKnown, Together, Behind, Commands.Apply, SyncGame, Rules.Wf;
    CallBehind(r, c, now);
    SeatedIgnoresStatus(r);
    SyncAgrees(r.(game := Some(Commands.Apply(r.game.value, now, c).0)), now);
  }

  lemma MembersPlay(r: Room, id: Id)
    requires Inv(r) && r.status == InGame && IsMember(r.members, id)
    ensures id in r.participants && id in r.game.value.players && r.game.value.players[id].Watching()
  {
    hide Openings.Reachable, Seated, Rules.Wf;
    assert id in Rules.Elements(r.participants);
  }

  // ----- Leave -----

  lemma LeaveInv(r: Room, id: Id, now: Time)
    requires Level(r, now)
    ensures Inv(ActLeave(r, id, now).0)
    ensures ActLeave(r, id, now).1 == if IsMember(r.members, id) then Done else Refused(UnknownMember)
  {
    hide Openings.Reachable, Seated, MatchKnown, Together, Behind, Commands.Apply, SyncGame, Rules.Wf, Clock.Settled,
      Depart, IsMember;
    if IsMember(r.members, id) {
      var t := Inform(r, Command.Leave(id), now).0;
      LeaveInforms(r, id, now);
      SeatedIgnoresStatus(r);
      MemberIsNamed(r, id);
      DepartSeats(t, id, HostLeft, now);
      DepartFrame(t, id, now);
      var u := Depart(t, id, HostLeft, now);
      if r.status == InGame {
        DepartBehind(r.members, t.game.value.players, id);
      }
      SameMatchKnown(t, u);
      SyncAgrees(u, now);
      BumpedInv(SyncGame(u, now));
    }
  }

  lemma MemberIsNamed(r: Room, id: Id)
    requires Seated(r) && IsMember(r.members, id)
    ensures id != ""
  {
    IdsAreIds(r.members);
  }

  lemma SameMatchKnown(r: Room, t: Room)
    requires RoomWf(r) && RoomWf(t) && MatchKnown(r) && t.game == r.game && t.participants == r.participants
    ensures MatchKnown(t)
  {
    hide Openings.Reachable, Rules.Wf;
  }

  lemma LeaveInforms(r: Room, id: Id, now: Time)
    requires Level(r, now) && IsMember(r.members, id)
    ensures var m := Inform(r, Command.Leave(id), now);
      && m.1 == Ok && MatchKnown(m.0)
      && (r.status == InGame ==>
            && Behind(r.members, m.0.game.value.players)
            && id in m.0.game.value.players && !m.0.game.value.players[id].Watching())
  {
    hide Openings.Reachable, Seated, Together, Behind, Commands.Apply, Rules.Wf, Clock.Settled;
    if r.status == InGame {
      MembersPlay(r, id);
      CallBehind(r, Command.Leave(id), now);
      RoomMatch.LeaverIsOut(r.game.value, now, id);
    }
  }

  lemma DepartFrame(r: Room, id: Id, at: Time)
    ensures var t := Depart(r, id, HostLeft, at);
      t.members == Dismiss(r.members, id) && t.game == r.game && t.status == r.status &&
        t.participants == r.participants
  {
    hide TransferHost;
  }

  lemma DepartBehind(members: seq<Member>, players: map<Id, Player>, id: Id)
    requires Behind(members, players) && id in players && !players[id].Watching()
    ensures Behind(Dismiss(members, id), players)
  {
    DismissMembers(members, id);
    forall i | i in players && players[i].Watching() ensures IsMember(Dismiss(members, id), i) {
      var m :| m in members && m.id == i;
      assert m in Dismiss(members, id);
    }
  }

  // ----- Disconnect and Reconnect -----

  predicate LineCall(c: Command) { c.Disconnect? || c.Reconnect? }

  /** The room marks a member and tells the match, which agrees. */
  lemma LineInforms(r: Room, c: Command, now: Time)
    requires Level(r, now) && LineCall(c) && IsMember(r.members, c.id)
    ensures var m := Inform(Mark(r, c.id, c.Reconnect?), c, now);
      && m.1 == Ok && MatchKnown(m.0)
      && (r.status == InGame ==> Behind(m.0.members, m.0.game.value.players))
  {
    hide Openings.Reachable, Seated, Together, Behind, Commands.Apply, Rules.Wf, Clock.Settled, Progress.Advances;
    if r.status == InGame {
      var s := r.game.value;
      MembersPlay(r, c.id);
      Openings.ReachableGoesOn(s, Commands.Call(now, c));
      RoomMatch.MoveLines(s, now, c);
      Progress.ApplyAdvances(s, now, c);
      SeatedIsDistinct(r);
      LineBehind(r.members, s, Commands.Apply(s, now, c).0, c);
    }
  }

  lemma LineBehind(members: seq<Member>, s: State, r: State, c: Command)
    requires Rules.Distinct(Ids(members)) && Together(members, s.players) && Progress.Advances(s, r) && LineCall(c)
    requires c.id in s.players && c.id in r.players && r.players[c.id].connected == c.Reconnect?
    requires forall id <- s.players :: id != c.id ==>
      id in r.players && r.players[id].connected == s.players[id].connected
    ensures Behind(Marked(members, c.id, c.Reconnect?), r.players)
  {
    hide Progress.Advances;
    RoomMatch.NobodyComesBack(s, r);
    MarkedLine(members, c.id, c.Reconnect?);
    var next := Marked(members, c.id, c.Reconnect?);
    forall m <- next ensures m.id in r.players && m.connected == r.players[m.id].connected {
      assert IsMember(next, m.id);
      assert IsMember(members, m.id);
    }
  }

  lemma DisconnectInv(r: Room, id: Id, now: Time)
    requires Level(r, now)
    ensures Inv(ActDisconnect(r, id, now).0)
    ensures ActDisconnect(r, id, now).1 == if IsMember(r.members, id) then Done else Refused(UnknownMember)
  {
    hide Openings.Reachable, Seated, MatchKnown, Together, Behind, Commands.Apply, SyncGame, Rules.Wf, Clock.Settled,
      IsMember, LineUp, Marked;
    if IsMember(r.members, id) && LineUp(r.members, id) {
      var c := Command.Disconnect(id);
      var t := Inform(Mark(r, id, false), c, now).0;
      LineInforms(r, c, now);
      OfflineSeats(r, id, now);
      SeatedIgnoresStatus(LineGone(Mark(r, id, false), id, now));
      var u := LineGone(t, id, now);
      assert u == LineGone(Mark(r, id, false), id, now).(game := t.game);
      SameMatchKnown(t, u);
      SyncAgrees(u, now);
      BumpedInv(SyncGame(u, now));
    }
  }

  lemma ReconnectInv(r: Room, id: Id, now: Time)
    requires Level(r, now)
    ensures Inv(ActReconnect(r, id, now).0)
    ensures ActReconnect(r, id, now).1 == if IsMember(r.members, id) then Done else Refused(UnknownMember)
  {
    hide Openings.Reachable, Seated, MatchKnown, Together, Behind, Commands.Apply, SyncGame, Rules.Wf, Clock.Settled,
      IsMember, LineUp, Marked;
    if IsMember(r.members, id) && !LineUp(r.members, id) {
      var c := Command.Reconnect(id);
      var t := Inform(Mark(r, id, true), c, now).0;
      LineInforms(r, c, now);
      OnlineSeats(r, id, now);
      var u := LineBack(t, id, now);
      LineBackFrame(Mark(r, id, true), t, id, now);
      SeatedIgnoresStatus(LineBack(Mark(r, id, true), id, now));
      SameMatchKnown(t, u);
      SyncAgrees(u, now);
      BumpedInv(SyncGame(u, now));
    }
  }

  /** Whether the match has been told yet does not matter to the host's seat. */
  lemma LineBackFrame(r: Room, t: Room, id: Id, now: Time)
    requires t == r.(game := t.game)
    ensures LineBack(t, id, now) == LineBack(r, id, now).(game := t.game)
    ensures LineBack(t, id, now).members == t.members && LineBack(t, id, now).status == t.status
    ensures LineBack(t, id, now).participants == t.participants
  {
  }

  // ----- whole calls -----

  lemma ActInv(r: Room, c: RoomCommand, now: Time)
    requires Level(r, now) && Proper(c) && Precheck(r, c) == Done
    ensures Inv(Act(r, c, now).0)
  {
    hide Inv, Seated, Agrees, Rules.Wf, Clock.Settled, ActJoin, ActUpdateSettings, ActKick, ActStart, ActWithGame,
      ActLeave, ActDisconnect, ActReconnect;
    match c
    case Join(id) => JoinInv(r, id, now);
    case UpdateSettings(byId, settings) => SettingsInv(r, byId, settings);
    case Kick(byId, id) => KickInv(r, byId, id);
    case Start(byId, category, secret, d) => if HostInLobby(r, byId) == Done { StartInv(r, category, secret, d, now); }
    case StartByServer(category, secret, d) => if r.status != InGame { StartInv(r, category, secret, d, now); }
    case Play(command) => PlayInv(r, command, now);
    case Leave(id) => LeaveInv(r, id, now);
    case Disconnect(id) => DisconnectInv(r, id, now);
    case Reconnect(id) => ReconnectInv(r, id, now);
  }

  lemma ApplyInv(r: Room, c: RoomCommand, now: Time)
    requires Inv(r) && Proper(c)
    ensures Inv(Apply(r, c, now).0)
  {
    hide Seated, Agrees, Rules.Wf, Clock.Settled, Act, Tick;
    TickLevels(r, now);
    TickKeepsGame(r, now);
    if Precheck(r, c) == Done {
      ActInv(Tick(r, now), c, now);
    }
  }

  /** Whatever is called on a room, room and match keep agreeing. */
  lemma {:induction false} TraceInv(trace: seq<Room>, events: seq<RoomEvent>)
    requires Trace(trace, events) && Inv(trace[0])
    ensures Inv(trace[|events|])
    decreases |events|
  {
    hide Seated, Agrees, Rules.Wf, Apply, Tick, Trace;
    TraceLength(trace, events);
    if events != [] {
      TraceTail(trace, events);
      match events[0] {
        case Timer(at) => TickInv(trace[0], at);
        case Call(at, c) => ApplyInv(trace[0], c, at);
      }
      TraceInv(trace[1..], events[1..]);
    }
  }
}
