/**
 * What each call on a room does, and who may make it: the host alone sets up, kicks and starts.  `t` is
 * always the room after the tick that leads the call.
 */
module RoomAuthority {
  import opened Basics
  import opened MatchTypes
  import opened RoomRules
  import opened RoomInvariant
  import opened RoomAgreement
  import opened RoomReach
  import Rules = MatchRules
  import Clock = MatchClock
  import Commands = MatchCommands
  import Openings = MatchOpening

  lemma TickedInv(r: Room, from: Time, now: Time)
    requires Reached(r, from)
    ensures Inv(r) && Level(Tick(r, now), now) && Inv(Tick(r, now))
  {
    hide Reached, Joined, Openings.Reachable, Seated, Agrees, Clock.Settled, Tick;
    ReachedInv(r, from);
    TickLevels(r, now);
  }

  /** The calls that are the host's. */
  predicate HostCall(c: RoomCommand) { c.Start? || c.Kick? || c.UpdateSettings? }

  /** Nobody but the host starts a match, kicks or sets up, and the host only in a lobby. */
  lemma OnlyTheHostMay(r: Room, from: Time, c: RoomCommand, now: Time)
    requires Reached(r, from) && HostCall(c) && Proper(c)
    ensures Inv(r)
    ensures var t, u := Tick(r, now), Apply(r, c, now);
      && (c.byId != t.host || t.host == "" ==>
            u.0 == t && u.1 == Refused(if IsMember(t.members, c.byId) then NotHost else UnknownMember))
      && (c.byId == t.host && t.host != "" && t.status == InGame ==> u == (t, Refused(GameInProgress)))
  {
    hide Reached, Joined, Openings.Reachable, Agrees, Tick, ActStart, IsMember, Rules.Wf, Clock.Settled, Dismiss;
    TickedInv(r, from, now);
    TickKeepsGame(r, now);
    NamesOnly(Tick(r, now));
  }

  /** The host is a member, and nobody is called "". */
  lemma NamesOnly(r: Room)
    requires Seated(r)
    ensures !IsMember(r.members, "") && (r.host != "" ==> IsMember(r.members, r.host))
  {
    IdsAreIds(r.members);
  }

  /** Exactly the one member is gone, and nothing else has changed. */
  ghost predicate OnlyGone(t: Room, u: Room, id: Id) {
    && u == t.(members := u.members, version := t.version + 1)
    && forall m :: m in u.members <==> m in t.members && m.id != id
  }

  /** In a lobby the host may kick every other member. */
  lemma HostKicks(r: Room, from: Time, id: Id, now: Time)
    requires Reached(r, from)
    ensures Inv(r)
    ensures var t := Tick(r, now);
      t.host != "" && t.status == Lobby ==>
        var u := Apply(r, Kick(t.host, id), now);
        && (id == t.host ==> u == (t, Refused(CannotKickSelf)))
        && (id != t.host && !IsMember(t.members, id) ==> u == (t, Refused(UnknownMember)))
        && (id != t.host && IsMember(t.members, id) ==> u.1 == Done && OnlyGone(t, u.0, id))
  {
    hide Reached, Joined, Openings.Reachable, Agrees, Tick, IsMember, Rules.Wf, Clock.Settled, Dismiss;
    TickedInv(r, from, now);
    TickKeepsGame(r, now);
    var t := Tick(r, now);
    NamesOnly(t);
    DismissMembers(t.members, id);
  }

  /** Until somebody else has been in, the host may choose any settings that are valid. */
  lemma HostSetsUp(r: Room, from: Time, s: Settings, now: Time)
    requires Reached(r, from)
    ensures Inv(r)
    ensures var t := Tick(r, now);
      t.host != "" && t.status == Lobby ==>
        var u := Apply(r, UpdateSettings(t.host, s), now);
        && (t.locked ==> u == (t, Refused(SettingsLocked)))
        && (!t.locked && !Settable(s) ==> u == (t, Refused(InvalidSettings)))
        && (!t.locked && Settable(s) ==> u == (t.(settings := s, version := t.version + 1), Done))
  {
    hide Reached, Joined, Openings.Reachable, Agrees, Tick, IsMember, Rules.Wf, Clock.Settled;
    TickedInv(r, from, now);
    TickKeepsGame(r, now);
    NamesOnly(Tick(r, now));
  }

  /** Four to eight players, half a minute, a minute or one and a half for a hint, and some category. */
  predicate Settable(s: Settings) {
    && 4 <= s.maxPlayers <= 8 && (s.hintSeconds == 30 || s.hintSeconds == 60 || s.hintSeconds == 90)
    && s.categoryIds != [] && forall c <- s.categoryIds :: c != ""
  }

  // ----- joining -----

  /** A newcomer runs a room that waits for a host, unless that is the one it waits to be rid of. */
  ghost predicate HostAfterJoin(t: Room, u: Room, id: Id) {
    var runs := t.host == "" && id != t.pendingFrom;
    && u.host == (if runs then id else t.host)
    && u.hostDeadline == (if t.host == "" then None else t.hostDeadline)
    && u.pendingFrom == (if runs then "" else t.pendingFrom)
    && u.transfer == if !runs then t.transfer
                     else if t.pendingFrom == "" then None
                     else Some(Transfer(t.pendingFrom, id, HostTimeout))
  }

  /** A lobby with space lets everybody in; members are answered without a change; nobody joins a match. */
  lemma LobbiesLetIn(r: Room, from: Time, id: Id, now: Time)
    requires Reached(r, from)
    ensures Inv(r)
    ensures id == "" ==> Apply(r, Join(id), now) == (r, Refused(InvalidPlayerId))
    ensures var t, u := Tick(r, now), Apply(r, Join(id), now);
      id != "" ==>
        if IsMember(t.members, id) then u == (t, Done)
        else if t.status == InGame then u == (t, Refused(GameInProgress))
        else if |t.members| >= t.settings.maxPlayers then u == (t, Refused(RoomFull))
        else
          && u.1 == Done && u.0.members == t.members + [Member(id, true, now)] && u.0.locked
          && u.0.settings == t.settings && u.0.status == Lobby && u.0.version == t.version + 1 && u.0.game == t.game
          && HostAfterJoin(t, u.0, id)
  {
    hide Reached, Joined, Openings.Reachable, Seated, Agrees, Tick, IsMember, Rules.Wf, Clock.Settled, HostAfterJoin;
    TickedInv(r, from, now);
    TickKeepsGame(r, now);
    var t := Tick(r, now);
    if id != "" && !IsMember(t.members, id) && t.status == Lobby { NewcomerHosts(t, id, now); }
  }

  lemma NewcomerHosts(t: Room, id: Id, now: Time)
    requires Inv(t) && id != "" && !IsMember(t.members, id) && t.status == Lobby
    ensures |t.members| < t.settings.maxPlayers ==> HostAfterJoin(t, ActJoin(t, id, now).0, id)
  {
    hide Openings.Reachable, Agrees, IsMember, Rules.Wf, TransferHost, Crowd;
    if t.pendingFrom != "" { JoinHandsOver(t, Member(id, true, now), now); }
  }

  lemma JoinHandsOver(t: Room, m: Member, now: Time)
    requires Hosted(t.members, t.host, t.hostDeadline, t.pendingFrom)
    requires Hostless(t.members, t.host, t.hostDeadline, t.pendingFrom)
    requires t.pendingFrom != "" && m.connected
    ensures t.host == ""
    ensures var r := t.(members := t.members + [m], locked := true);
      var u := TransferHost(r, HostTimeout, now);
      if m.id == t.pendingFrom then u == r
      else u == r.(host := m.id, pendingFrom := "", transfer := Some(Transfer(t.pendingFrom, m.id, HostTimeout)))
  {
    var r := t.(members := t.members + [m], locked := true);
    assert r.members[|t.members|] == m;
    assert forall k :: 0 <= k < |t.members| && t.members[k].connected ==> t.members[k].id == t.pendingFrom;
  }

  // ----- starting -----

  /** What a room's match is played about, in what order, and with how much time for what. */
  ghost predicate Dealt(t: Room, s: State, category: string, secret: string, d: Draw)
    requires Fair(d) && t.members != []
  {
    var ids := Ids(t.members);
    var c := s.setup.cfg;
    && s.setup.policy == t.policy && s.setup.category == category && s.setup.secret == secret
    && s.setup.order == d.shuffle(ids) && s.setup.impostor == d.shuffle(ids)[d.seat(ids)]
    && c.hint == t.settings.hintSeconds * SECOND && c.vote == 20 * SECOND && c.runoffVote == 15 * SECOND
    && c.guess == 60 * SECOND && c.preVoting == 5 * SECOND && c.eliminationReveal == 5 * SECOND
    && c.hintBreak == 3 * SECOND && c.reconnect == 30 * SECOND && c.roleReveal == 20 * SECOND
  }

  /** Exactly the members play, and are there as they are in the room. */
  ghost predicate MembersPlaying(members: seq<Member>, players: map<Id, Player>) {
    && (forall id :: id in players <==> IsMember(members, id))
    && forall m <- members :: m.id in players && players[m.id] == Player(Active, m.connected, 0, false, None)
  }

  /** The match a room starts: its members, as they are there, dealt by the draw, on the room's hint time. */
  ghost predicate MatchBegins(t: Room, s: State, category: string, secret: string, d: Draw, now: Time)
    requires Fair(d) && t.members != []
  {
    && Dealt(t, s, category, secret, d) && MembersPlaying(t.members, s.players)
    && s.phase == RoleReveal && s.deadline == Some(now + 20 * SECOND) && s.round == 1 && s.hints == []
  }

  /** What a start does. */
  ghost predicate Starts(t: Room, u: (Room, RoomReply), category: string, secret: string, d: Draw, now: Time)
    requires Fair(d)
  {
    if |t.members| < 4 then u == (t, Refused(NotEnoughMembers))
    else if category == "" || secret == "" || !t.policy.Complete() then u == (t, Refused(MatchError(InvalidSetup)))
    else
      && u.1 == Done && u.0.game.Some? && MatchBegins(t, u.0.game.value, category, secret, d, now)
      && u.0 == t.(game := u.0.game, status := InGame, participants := Ids(t.members), version := t.version + 1)
  }

  lemma {:induction false} MarkAllMarks(s: State, offline: seq<Id>)
    requires Rules.Wf(s) && s.version == 1 && forall id <- offline :: id in s.players
    ensures var r := Openings.MarkAll(s, offline);
      && r == s.(players := r.players) && r.players.Keys == s.players.Keys
      && forall id <- s.players ::
           r.players[id] == s.players[id].(connected := s.players[id].connected && id !in offline)
    decreases |offline|
  {
    hide Rules.Wf;
    if offline != [] {
      MarkAllMarks(Commands.MarkOffline(s, offline[0]).0, offline[1..]);
      assert offline == [offline[0]] + offline[1..];
    }
  }

  lemma StartStarts(t: Room, category: string, secret: string, d: Draw, now: Time)
    requires Inv(t) && t.status == Lobby && Fair(d)
    ensures Starts(t, ActStart(t, category, secret, d, now), category, secret, d, now)
  {
    hide Seated, Openings.Legal, Openings.Reachable, Openings.MarkAll, Openings.New, Commands.Playable, Rules.Wf,
      Together, MatchBegins;
    if 4 <= |t.members| {
      SeatedIsPlayable(t, category, secret);
      StartInv(t, category, secret, d, now);
      if ContentGiven(t, category, secret) { MatchStarts(t, category, secret, d, now); }
    }
  }

  lemma MatchStarts(t: Room, category: string, secret: string, d: Draw, now: Time)
    requires Seated(t) && 4 <= |t.members| && Fair(d) && ContentGiven(t, category, secret)
    ensures var b := Beginning(t, category, secret, d, now);
      && Openings.Legal(b) && MatchBegins(t, Openings.Begun(b), category, secret, d, now)
      && MarkMembers(FreshMatch(b), t.members) == (Openings.Begun(b), Ok)
  {
    hide Seated, Openings.Legal, Openings.MarkAll, Commands.Playable, Rules.Wf, Dealt, MembersPlaying, Openings.Begun,
      Fair, FreshMatch, ContentGiven, MarkMembers, Ids, Offline, Rules.Distinct;
    var b := Beginning(t, category, secret, d, now);
    BeginningIsLegal(t, category, secret, d, now);
    FreshIsDealt(t, category, secret, d, now);
    FreshIsMarked(t, FreshMatch(b));
    assert Openings.MarkAll(FreshMatch(b), Offline(t.members)) == Openings.Begun(b);
    DealtStays(t, FreshMatch(b), Openings.Begun(b), category, secret, d);
  }

  lemma FreshIsMarked(t: Room, s: State)
    requires Seated(t) && Rules.Wf(s) && s.version == 1 && forall id :: id in s.players <==> id in Ids(t.members)
    requires forall id <- s.players :: s.players[id] == Player(Active, true, 0, false, None)
    ensures var r := Openings.MarkAll(s, Offline(t.members));
      r == s.(players := r.players) && MembersPlaying(t.members, r.players) && MarkMembers(s, t.members) == (r, Ok)
  {
    hide Seated, Openings.MarkAll, Rules.Wf, MarkMembers, MembersPlaying;
    SeatedIsDistinct(t);
    IdsAreIds(t.members);
    OfflineIsNotOnline(t.members);
    MarkAllMarks(s, Offline(t.members));
    MarkMembersIsMarkAll(s, t.members);
    MembersAreMarked(t.members, s.players, Openings.MarkAll(s, Offline(t.members)).players);
  }

  lemma FreshIsDealt(t: Room, category: string, secret: string, d: Draw, now: Time)
    requires Seated(t) && 4 <= |t.members| && Fair(d) && Openings.Legal(Beginning(t, category, secret, d, now))
    ensures var s := FreshMatch(Beginning(t, category, secret, d, now));
      && Dealt(t, s, category, secret, d)
      && s.phase == RoleReveal && s.deadline == Some(now + 20 * SECOND) && s.round == 1 && s.hints == []
      && (forall id :: id in s.players <==> id in Ids(t.members))
      && forall id <- s.players :: s.players[id] == Player(Active, true, 0, false, None)
  {
    hide Seated, Openings.Legal, Openings.MarkAll, Openings.New, Rules.Wf;
    Openings.OpensAsDealt(Beginning(t, category, secret, d, now));
  }

  lemma MembersAreMarked(members: seq<Member>, p: map<Id, Player>, q: map<Id, Player>)
    requires Rules.Distinct(Ids(members)) && q.Keys == p.Keys && forall id :: id in p <==> id in Ids(members)
    requires forall id <- p :: p[id] == Player(Active, true, 0, false, None)
    requires forall id <- p :: q[id] == p[id].(connected := id !in Offline(members))
    ensures MembersPlaying(members, q)
  {
    IdsAreIds(members);
    OfflineIsNotOnline(members);
  }

  lemma DealtStays(t: Room, s: State, r: State, category: string, secret: string, d: Draw)
    requires Fair(d) && t.members != [] && Dealt(t, s, category, secret, d) && r == s.(players := r.players)
    ensures Dealt(t, r, category, secret, d)
  {
  }

  /** The host of a lobby, or the server, starts: with four members and content, and with nothing else. */
  lemma StartsStart(r: Room, from: Time, category: string, secret: string, d: Draw, now: Time)
    requires Reached(r, from) && Fair(d)
    ensures Inv(r)
    ensures var t := Tick(r, now);
      && (t.status == Lobby && t.host != "" ==>
            Starts(t, Apply(r, Start(t.host, category, secret, d), now), category, secret, d, now))
      && (t.status == Lobby ==>
            Starts(t, Apply(r, StartByServer(category, secret, d), now), category, secret, d, now))
      && (t.status == InGame ==> Apply(r, StartByServer(category, secret, d), now) == (t, Refused(GameInProgress)))
  {
    hide Reached, Joined, Openings.Reachable, Agrees, Tick, IsMember, Rules.Wf, Clock.Settled, ActStart, Starts, Fair,
      Crowd;
    TickedInv(r, from, now);
    TickKeepsGame(r, now);
    var t := Tick(r, now);
    NamesOnly(t);
    if t.status == Lobby { StartStarts(t, category, secret, d, now); }
  }
}
