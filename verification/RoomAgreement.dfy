/** Room and match stay in step: every room call keeps the invariant. */
module RoomAgreement {
  import opened Basics
  import opened MatchTypes
  import opened RoomRules
  import opened RoomInvariant
  import opened RoomSeats
  import RoomMatch
  import Rules = MatchRules
  import Clock = MatchClock
  import Commands = MatchCommands
  import Openings = MatchOpening
  import Progress = MatchProgress
  import Absence = MatchAbsence

  // ----- after the match has moved -----

  lemma BehindAfter(members: seq<Member>, s: State, r: State)
    requires Progress.Advances(s, r) && RoomMatch.SameLines(s, r) && Together(members, s.players)
    ensures Behind(members, r.players)
  {
    hide Progress.Advances;
    RoomMatch.NobodyComesBack(s, r);
  }

  lemma {:induction false} SyncPlayersMembers(r: Room, order: seq<Id>, players: map<Id, Player>, now: Time)
    ensures var t := SyncPlayers(r, order, players, now);
      forall m :: m in t.members <==> m in r.members && !(m.id in order && m.id in players && !players[m.id].Watching())
    decreases |order|
  {
    hide TransferHost;
    if order != [] {
      assert order == [order[0]] + order[1..];
      if order[0] in players {
        DismissMembers(r.members, order[0]);
        SyncPlayersMembers(SyncPlayer(r, order[0], players[order[0]].status, now), order[1..], players, now);
      } else {
        SyncPlayersMembers(r, order[1..], players, now);
      }
    }
  }

  lemma FirstIsPlayer(r: Room)
    requires RoomWf(r) && MatchKnown(r) && r.status == InGame
    ensures r.participants[0] in r.game.value.players
    ensures "" !in r.game.value.setup.order
    ensures forall id :: id in r.game.value.players <==> id in r.game.value.setup.order
  {
    hide Openings.Reachable;
    assert r.participants[0] in Rules.Elements(r.participants);
  }

  /** `syncGame` brings the room level with the match. */
  lemma SyncAgrees(r: Room, now: Time)
    requires RoomWf(r) && Seated(r) && MatchKnown(r)
    requires r.status == InGame ==> Behind(r.members, r.game.value.players)
    requires r.status == Lobby && r.game.Some? ==> r.game.value.phase == Ended
    ensures Inv(SyncGame(r, now))
  {
    hide Openings.Reachable, Seated, SyncPlayers, Rules.Wf;
    if r.status == InGame {
      FirstIsPlayer(r);
      var s := r.game.value;
      var t := SyncPlayers(r, s.setup.order, s.players, now);
      SyncPlayersSeats(r, s.setup.order, s.players, now);
      SyncPlayersMembers(r, s.setup.order, s.players, now);
      SeatedIgnoresStatus(t);
      forall id ensures IsMember(t.members, id) <==> id in s.players && s.players[id].Watching() {
        if IsMember(t.members, id) {
          var m :| m in t.members && m.id == id;
        }
        if id in s.players && s.players[id].Watching() {
          var m :| m in r.members && m.id == id;
          assert m in t.members;
        }
      }
      assert Together(t.members, s.players);
    }
  }

  lemma SeatedIgnoresStatus(r: Room)
    requires Seated(r)
    ensures Seated(Bumped(r.(status := Lobby))) && Seated(Bumped(r))
    ensures forall game :: Seated(r.(game := game))
  {
  }

  lemma BumpedInv(r: Room)
    requires Inv(r)
    ensures Inv(Bumped(r))
  {
    hide Openings.Reachable, Together, Seated;
    SeatedIgnoresStatus(r);
  }

  // ----- timers -----

  lemma TickGameInv(r: Room, now: Time)
    requires Inv(r)
    ensures Inv(TickGame(r, now))
  {
    hide Openings.Reachable, Seated, Together, Behind, SyncGame, Progress.Advances, RoomMatch.SameLines, Clock.Tick,
      Rules.Wf;
    if r.status == InGame {
      var s := r.game.value;
      Openings.ReachableGoesOn(s, Commands.Timer(now));
      RoomMatch.TickLines(s, now);
      Progress.TickAdvances(s, now);
      BehindAfter(r.members, s, Clock.Tick(s, now));
      SeatedIgnoresStatus(r);
      SameKeys(s, Clock.Tick(s, now));
      SyncAgrees(r.(game := Some(Clock.Tick(s, now))), now);
    }
  }

  lemma SameKeys(s: State, r: State)
    requires Progress.Advances(s, r)
    ensures r.players.Keys == s.players.Keys
  {
  }

  lemma TickInv(r: Room, now: Time)
    requires Inv(r)
    ensures Inv(Tick(r, now))
  {
    hide Openings.Reachable, Seated, Together, TickGame, TransferHost, Rules.Wf;
    TickGameInv(r, now);
    TickHostSeats(TickGame(r, now), now);
  }

  /** The room between a call's `Tick` and its command: no timer of the match has passed. */
  ghost predicate Level(r: Room, now: Time) { Inv(r) && (r.status == InGame ==> Clock.Settled(r.game.value, now)) }

  lemma TickLevels(r: Room, now: Time)
    requires Inv(r)
    ensures Level(Tick(r, now), now)
  {
    hide Openings.Reachable, Seated, Together, TransferHost, Rules.Wf, Clock.Tick, Clock.Settled, SyncPlayers;
    TickInv(r, now);
    if r.status == InGame {
      Clock.TickSettles(r.game.value, now);
    }
  }

  // ----- lobby calls -----

  lemma JoinInv(r: Room, id: Id, now: Time)
    requires Inv(r) && id != ""
    ensures Inv(ActJoin(r, id, now).0)
  {
    hide Openings.Reachable, Seated, Together, TransferHost, Rules.Wf;
    JoinSeats(r, id, now);
  }

  lemma SettingsInv(r: Room, byId: Id, settings: Settings)
    requires Inv(r)
    ensures Inv(ActUpdateSettings(r, byId, settings).0)
  {
    hide Openings.Reachable, Seated, Together, Rules.Wf;
    SettingsSeats(r, byId, settings);
  }

  lemma KickInv(r: Room, byId: Id, id: Id)
    requires Inv(r)
    ensures Inv(ActKick(r, byId, id).0)
  {
    hide Openings.Reachable, Seated, Together, Rules.Wf;
    KickSeats(r, byId, id);
  }

  // ----- starting a match -----

  ghost function Offline(members: seq<Member>): seq<Id> {
    if members == [] then []
    else (if members[0].connected then [] else [members[0].id]) + Offline(members[1..])
  }

  /** Marking the offline members never fails: the match is new and they are all in it. */
  lemma {:induction false} MarkMembersIsMarkAll(s: State, members: seq<Member>)
    requires Rules.Wf(s) && s.version == 1 && forall m <- members :: m.id in s.players
    ensures MarkMembers(s, members) == (Openings.MarkAll(s, Offline(members)), Ok)
    decreases |members|
  {
    hide Rules.Wf;
    if members != [] {
      if members[0].connected {
        assert Offline(members) == Offline(members[1..]);
        MarkMembersIsMarkAll(s, members[1..]);
      } else {
        var t := Commands.MarkOffline(s, members[0].id).0;
        MarkMembersIsMarkAll(t, members[1..]);
        assert Offline(members)[1..] == Offline(members[1..]);
      }
    }
  }

  lemma {:induction false} OfflineIsNotOnline(members: seq<Member>)
    requires Rules.Distinct(Ids(members))
    ensures forall m <- members :: m.id in Offline(members) <==> !m.connected
    ensures forall id <- Offline(members) :: IsMember(members, id)
  {
    if members != [] {
      DistinctTail(members);
      IdsAreIds(members[1..]);
      OfflineIsNotOnline(members[1..]);
      assert members == [members[0]] + members[1..];
    }
  }

  ghost predicate ContentGiven(r: Room, category: string, secret: string) {
    category != "" && secret != "" && r.policy.Complete()
  }

  /** A seated room of four or more lacks nothing but content to begin. */
  lemma SeatedIsPlayable(r: Room, category: string, secret: string)
    requires Seated(r) && MIN_PLAYERS_TO_START <= |r.members|
    ensures Commands.Playable(MatchConfig(r.settings), r.policy, Ids(r.members), category, secret)
      <==> ContentGiven(r, category, secret)
  {
    hide Hosted, Hostless, HandedOver;
  }

  ghost function Beginning(r: Room, category: string, secret: string, d: Draw, now: Time): Openings.Start {
    var ids := Ids(r.members);
    Openings.Start(MatchConfig(r.settings), r.policy, ids, category, secret, d.shuffle(ids), d.seat(ids), now,
      Offline(r.members))
  }

  lemma BeginningIsLegal(r: Room, category: string, secret: string, d: Draw, now: Time)
    requires Seated(r) && MIN_PLAYERS_TO_START <= |r.members| && Fair(d) && ContentGiven(r, category, secret)
    ensures Openings.Legal(Beginning(r, category, secret, d, now))
  {
    hide Seated;
    SeatedIsPlayable(r, category, secret);
  }

  /** The new match: everyone in the room plays, and is there exactly as they are in the room. */
  lemma BeginningTogether(r: Room, category: string, secret: string, d: Draw, now: Time)
    requires Seated(r) && MIN_PLAYERS_TO_START <= |r.members| && Fair(d) && ContentGiven(r, category, secret)
    ensures var b := Beginning(r, category, secret, d, now);
      && Openings.Legal(b)
      && var s := Openings.Begun(b);
         s.phase == RoleReveal && Together(r.members, s.players) && s.players.Keys == Rules.Elements(Ids(r.members))
  {
    hide Seated, Openings.Legal, Openings.MarkAll, Commands.Playable, Rules.Wf;
    BeginningIsLegal(r, category, secret, d, now);
    var b := Beginning(r, category, secret, d, now);
    var first := FreshMatch(b);
    Openings.MarkAllPhase(first, b.offline);
    SeatedIsDistinct(r);
    OfflineIsNotOnline(r.members);
    IdsAreIds(r.members);
    forall id <- b.ids ensures BeginsAs(Openings.Begun(b).players, id, b.offline) {
      Absence.NewPlayer(b, id);
      Absence.MarkAllPresence(first, b.offline, id);
    }
  }

  ghost predicate BeginsAs(players: map<Id, Player>, id: Id, offline: seq<Id>) {
    id in players && players[id].status == Active && (players[id].connected <==> id !in offline)
  }

  lemma SeatedIsDistinct(r: Room)
    requires Seated(r)
    ensures Rules.Distinct(Ids(r.members))
  {
  }

  ghost function FreshMatch(b: Openings.Start): (s: State)
    requires Openings.Legal(b)
    ensures Rules.Wf(s) && s.version == 1 && s.phase == RoleReveal && s.players.Keys == Rules.Elements(b.ids)
    ensures Openings.Begun(b) == Openings.MarkAll(s, b.offline)
  {
    Openings.New(b.cfg, b.policy, b.ids, b.category, b.secret, b.order, b.seat, b.at).value
  }

  /** A start needs four members and content, nothing else. */
  lemma StartInv(r: Room, category: string, secret: string, d: Draw, now: Time)
    requires Inv(r) && r.status == Lobby && Fair(d)
    ensures Inv(ActStart(r, category, secret, d, now).0)
    ensures ActStart(r, category, secret, d, now).1 ==
      if |r.members| < MIN_PLAYERS_TO_START then Refused(NotEnoughMembers)
      else if !ContentGiven(r, category, secret) then Refused(MatchError(InvalidSetup))
      else Done
  {
    hide Seated, Openings.Legal, Openings.Reachable, Openings.MarkAll, Openings.Begun, Commands.Playable, Rules.Wf,
      Together, ContentGiven;
    if MIN_PLAYERS_TO_START <= |r.members| {
      SeatedIsPlayable(r, category, secret);
      if ContentGiven(r, category, secret) {
        BeginningTogether(r, category, secret, d, now);
        var b := Beginning(r, category, secret, d, now);
        Openings.ReachableBegins(b);
        SeatedIsDistinct(r);
        IdsAreIds(r.members);
        MarkMembersIsMarkAll(FreshMatch(b), r.members);
        SeatedIgnoresStatus(r);
        SeatedIgnoresStart(r, ActStart(r, category, secret, d, now).0);
      }
    }
  }

  lemma SeatedIgnoresStart(r: Room, t: Room)
    requires Seated(r) &&
      t == r.(game := t.game, participants := t.participants, status := t.status, version := t.version)
    ensures Seated(t)
  {
  }
}
