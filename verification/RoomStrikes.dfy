/**
 * The host's clock never runs out before the host's strike: in every reached room strikes come at most a
 * reconnect time after the last call, and the host's no later than the hand-over.
 */
module RoomStrikes {
  import opened Basics
  import opened MatchTypes
  import opened RoomRules
  import opened RoomCalls
  import opened RoomReach
  import Rules = MatchRules
  import Clock = MatchClock
  import Commands = MatchCommands
  import Openings = MatchOpening
  import Absence = MatchAbsence
  import Progress = MatchProgress

  // ----- strikes to come, in a match -----

  /** No strike comes after `to`. */
  ghost predicate Within(players: map<Id, Player>, to: Time) {
    forall id <- players :: Clock.Pending(players, id) ==> players[id].strikeAt.value <= to
  }

  /** A strike to come in `q` was to come in `p`, at the same moment. */
  ghost predicate OldStrike(p: map<Id, Player>, q: map<Id, Player>, id: Id) {
    Clock.Pending(q, id) ==> Clock.Pending(p, id) && q[id].strikeAt == p[id].strikeAt
  }

  ghost predicate NewStrike(players: map<Id, Player>, id: Id, at: Time) {
    Clock.Pending(players, id) && players[id].strikeAt == Some(at)
  }

  lemma StepStrikes(s: State, id: Id)
    requires Rules.Live(s)
    ensures OldStrike(s.players, Clock.Step(s).players, id)
  {
    hide Clock.Step, Rules.ValidSetup, Rules.Elements, Progress.Forward;
    Progress.StepAdvances(s);
    if id in s.players { Absence.StepPresence(s, id); }
  }

  lemma {:induction false} TickStrikes(s: State, now: Time, id: Id)
    requires Rules.Wf(s)
    ensures OldStrike(s.players, Clock.Tick(s, now).players, id)
    decreases Clock.PendingStrikes(s.players), Clock.Overdue(s, now)
  {
    hide Clock.Step, Rules.ValidSetup, Rules.Elements;
    if Clock.Due(s, now) {
      Clock.StepProgress(s, now);
      StepStrikes(s, id);
      TickStrikes(Clock.Step(s), now, id);
    }
  }

  /** Only a player's own drop brings them a strike, a reconnect time later. */
  lemma ActStrikes(s: State, now: Time, c: Command, id: Id)
    requires Rules.Wf(s)
    ensures var q := Commands.Act(s, now, c).0.players;
      || OldStrike(s.players, q, id)
      || (NewStrike(q, id, now + s.setup.cfg.reconnect) && c == Command.Disconnect(id) &&
            Commands.Act(s, now, c).1 == Ok)
  {
    hide Commands.ActDisconnect, Commands.ActReconnect, Commands.ActVote, Commands.ActLeave, Commands.ActSubmitHint,
      Commands.ActReact, Commands.ActSubmitGuess, Commands.ActConfirmRole, Commands.ActContinueAfterElimination,
      Rules.ValidSetup, Rules.Elements, Progress.Forward;
    Progress.ActAdvances(s, now, c);
    if Clock.Pending(Commands.Act(s, now, c).0.players, id) {
      if !Absence.Moves(c, id) {
        Absence.ActPresence(s, now, c, id);
      } else if s.phase == Ended {
        EndedMoves(s, now, id);
      } else {
        Absence.MovePresence(s, now, c, id);
        DropSucceeds(s, now, id);
      }
    }
  }

  lemma DropSucceeds(s: State, now: Time, id: Id)
    requires Rules.Live(s) && id in s.players && s.players[id].status == Active
    ensures Commands.ActDisconnect(s, id, now).1 == Ok
  {
    hide Rules.ValidSetup, Rules.Elements, Rules.Actives, Rules.MaybeAdvance, Rules.AwaitReconnect;
  }

  lemma EndedMoves(s: State, now: Time, id: Id)
    requires Rules.Wf(s) && s.phase == Ended
    ensures OldStrike(s.players, Commands.ActDisconnect(s, id, now).0.players, id)
    ensures OldStrike(s.players, Commands.ActReconnect(s, id, now).0.players, id)
  {
    hide Rules.ValidSetup, Rules.Elements, Rules.Actives, Rules.MaybeAdvance, Rules.AwaitReconnect;
  }

  lemma ApplyStrikes(s: State, now: Time, c: Command, id: Id)
    requires Rules.Wf(s)
    ensures var q := Commands.Apply(s, now, c).0.players;
      || OldStrike(s.players, q, id)
      || (NewStrike(q, id, now + s.setup.cfg.reconnect) && c == Command.Disconnect(id) &&
            Commands.Apply(s, now, c).1 == Ok)
  {
    hide Commands.Act, Rules.ValidSetup, Rules.Elements, Clock.Tick;
    TickStrikes(s, now, id);
    ActStrikes(Clock.Tick(s, now), now, c, id);
  }

  // ----- the host's clock -----

  /** In game: strikes within a reconnect time, and the host's before the hand-over. */
  ghost predicate Clocked(r: Room, now: Time)
    requires RoomWf(r)
  {
    r.status == InGame ==>
      && r.game.value.setup.cfg.reconnect == HOST_RECONNECT
      && Within(r.game.value.players, now + HOST_RECONNECT)
      && HostFirst(r.game.value.players, r.host, r.hostDeadline)
  }

  /** A strike of the host comes no later than the hand-over. */
  ghost predicate HostFirst(players: map<Id, Player>, host: Id, hostDeadline: Option<Time>) {
    Clock.Pending(players, host) && hostDeadline.Some? ==> players[host].strikeAt.value <= hostDeadline.value
  }

  lemma ClockedLater(r: Room, now: Time, to: Time)
    requires RoomWf(r) && Clocked(r, now) && now <= to
    ensures Clocked(r, to)
  {
  }

  /** A hand-over leaves the clock as it is, stops it, or starts it now. */
  ghost predicate Reclocked(r: Room, t: Room, now: Time) {
    || (t.host == r.host && t.hostDeadline == r.hostDeadline)
    || t.hostDeadline == None || t.hostDeadline == Some(now + HOST_RECONNECT)
  }

  lemma {:induction false} SyncReclocks(r: Room, order: seq<Id>, players: map<Id, Player>, now: Time)
    ensures Reclocked(r, SyncPlayers(r, order, players, now), now)
    decreases |order|
  {
    hide IsMember;
    if order != [] {
      if order[0] in players {
        SyncReclocks(SyncPlayer(r, order[0], players[order[0]].status, now), order[1..], players, now);
      } else {
        SyncReclocks(r, order[1..], players, now);
      }
    }
  }

  /** Following the match keeps the clocks, whatever the room's host and clock were. */
  lemma SyncClocked(r: Room, now: Time)
    requires RoomWf(r) && Clocked(r, now)
    ensures Clocked(SyncGame(r, now), now)
  {
    hide Rules.Wf, SyncPlayers;
    if r.status == InGame {
      var s := r.game.value;
      SyncReclocks(r, s.setup.order, s.players, now);
    }
  }

  lemma OldStrikesWithin(p: map<Id, Player>, q: map<Id, Player>, from: Time, to: Time)
    requires Within(p, from) && from <= to && forall id :: OldStrike(p, q, id)
    ensures Within(q, to)
    ensures forall host, clock :: HostFirst(p, host, clock) ==> HostFirst(q, host, clock)
  {
    assert forall id <- q :: OldStrike(p, q, id);
    forall host, clock | HostFirst(p, host, clock) ensures HostFirst(q, host, clock) {
      assert OldStrike(p, q, host);
    }
  }

  lemma TickClocked(r: Room, from: Time, now: Time)
    requires RoomWf(r) && Clocked(r, from) && from <= now
    ensures Clocked(Tick(r, now), now)
  {
    hide Rules.Wf, Clock.Tick, SyncGame;
    if r.status == InGame {
      var s := r.game.value;
      var q := Clock.Tick(s, now).players;
      forall id ensures OldStrike(s.players, q, id) {
        TickStrikes(s, now, id);
      }
      OldStrikesWithin(s.players, q, from + HOST_RECONNECT, now + HOST_RECONNECT);
      SyncClocked(r.(game := Some(Clock.Tick(s, now))), now);
    }
    HostTickClocked(TickGame(r, now), now);
  }

  lemma HostTickClocked(r: Room, now: Time)
    requires RoomWf(r) && Clocked(r, now)
    ensures RoomWf(TickHost(r, now)) && Clocked(TickHost(r, now), now)
  {
    hide Rules.Wf;
  }

  // ----- every call -----

  /** Following the match after a command that drops nobody, or nobody the room still counts on. */
  lemma AfterCommand(r: Room, c: Command, now: Time)
    requires RoomWf(r) && r.status == InGame && Clocked(r, now)
    ensures var s := Commands.Apply(r.game.value, now, c).0;
      && Within(s.players, now + HOST_RECONNECT)
      && (!(c == Command.Disconnect(r.host) && Commands.Apply(r.game.value, now, c).1 == Ok) ==>
            HostFirst(s.players, r.host, r.hostDeadline))
  {
    hide Commands.Apply, Rules.Wf;
    var p, q := r.game.value.players, Commands.Apply(r.game.value, now, c).0.players;
    forall id <- q | Clock.Pending(q, id) ensures q[id].strikeAt.value <= now + HOST_RECONNECT {
      ApplyStrikes(r.game.value, now, c, id);
    }
    ApplyStrikes(r.game.value, now, c, r.host);
  }

  lemma PlayClocked(r: Room, c: Command, now: Time)
    requires RoomWf(r) && r.game.Some? && Clocked(r, now) && Playing(c)
    ensures Clocked(ActWithGame(r, c, now).0, now)
  {
    hide Commands.Apply, Rules.Wf, SyncGame;
    var t := r.(game := Some(Commands.Apply(r.game.value, now, c).0));
    if r.status == InGame { AfterCommand(r, c, now); }
    SyncClocked(t, now);
  }

  lemma InformClocked(r: Room, c: Command, now: Time)
    requires RoomWf(r) && Clocked(r, now) && c != Command.Disconnect(r.host)
    ensures RoomWf(Inform(r, c, now).0) && Clocked(Inform(r, c, now).0, now)
  {
    hide Commands.Apply, Rules.Wf;
    if r.status == InGame { AfterCommand(r, c, now); }
  }

  lemma LeaveClocked(r: Room, id: Id, now: Time)
    requires RoomWf(r) && Clocked(r, now)
    ensures Clocked(ActLeave(r, id, now).0, now)
  {
    hide Inform, Rules.Wf, SyncGame, IsMember, Depart;
    InformClocked(r, Command.Leave(id), now);
    var m := Inform(r, Command.Leave(id), now).0;
    DepartFrame(m, id, now);
    DepartClocked(m, id, now);
    SyncClocked(Depart(m, id, HostLeft, now), now);
  }

  lemma DepartClocked(r: Room, id: Id, now: Time)
    requires RoomWf(r) && Clocked(r, now)
    ensures var t := Depart(r, id, HostLeft, now); RoomWf(t) && Clocked(t, now)
  {
    hide Rules.Wf;
  }

  lemma DisconnectClocked(r: Room, id: Id, now: Time)
    requires RoomWf(r) && Clocked(r, now)
    ensures Clocked(ActDisconnect(r, id, now).0, now)
  {
    hide Rules.Wf, SyncGame, IsMember, LineUp, Commands.Apply, Within, Marked;
    var m := Inform(Mark(r, id, false), Command.Disconnect(id), now).0;
    if r.status == InGame { AfterCommand(r, Command.Disconnect(id), now); }
    ClockRuns(r, m, id, now);
    SyncClocked(LineGone(m, id, now), now);
  }

  /** A host who drops strikes no later than their clock runs out. */
  lemma ClockRuns(r: Room, m: Room, id: Id, now: Time)
    requires RoomWf(r) && Clocked(r, now) && RoomWf(m) && m == r.(members := m.members, game := m.game)
    requires r.status == InGame ==> m.game.value.setup == r.game.value.setup
    requires r.status == InGame ==> Within(m.game.value.players, now + HOST_RECONNECT)
    requires r.status == InGame && id != r.host ==> HostFirst(m.game.value.players, r.host, r.hostDeadline)
    ensures RoomWf(LineGone(m, id, now)) && Clocked(LineGone(m, id, now), now)
  {
    hide Rules.Wf;
  }

  lemma ReconnectClocked(r: Room, id: Id, now: Time)
    requires RoomWf(r) && Clocked(r, now)
    ensures Clocked(ActReconnect(r, id, now).0, now)
  {
    hide Rules.Wf, SyncGame, IsMember, LineUp, Commands.Apply, Inform, LineBack, Marked;
    var u := Mark(r, id, true);
    assert Clocked(u, now);
    InformClocked(u, Command.Reconnect(id), now);
    var m := Inform(u, Command.Reconnect(id), now).0;
    LineBackClocked(m, id, now);
    SyncClocked(LineBack(m, id, now), now);
  }

  lemma LineBackClocked(r: Room, id: Id, now: Time)
    requires RoomWf(r) && Clocked(r, now)
    ensures RoomWf(LineBack(r, id, now)) && Clocked(LineBack(r, id, now), now)
  {
    hide Rules.Wf, Within;
  }

  ghost predicate NoStrikes(players: map<Id, Player>) { forall id <- players :: players[id].strikeAt.None? }

  lemma {:induction false} MarkMembersStrikes(s: State, members: seq<Member>)
    requires Rules.Wf(s) && NoStrikes(s.players)
    ensures NoStrikes(MarkMembers(s, members).0.players) && MarkMembers(s, members).0.setup == s.setup
    decreases |members|
  {
    hide Rules.Wf;
    if members != [] {
      if members[0].connected {
        MarkMembersStrikes(s, members[1..]);
      } else if Commands.MarkOffline(s, members[0].id).1 == Ok {
        MarkMembersStrikes(Commands.MarkOffline(s, members[0].id).0, members[1..]);
      }
    }
  }

  /** A match begins with the room's reconnect time and without strikes. */
  lemma StartClocked(r: Room, category: string, secret: string, d: Draw, now: Time)
    requires RoomWf(r) && Fair(d) && Clocked(r, now)
    ensures Clocked(ActStart(r, category, secret, d, now).0, now)
  {
    hide Rules.Wf, Commands.Playable;
    var ids := Ids(r.members);
    if MIN_PLAYERS_TO_START <= |r.members| {
      var g := Openings.New(MatchConfig(r.settings), r.policy, ids, category, secret, d.shuffle(ids), d.seat(ids), now);
      if g.Some? { MarkMembersStrikes(g.value, r.members); }
    }
  }

  lemma ActClocked(r: Room, c: RoomCommand, now: Time)
    requires RoomWf(r) && Proper(c) && Precheck(r, c) == Done && Clocked(r, now)
    ensures Clocked(Act(r, c, now).0, now)
  {
    hide Rules.Wf, ActStart, ActWithGame, ActLeave, ActDisconnect, ActReconnect, IsMember, Clocked;
    match c
    case Join(id) => LobbyClocked(r, c, now);
    case Kick(byId, id) => LobbyClocked(r, c, now);
    case UpdateSettings(byId, settings) => LobbyClocked(r, c, now);
    case Play(command) => PlayClocked(r, command, now);
    case Leave(id) => LeaveClocked(r, id, now);
    case Disconnect(id) => DisconnectClocked(r, id, now);
    case Reconnect(id) => ReconnectClocked(r, id, now);
    case Start(byId, category, secret, d) => StartClocked(r, category, secret, d, now);
    case StartByServer(category, secret, d) => StartClocked(r, category, secret, d, now);
  }

  lemma LobbyClocked(r: Room, c: RoomCommand, now: Time)
    requires RoomWf(r) && (c.Join? || c.Kick? || c.UpdateSettings?) && Precheck(r, c) == Done && Clocked(r, now)
    ensures Clocked(Act(r, c, now).0, now)
  {
    hide Rules.Wf, IsMember, TransferHost, Dismiss, Within, HostFirst;
  }

  lemma NextClocked(r: Room, e: RoomEvent, from: Time)
    requires RoomWf(r) && (e.Call? ==> Proper(e.command)) && Clocked(r, from) && from <= e.at
    ensures Clocked(Next(r, e), e.at)
  {
    hide Act, Tick, Rules.Wf, Clocked;
    TickClocked(r, from, e.at);
    ClockedLater(r, from, e.at);
    if e.Call? {
      TickKeepsGame(r, e.at);
      if Precheck(r, e.command) == Done { ActClocked(Tick(r, e.at), e.command, e.at); }
    }
  }

  lemma {:induction false} TraceClocked(trace: seq<Room>, events: seq<RoomEvent>, from: Time, to: Time)
    requires Trace(trace, events) && RoomWf(trace[0]) && Clocked(trace[0], from) && InOrder(from, events, to)
    ensures RoomWf(trace[|events|]) && Clocked(trace[|events|], to)
    decreases |events|
  {
    hide Clocked, Next, Rules.Wf, Trace;
    TraceLength(trace, events);
    if events == [] {
      ClockedLater(trace[0], from, to);
    } else {
      TraceTail(trace, events);
      NextClocked(trace[0], events[0], from);
      TraceClocked(trace[1..], events[1..], events[0].at, to);
    }
  }

  /**
   * Whatever was called by `now`: no strike comes later than a reconnect time from now, and the host's
   * comes no later than the hand-over for being away.
   */
  lemma StrikeComesBeforeHandOver(r: Room, now: Time)
    requires Reached(r, now)
    ensures RoomWf(r) && Clocked(r, now)
  {
    hide Clocked, Trace, Opened, Rules.Wf;
    ReachedInv(r, now);
    var o, trace, events :| LeadsTo(o, trace, events, r, now);
    TraceLength(trace, events);
    OpenedClocked(o);
    TraceClocked(trace, events, o.at, now);
  }

  lemma OpenedClocked(o: Opening)
    requires Opened(o).Some?
    ensures Clocked(Opened(o).value, o.at)
  {
  }
}
