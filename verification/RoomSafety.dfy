/** The main results about rooms: each holds of every room that can be reached, whatever was called on it. */
module RoomSafety {
  import opened Basics
  import opened MatchTypes
  import opened RoomRules
  import opened RoomInvariant
  import opened RoomAgreement
  import opened RoomCalls
  import opened RoomReach
  import opened RoomSuccession
  import Rules = MatchRules
  import Clock = MatchClock
  import Openings = MatchOpening
  import Liveness = MatchLiveness

  /**
   * The room is in a game exactly while its match is live; its members are then exactly the players
   * still in the match, each as connected in one as in the other.  The match is a reachable one, so
   * every result about matches holds of it.
   */
  lemma RoomAndMatchAgree(r: Room, now: Time)
    requires Reached(r, now)
    ensures r.status == InGame <==> r.game.Some? && r.game.value.phase != Ended
    ensures r.game.Some? ==>
      Openings.Reachable(r.game.value) && Rules.Elements(r.participants) == r.game.value.players.Keys
    ensures r.status == InGame ==> forall id ::
      IsMember(r.members, id) <==>
        id in r.participants && id in r.game.value.players && r.game.value.players[id].Watching()
    ensures r.status == InGame ==> forall m <- r.members ::
      m.id in r.game.value.players && m.connected == r.game.value.players[m.id].connected
  {
    hide Reached, Seated, Openings.Reachable, Rules.Wf, Joined;
    ReachedInv(r, now);
    if r.game.Some? {
      assert forall id :: id in r.participants <==> id in Rules.Elements(r.participants);
    }
  }

  /** Leaving, dropping and returning succeed for exactly the members: the match never objects. */
  lemma PresenceCallsNeverFail(r: Room, from: Time, c: RoomCommand, now: Time)
    requires Reached(r, from) && (c.Leave? || c.Disconnect? || c.Reconnect?)
    ensures Inv(r)
    ensures Apply(r, c, now).1 == if IsMember(Tick(r, now).members, c.id) then Done else Refused(UnknownMember)
  {
    hide Reached, Inv, Joined, Tick, Level, ActLeave, ActDisconnect, ActReconnect, Rules.Wf, IsMember;
    ReachedInv(r, from);
    InvWf(r);
    TickLevels(r, now);
    TickKeepsGame(r, now);
    match c
    case Leave(id) => LeaveInv(Tick(r, now), id, now);
    case Disconnect(id) => DisconnectInv(Tick(r, now), id, now);
    case Reconnect(id) => ReconnectInv(Tick(r, now), id, now);
  }

  lemma InvWf(r: Room)
    requires Inv(r)
    ensures RoomWf(r)
  {
    hide Seated, Agrees;
  }

  /**
   * A named host is always a member, with the clock running exactly while offline; a room without a
   * host has at most the timed-out host connected; and nobody was ever followed by themselves.
   */
  lemma HostIsSafe(r: Room, now: Time)
    requires Reached(r, now)
    ensures r.host != "" ==> IsMember(r.members, r.host) && (r.hostDeadline.Some? <==> !Online(r.members, r.host))
    ensures r.host == "" ==> r.hostDeadline.None? && (r.members != [] ==> r.pendingFrom != "")
    ensures r.host == "" ==> forall m <- r.members :: m.connected ==> m.id == r.pendingFrom
    ensures r.host != "" ==> r.pendingFrom == ""
    ensures r.transfer.Some? ==>
      r.transfer.value.from != r.transfer.value.to && (r.host != "" ==> r.host == r.transfer.value.to)
  {
    hide Reached, Agrees, Joined;
    ReachedInv(r, now);
  }

  /** Ids are distinct and named, the limit in force is never exceeded, an unlocked room holds one. */
  lemma RoomShape(r: Room, now: Time)
    requires Reached(r, now)
    ensures Rules.Distinct(Ids(r.members)) && "" !in Ids(r.members)
    ensures |r.members| <= r.settings.maxPlayers <= MAX_PLAYERS
    ensures !r.locked ==> |r.members| <= 1
    ensures forall i, j :: 0 <= i < j < |r.members| ==> r.members[i].joinedAt <= r.members[j].joinedAt
  {
    hide Reached, Agrees;
    ReachedInv(r, now);
  }

  /** The host of a lobby of four or more can start: only missing content or policy stops it. */
  lemma StartNeedsOnlyContent(r: Room, from: Time, category: string, secret: string, d: Draw, now: Time)
    requires Reached(r, from) && Fair(d)
    ensures Inv(r)
    ensures var t := Tick(r, now);
      t.host != "" && t.status == Lobby && MIN_PLAYERS_TO_START <= |t.members| ==>
        Apply(r, Start(t.host, category, secret, d), now).1 ==
          if category != "" && secret != "" && t.policy.Complete() then Done else Refused(MatchError(InvalidSetup))
  {
    hide Reached, Joined, Tick, Openings.Reachable, ActStart, Rules.Wf, IsMember, Agrees;
    ReachedInv(r, from);
    TickInv(r, now);
    TickKeepsGame(r, now);
    var t := Tick(r, now);
    if t.host != "" && t.status == Lobby {
      HostSeated(t);
      StartInv(t, category, secret, d, now);
    }
  }

  // ----- the room's timers -----

  ghost predicate Settled(r: Room, now: Time)
    requires RoomWf(r)
  {
    Deadline(r).None? || now < Deadline(r).value
  }

  /** A tick leaves no expired timer, of the host or of the match. */
  lemma RoomTickSettles(r: Room, from: Time, now: Time)
    requires Reached(r, from)
    ensures Inv(r) && Settled(Tick(r, now), now)
  {
    hide Reached, Joined, Seated, Openings.Reachable, Together, Rules.Wf, TickGame, Clock.Deadline;
    ReachedInv(r, from);
    TickLevels(r, now);
    HostTimerSettles(TickGame(r, now), now);
  }

  lemma HostTimerSettles(r: Room, now: Time)
    ensures var t := TickHost(r, now); t.hostDeadline.None? || now < t.hostDeadline.value
  {
  }

  /** Before its deadline a tick does nothing. */
  lemma RoomTickBeforeDeadline(r: Room, from: Time, now: Time)
    requires Reached(r, from)
    ensures Inv(r)
    ensures Settled(r, now) ==> Tick(r, now) == r
  {
    hide Reached, Joined, Seated, Openings.Reachable, Rules.Wf, Clock.Tick, Clock.Deadline, SyncPlayers, TransferHost;
    ReachedInv(r, from);
    if Settled(r, now) && r.status == InGame {
      var s := r.game.value;
      assert Clock.Settled(s, now);
      Clock.TickBeforeDeadline(s, now);
      FirstIsPlayer(r);
      NothingToSync(r, s.setup.order, s.players, now);
    }
  }

  // ----- a room left alone -----

  /** A room to which nothing happens but ticks. */
  ghost function Timed(r: Room, times: seq<Time>): (t: Room)
    requires RoomWf(r)
    ensures RoomWf(t)
    decreases |times|
  {
    if times == [] then r else Timed(Tick(r, times[0]), times[1..])
  }

  lemma TickFollows(r: Room, now: Time)
    requires Inv(r)
    ensures var t := Tick(r, now);
      && (r.status == Lobby ==> t.status == Lobby)
      && (r.status == InGame ==> t.game == Some(Clock.Tick(r.game.value, now)))
      && (r.status == InGame ==> (t.status == Lobby <==> t.game.value.phase == Ended))
  {
    hide Openings.Reachable, Seated, Together, Rules.Wf, Clock.Tick, SyncPlayers, TransferHost;
    if r.status == InGame { FirstIsPlayer(r); FirstStays(r, now); }
  }

  lemma FirstStays(r: Room, now: Time)
    requires RoomWf(r) && r.status == InGame && r.participants[0] in r.game.value.players
    ensures r.participants[0] in Clock.Tick(r.game.value, now).players
  {
    hide Clock.Tick;
  }

  lemma {:induction false} TimedReturns(r: Room, times: seq<Time>, now: Time)
    requires Inv(r) && forall t <- times :: t <= now
    requires r.status == InGame ==> Clock.Tick(r.game.value, now).phase == Ended
    ensures Tick(Timed(r, times), now).status == Lobby
    decreases |times|
  {
    hide Seated, Agrees, Rules.Wf, Clock.Tick, Tick;
    if times == [] {
      TickFollows(r, now);
    } else {
      assert times[0] in times && forall t <- times[1..] :: t in times;
      TickFollows(r, times[0]);
      TickInv(r, times[0]);
      if r.status == InGame { Clock.TickComposes(r.game.value, times[0], now); }
      TimedReturns(Tick(r, times[0]), times[1..], now);
    }
  }

  /** Bounded liveness: however a room left alone is ticked, it is back in the lobby once its match must be over. */
  lemma UnattendedRoomReturns(r: Room, from: Time, times: seq<Time>, now: Time)
    requires Reached(r, from) && forall t <- times :: t <= now
    ensures Inv(r)
    ensures r.status == InGame ==> r.game.value.deadline.Some?
    ensures r.status == InGame && r.game.value.deadline.value + Liveness.Longest(r.game.value.setup) <= now ==>
      Tick(Timed(r, times), now).status == Lobby
  {
    hide Reached, Joined, Seated, Openings.Reachable, Together, Clock.Tick, Tick, Timed, Liveness.Longest;
    ReachedInv(r, from);
    if r.status == InGame && r.game.value.deadline.value + Liveness.Longest(r.game.value.setup) <= now {
      Openings.ReachableInv(r.game.value);
      Liveness.UnattendedMatchEnds(r.game.value, now);
      TimedReturns(r, times, now);
    }
  }
}
