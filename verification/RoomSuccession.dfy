/** Who becomes host, and when: whatever is called on a room, its host is followed by the right member. */
module RoomSuccession {
  import opened Basics
  import opened MatchTypes
  import opened RoomRules
  import opened RoomInvariant
  import opened RoomSeats
  import opened RoomAgreement
  import opened RoomCalls
  import opened RoomReach
  import Rules = MatchRules
  import Clock = MatchClock
  import Commands = MatchCommands
  import Openings = MatchOpening
  import Fates = MatchFates
  import Absence = MatchAbsence

  ghost predicate Eligible(members: seq<Member>, from: Id, m: Member) { m in members && m.connected && m.id != from }

  ghost predicate FirstInLine(members: seq<Member>, from: Id, m: Member) {
    Eligible(members, from, m) && forall o :: Eligible(members, from, o) ==> m.joinedAt <= o.joinedAt
  }

  /** Whom a hand-over puts in charge, by who is there and not by the order of a search. */
  ghost predicate Succeeds(r: Room, t: Room, from: Id, reason: Reason) {
    var someone := exists m :: Eligible(r.members, from, m);
    && t.members == r.members
    && (someone ==> exists m :: FirstInLine(r.members, from, m) && t.host == m.id)
    && (!someone && reason == HostTimeout ==> t.host == "" && t.pendingFrom == from)
    && (!someone && reason != HostTimeout && r.members == [] ==> t.host == "" && t.pendingFrom == "")
    && (!someone && reason != HostTimeout && r.members != [] ==> t.host == r.members[0].id)
  }

  /** The longest-present connected member other than the replaced host takes over. */
  lemma LongestPresentTakesOver(r: Room, reason: Reason, at: Time, now: Time)
    requires Crowd(r.settings, r.locked, r.members) && Joined(r.members, now) && Outgoing(r) != ""
    requires reason != HostTimeout ==> !IsMember(r.members, Outgoing(r))
    ensures Succeeds(r, TransferHost(r, reason, at), Outgoing(r), reason)
    ensures TransferHost(r, reason, at).host != Outgoing(r)
  {
    var from := Outgoing(r);
    var i := Heir(r.members, from);
    forall o | Eligible(r.members, from, o)
      ensures i < |r.members| && r.members[i].joinedAt <= o.joinedAt
    {
      var k :| 0 <= k < |r.members| && r.members[k] == o;
      assert i <= k;
    }
    if i < |r.members| { assert FirstInLine(r.members, from, r.members[i]); }
  }

  /** A room handed over for a timeout says so, and the new host is connected; else it waits, and says nothing new. */
  ghost predicate TimeoutRecorded(t: Room, u: Room) {
    && u.hostDeadline == None
    && u.transfer == if u.host == "" then t.transfer else Some(Transfer(t.host, u.host, HostTimeout))
  }

  lemma TimeoutIsRecorded(t: Room, at: Time)
    requires t.host != "" && "" !in Ids(t.members)
    ensures TimeoutRecorded(t, Bumped(TransferHost(t, HostTimeout, at)))
  {
    IdsAreIds(t.members);
    var i := Heir(t.members, t.host);
    if i < |t.members| { assert IsMember(t.members, t.members[i].id); }
  }

  /** A host away too long is followed by the longest-present connected member, if there is one. */
  lemma TimeoutHandsOver(r: Room, from: Time, now: Time)
    requires Reached(r, from) && from <= now
    ensures Inv(r)
    ensures var t := TickGame(r, now);
      t.hostDeadline.Some? && t.hostDeadline.value <= now ==>
        && t.host != "" && Tick(r, now).host != t.host && Succeeds(t, Tick(r, now), t.host, HostTimeout)
        && TimeoutRecorded(t, Tick(r, now))
  {
    hide Reached, Joined, Openings.Reachable, Agrees, SyncPlayers, Succeeds, TransferHost, Rules.Wf, SyncGame,
      Clock.Tick;
    ReachedInv(r, from);
    TickGameInv(r, now);
    JoinedLater(r.members, from, now);
    if r.status == InGame { SyncGameJoined(r.(game := Some(Clock.Tick(r.game.value, now))), now, now); }
    var t := TickGame(r, now);
    if t.hostDeadline.Some? && t.hostDeadline.value <= now {
      LongestPresentTakesOver(t, HostTimeout, t.hostDeadline.value, now);
      TimeoutIsRecorded(t, t.hostDeadline.value);
      SucceedsBumped(t, TransferHost(t, HostTimeout, t.hostDeadline.value), t.host, HostTimeout);
    }
  }

  lemma SucceedsBumped(r: Room, t: Room, from: Id, reason: Reason)
    requires Succeeds(r, t, from, reason)
    ensures Succeeds(r, Bumped(t), from, reason)
  {
  }

  lemma HostGone(members: seq<Member>, id: Id)
    ensures !IsMember(Dismiss(members, id), id)
  {
    DismissMembers(members, id);
  }

  lemma StillMembers(members: seq<Member>, id: Id)
    ensures forall m <- Dismiss(members, id) :: IsMember(members, m.id)
  {
    DismissMembers(members, id);
  }

  lemma SomebodyHosts(r: Room, now: Time)
    requires "" !in Ids(r.members) && r.members != []
    ensures TransferHost(r, HostLeft, now).host != ""
  {
    IdsAreIds(r.members);
  }

  lemma HostSeated(r: Room)
    requires Seated(r) && r.host != ""
    ensures IsMember(r.members, r.host)
  {
  }

  lemma {:induction false} NothingToSync(r: Room, order: seq<Id>, players: map<Id, Player>, now: Time)
    requires forall id <- order :: id in players && IsMember(r.members, id) ==> players[id].Watching()
    ensures SyncPlayers(r, order, players, now) == r
    decreases |order|
  {
    if order != [] { NothingToSync(r, order[1..], players, now); }
  }

  // ----- where nobody is to go -----

  /** Everybody in the room is still in its match, if one is running. */
  ghost predicate AllIn(members: seq<Member>, players: map<Id, Player>) {
    forall m <- members :: m.id in players ==> players[m.id].Watching()
  }

  /** Following such a match changes neither members nor host. */
  lemma QuietSync(r: Room, now: Time)
    requires RoomWf(r) && (r.status == InGame ==> AllIn(r.members, r.game.value.players))
    ensures var t := SyncGame(r, now); t == r.(status := t.status, version := t.version)
  {
    hide Rules.Wf;
    if r.status == InGame {
      NothingToSync(r, r.game.value.setup.order, r.game.value.players, now);
    }
  }

  // ----- the exit of a host -----

  lemma OthersStay(r: Room, id: Id, now: Time)
    requires Level(r, now) && IsMember(r.members, id) && r.status == InGame
    ensures AllIn(Dismiss(r.members, id), Inform(r, Command.Leave(id), now).0.game.value.players)
  {
    hide Openings.Reachable, Seated, Commands.ActLeave, Rules.Wf, Clock.Settled, Clock.Tick, Together, AllIn, Dismiss;
    MembersPlay(r, id);
    Clock.TickBeforeDeadline(r.game.value, now);
    OthersStayIn(r.members, r.game.value, id, now);
  }

  lemma OthersStayIn(members: seq<Member>, s: State, id: Id, now: Time)
    requires Rules.Wf(s) && Together(members, s.players)
    ensures AllIn(Dismiss(members, id), Commands.ActLeave(s, id, now).0.players)
  {
    hide Rules.Wf, Commands.ActLeave;
    DismissMembers(members, id);
    SameParticipants(s, id, now);
    forall m <- Dismiss(members, id) ensures m.id in s.players &&
      Commands.ActLeave(s, id, now).0.players[m.id].Watching() {
      assert IsMember(members, m.id);
      Fates.LeaveSpares(s, now, id, m.id);
    }
  }

  lemma SameParticipants(s: State, id: Id, now: Time)
    requires Rules.Wf(s)
    ensures Commands.ActLeave(s, id, now).0.players.Keys == s.players.Keys
  {
    hide Rules.ValidSetup, Rules.Elements;
  }

  lemma LeavingHost(r: Room, now: Time)
    requires Level(r, now) && r.host != "" && Joined(r.members, now)
    ensures IsMember(r.members, r.host)
    ensures var u := ActLeave(r, r.host, now).0;
      && u.members == Dismiss(r.members, r.host) && u.host != r.host && (u.members != [] ==> u.host != "")
      && Succeeds(r.(members := u.members), u, r.host, HostLeft)
  {
    hide Joined, Openings.Reachable, Agrees, Succeeds, TransferHost, Rules.Wf, IsMember, SyncGame, Inform,
      Clock.Settled, AllIn, MatchKnown, Behind;
    HostSeated(r);
    var m := Inform(r, Command.Leave(r.host), now).0;
    LeaveInforms(r, r.host, now);
    var t := m.(members := Dismiss(m.members, m.host));
    var u := TransferHost(t, HostLeft, now);
    if r.status == InGame { OthersStay(r, r.host, now); }
    QuietSync(u, now);
    TransferToNext(r, t, now);
    SucceedsFrame(r.(members := t.members), t, u, SyncGame(u, now), r.host);
  }

  /** The hand-over of a host who is out of the room. */
  lemma TransferToNext(r: Room, t: Room, now: Time)
    requires Seated(r) && r.host != "" && Joined(r.members, now)
    requires t == r.(members := Dismiss(r.members, r.host), game := t.game)
    ensures var u := TransferHost(t, HostLeft, now);
      Succeeds(t, u, r.host, HostLeft) && u.host != r.host && (t.members != [] ==> u.host != "")
  {
    hide Joined, Succeeds, TransferHost, IsMember;
    DismissMembers(r.members, r.host);
    DismissJoined(r.members, r.host, now);
    HostGone(r.members, r.host);
    StillMembers(r.members, r.host);
    CrowdAfter(r, t.members);
    LongestPresentTakesOver(t, HostLeft, now, now);
    TransferSeats(t, HostLeft, now);
    if t.members != [] { SomebodyHosts(t, now); }
  }

  /** `Succeeds` looks only at members, host and the host who may not come back. */
  lemma SucceedsFrame(r: Room, t: Room, u: Room, v: Room, from: Id)
    requires Succeeds(t, u, from, HostLeft) && r.members == t.members
    requires v.members == u.members && v.host == u.host && v.pendingFrom == u.pendingFrom
    ensures Succeeds(r, Bumped(v), from, HostLeft)
  {
  }

  /** A host who leaves, in a lobby or in a match, is followed at once, as long as anybody is left. */
  lemma LeavingHostIsFollowed(r: Room, from: Time, now: Time)
    requires Reached(r, from) && from <= now
    ensures Inv(r)
    ensures var t := Tick(r, now);
      t.host != "" ==>
        var u := Apply(r, RoomCommand.Leave(t.host), now).0;
        && u.members == Dismiss(t.members, t.host) && u.host != t.host && (u.members != [] ==> u.host != "")
        && Succeeds(t.(members := u.members), u, t.host, HostLeft)
  {
    hide Reached, Joined, Openings.Reachable, Agrees, Tick, Succeeds, TransferHost, Rules.Wf, IsMember, ActLeave,
      Dismiss, Seated, Clock.Settled;
    ReachedInv(r, from);
    TickLevels(r, now);
    TickKeepsGame(r, now);
    JoinedLater(r.members, from, now);
    TickJoined(r, now, now);
    var t := Tick(r, now);
    if t.host != "" { LeavingHost(t, now); }
  }

  // ----- the removal of a host -----

  /** The host a room must have once `from` is out of it: the longest-present connected member, or else the first. */
  ghost predicate Rightful(members: seq<Member>, from: Id, host: Id) {
    var someone := exists m :: Eligible(members, from, m);
    && (someone ==> exists m :: FirstInLine(members, from, m) && host == m.id)
    && (!someone ==> host == if members == [] then "" else members[0].id)
  }

  lemma SucceedsIsRightful(r: Room, t: Room, from: Id, reason: Reason)
    requires Succeeds(r, t, from, reason) && reason != HostTimeout
    ensures Rightful(r.members, from, t.host)
  {
  }

  /** Who is rightful does not depend on which absent player is not to come back. */
  lemma RightfulWithout(members: seq<Member>, a: Id, b: Id, host: Id)
    requires !IsMember(members, a) && !IsMember(members, b) && Rightful(members, a, host)
    ensures Rightful(members, b, host)
  {
    forall m ensures Eligible(members, a, m) <==> Eligible(members, b, m) {
    }
    if exists m :: Eligible(members, a, m) {
      var m :| FirstInLine(members, a, m) && host == m.id;
      assert FirstInLine(members, b, m);
    }
  }

  /** A host stays rightful when others who are offline go. */
  lemma RightfulAfter(members: seq<Member>, from: Id, host: Id, id: Id)
    requires Rightful(members, from, host) && id != host && forall m <- members :: m.id == id ==> !m.connected
    ensures Rightful(Dismiss(members, id), from, host)
  {
    DismissMembers(members, id);
    var rest := Dismiss(members, id);
    forall m ensures Eligible(members, from, m) <==> Eligible(rest, from, m) {
    }
    if exists m :: Eligible(members, from, m) {
      var m :| FirstInLine(members, from, m) && host == m.id;
      assert FirstInLine(rest, from, m);
    }
  }

  /** Those who are out of the match are offline. */
  ghost predicate OutAreOffline(members: seq<Member>, players: map<Id, Player>) {
    forall m <- members :: m.id in players && !players[m.id].Watching() ==> !m.connected
  }

  ghost predicate Leaves(order: seq<Id>, players: map<Id, Player>, id: Id) {
    id in order && id in players && !players[id].Watching()
  }

  lemma OfflineAfter(r: Room, id: Id, status: Status, players: map<Id, Player>, now: Time)
    requires OutAreOffline(r.members, players)
    ensures OutAreOffline(SyncPlayer(r, id, status, now).members, players)
    ensures !IsMember(r.members, id) ==> SyncPlayer(r, id, status, now) == r
  {
    hide TransferHost;
    DismissMembers(r.members, id);
  }

  /** One removal: a host who stays stays, and a host who goes is followed by the right member. */
  lemma PlayerHandsOver(r: Room, id: Id, players: map<Id, Player>, now: Time, to: Time)
    requires Seated(r) && Joined(r.members, to) && OutAreOffline(r.members, players)
    requires IsMember(r.members, id) && id in players && !players[id].Watching() && id != ""
    ensures var t := SyncPlayer(r, id, players[id].status, now);
      && t.members == Dismiss(r.members, id) && !IsMember(t.members, id)
      && (id != r.host ==> t.host == r.host)
      && (id == r.host ==> Rightful(t.members, id, t.host))
  {
    hide Joined, Succeeds, TransferHost, Rightful;
    var reason := if players[id].status == Removed then HostRemoved else HostLeft;
    var t := r.(members := Dismiss(r.members, id));
    HostGone(r.members, id);
    if id == r.host {
      DismissMembers(r.members, id);
      DismissJoined(r.members, id, to);
      StillMembers(r.members, id);
      CrowdAfter(r, t.members);
      LongestPresentTakesOver(t, reason, now, to);
      SucceedsIsRightful(t, TransferHost(t, reason, now), id, reason);
    }
  }

  lemma {:induction false} SyncHandsOver(r: Room, order: seq<Id>, players: map<Id, Player>, from: Id, now: Time,
    to: Time)
    requires Seated(r) && Joined(r.members, to) && "" !in order && OutAreOffline(r.members, players)
    ensures var t := SyncPlayers(r, order, players, now);
      && (!(IsMember(r.members, r.host) && Leaves(order, players, r.host)) ==> t.host == r.host)
      && (!IsMember(r.members, from) && Rightful(r.members, from, r.host) ==> Rightful(t.members, from, t.host))
      && (IsMember(r.members, r.host) && Leaves(order, players, r.host) ==> Rightful(t.members, r.host, t.host))
    decreases |order|
  {
    hide Seated, Joined, Rightful, TransferHost, OutAreOffline, SyncPlayer, IsMember, Dismiss;
    if order != [] {
      var id := order[0];
      assert order == [id] + order[1..];
      if id in players {
        var next := SyncPlayer(r, id, players[id].status, now);
        SyncPlayerSeats(r, id, players[id].status, now);
        OfflineAfter(r, id, players[id].status, players, now);
        SyncPlayerJoined(r, id, players[id].status, now, to);
        SyncHandsOver(next, order[1..], players, from, now, to);
        if IsMember(r.members, id) && !players[id].Watching() {
          PlayerHandsOver(r, id, players, now, to);
          HandsOverAfter(r, next, id, players, from);
          SyncHandsOver(next, order[1..], players, id, now, to);
          HandsOverToo(next, order[1..], players, id, from, now);
        } else {
          StillThere(r, id, players[id].status, now);
        }
      } else {
        SyncHandsOver(r, order[1..], players, from, now, to);
      }
    }
  }

  lemma SyncPlayerJoined(r: Room, id: Id, status: Status, now: Time, to: Time)
    requires Joined(r.members, to)
    ensures Joined(SyncPlayer(r, id, status, now).members, to)
  {
    hide Joined, TransferHost;
    DismissJoined(r.members, id, to);
  }

  lemma StillThere(r: Room, id: Id, status: Status, now: Time)
    requires !IsMember(r.members, id) || status == Active || status == Eliminated
    ensures SyncPlayer(r, id, status, now) == r
  {
  }

  lemma HandsOverAfter(r: Room, t: Room, id: Id, players: map<Id, Player>, from: Id)
    requires OutAreOffline(r.members, players) && id in players && !players[id].Watching()
    requires t.members == Dismiss(r.members, id) && (id != r.host ==> t.host == r.host)
    ensures !IsMember(r.members, from) ==> !IsMember(t.members, from)
    ensures id != r.host && Rightful(r.members, from, r.host) ==> Rightful(t.members, from, t.host)
    ensures id != r.host ==> (IsMember(r.members, r.host) <==> IsMember(t.members, r.host))
  {
    hide Rightful;
    DismissMembers(r.members, id);
    if id != r.host && Rightful(r.members, from, r.host) { RightfulAfter(r.members, from, r.host, id); }
    if id != r.host && IsMember(r.members, r.host) {
      var m :| m in r.members && m.id == r.host;
      assert m in t.members;
    }
  }

  lemma HandsOverToo(r: Room, order: seq<Id>, players: map<Id, Player>, id: Id, from: Id, now: Time)
    requires !IsMember(r.members, id)
    ensures var t := SyncPlayers(r, order, players, now);
      Rightful(t.members, id, t.host) && !IsMember(r.members, from) ==> Rightful(t.members, from, t.host)
  {
    hide Rightful, SyncPlayers;
    var t := SyncPlayers(r, order, players, now);
    SyncPlayersMembers(r, order, players, now);
    if Rightful(t.members, id, t.host) && !IsMember(r.members, from) { RightfulWithout(t.members, id, from, t.host); }
  }

  lemma TickedOutAreOffline(r: Room, now: Time)
    requires Inv(r) && r.status == InGame
    ensures OutAreOffline(r.members, Clock.Tick(r.game.value, now).players)
  {
    hide Seated, Openings.Reachable, Rules.Wf, Clock.Tick;
    var s := r.game.value;
    Openings.ReachableInv(s);
    forall m <- r.members | m.id in Clock.Tick(s, now).players && !Clock.Tick(s, now).players[m.id].Watching()
      ensures !m.connected
    {
      assert IsMember(r.members, m.id);
      Fates.TickSpares(s, now, m.id);
      Absence.TickRemoves(s, now, m.id);
    }
  }

  /**
   * A host removed from the match for a third strike, alone or with others, is followed by the
   * longest-present connected member, or else by the first who is left.
   */
  lemma RemovedHostIsFollowed(r: Room, from: Time, now: Time)
    requires Reached(r, from) && from <= now
    ensures Inv(r)
    ensures var t := TickGame(r, now);
      r.host != "" && !IsMember(t.members, r.host) ==> Rightful(t.members, r.host, t.host)
  {
    hide Reached, Joined, Openings.Reachable, Agrees, Rightful, Rules.Wf, Clock.Tick, SyncPlayers, Seated,
      OutAreOffline;
    ReachedInv(r, from);
    JoinedLater(r.members, from, now);
    if r.host != "" {
      HostSeated(r);
      if r.status == InGame { SyncedHostIsFollowed(r, now); }
    }
  }

  lemma SyncedHostIsFollowed(r: Room, now: Time)
    requires Inv(r) && Joined(r.members, now) && r.status == InGame && IsMember(r.members, r.host)
    ensures var t := TickGame(r, now); !IsMember(t.members, r.host) ==> Rightful(t.members, r.host, t.host)
  {
    hide Joined, Openings.Reachable, Rightful, Rules.Wf, Clock.Tick, SyncPlayers, Seated, OutAreOffline, Together;
    var s := Clock.Tick(r.game.value, now);
    var u := r.(game := Some(s));
    FirstIsPlayer(r);
    SeatedIgnoresStatus(r);
    TickedOutAreOffline(r, now);
    SyncHandsOver(u, s.setup.order, s.players, "", now, now);
    SyncPlayersMembers(u, s.setup.order, s.players, now);
    if !Leaves(s.setup.order, s.players, r.host) {
      var m :| m in r.members && m.id == r.host;
      assert m in SyncPlayers(u, s.setup.order, s.players, now).members;
    }
  }

  // ----- a room without a host -----

  /** In a room without a host the next to join runs it, unless that is the host who timed out. */
  lemma NewcomerTakesOver(r: Room, from: Time, id: Id, now: Time)
    requires Reached(r, from) && from <= now && id != ""
    ensures Inv(r)
    ensures var t := Tick(r, now);
      t.host == "" && t.status == Lobby && !IsMember(t.members, id) && |t.members| < t.settings.maxPlayers ==>
        Apply(r, RoomCommand.Join(id), now).0.host == if id == t.pendingFrom then "" else id
  {
    hide Reached, Joined, Openings.Reachable, Agrees, Tick, Rules.Wf, TransferHost, IsMember;
    ReachedInv(r, from);
    TickInv(r, now);
    TickKeepsGame(r, now);
    var t := Tick(r, now);
    if t.host == "" && t.pendingFrom != "" {
      OnlyComer(t.(members := t.members + [Member(id, true, now)], locked := true), Member(id, true, now), now);
    }
  }

  /** A hand-over in a room where `m` and perhaps the timed-out host are the only ones connected. */
  lemma OnlyComer(r: Room, m: Member, now: Time)
    requires r.host == "" && m in r.members && m.connected
    requires forall o <- r.members :: o.connected ==> o.id == m.id || o.id == r.pendingFrom
    ensures TransferHost(r, HostTimeout, now).host == if m.id == r.pendingFrom then "" else m.id
  {
    var k :| 0 <= k < |r.members| && r.members[k] == m;
  }

  /** ... and so does the next to return, in a lobby or in a match. */
  lemma ReturnerTakesOver(r: Room, from: Time, id: Id, now: Time)
    requires Reached(r, from) && from <= now
    ensures Inv(r)
    ensures var t := Tick(r, now);
      t.host == "" && IsMember(t.members, id) && !LineUp(t.members, id) ==>
        Apply(r, RoomCommand.Reconnect(id), now).0.host == if id == t.pendingFrom then "" else id
  {
    hide Reached, Joined, Openings.Reachable, Agrees, Tick, Rules.Wf, IsMember, ActReconnect, Seated, LineUp,
      Clock.Settled;
    ReachedInv(r, from);
    TickLevels(r, now);
    TickKeepsGame(r, now);
    var t := Tick(r, now);
    if t.host == "" && IsMember(t.members, id) && !LineUp(t.members, id) { Returner(t, id, now); }
  }

  lemma Returner(r: Room, id: Id, now: Time)
    requires Level(r, now) && r.host == "" && IsMember(r.members, id) && !LineUp(r.members, id)
    ensures ActReconnect(r, id, now).0.host == if id == r.pendingFrom then "" else id
  {
    hide Openings.Reachable, Agrees, Rules.Wf, TransferHost, SyncGame, Inform, Clock.Settled, AllIn, MatchKnown,
      Behind, LineUp, Marked;
    var c := Command.Reconnect(id);
    var t := Inform(Mark(r, id, true), c, now).0;
    LineInforms(r, c, now);
    if r.status == InGame { AllStay(r, id, now); }
    MarkedLine(r.members, id, true);
    SomebodyMarked(t, id);
    var m :| m in t.members && m.id == id;
    OnlyComer(t, m, now);
    var u := LineBack(t, id, now);
    LineBackFrame(t, t, id, now);
    QuietSync(u, now);
  }

  lemma SomebodyMarked(r: Room, id: Id)
    requires IsMember(r.members, id)
    ensures exists m :: m in r.members && m.id == id
  {
  }

  lemma AllStay(r: Room, id: Id, now: Time)
    requires Level(r, now) && IsMember(r.members, id) && r.status == InGame
    ensures AllIn(Marked(r.members, id, true),
      Inform(Mark(r, id, true), Command.Reconnect(id), now).0.game.value.players)
  {
    hide Openings.Reachable, Seated, Commands.ActReconnect, Rules.Wf, Clock.Settled, Clock.Tick, Together, AllIn,
      Marked;
    MembersPlay(r, id);
    SeatedIsDistinct(r);
    Clock.TickBeforeDeadline(r.game.value, now);
    AllStayIn(r.members, r.game.value, id, now);
  }

  lemma AllStayIn(members: seq<Member>, s: State, id: Id, now: Time)
    requires Rules.Wf(s) && Together(members, s.players) && Rules.Distinct(Ids(members))
    ensures AllIn(Marked(members, id, true), Commands.ActReconnect(s, id, now).0.players)
  {
    hide Rules.Wf, Commands.ActReconnect;
    MarkedLine(members, id, true);
    SameReturners(s, id, now);
    forall m <- Marked(members, id, true)
      ensures m.id in s.players && Commands.ActReconnect(s, id, now).0.players[m.id].Watching()
    {
      assert IsMember(Marked(members, id, true), m.id);
      assert IsMember(members, m.id);
      Fates.ReturnSpares(s, now, id, m.id);
    }
  }

  lemma SameReturners(s: State, id: Id, now: Time)
    requires Rules.Wf(s)
    ensures Commands.ActReconnect(s, id, now).0.players.Keys == s.players.Keys
  {
    hide Rules.ValidSetup, Rules.Elements;
  }
}
