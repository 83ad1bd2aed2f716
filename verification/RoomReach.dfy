/** The rooms that can be reached: all keep the invariant, and their members stay in join order. */
module RoomReach {
  import opened Basics
  import opened MatchTypes
  import opened RoomRules
  import opened RoomInvariant
  import opened RoomCalls
  import Rules = MatchRules
  import Clock = MatchClock
  import Commands = MatchCommands
  import Openings = MatchOpening

  datatype Opening = Opening(code: string, host: Id, settings: Settings, policy: Policy, at: Time)

  ghost function Opened(o: Opening): (r: Option<Room>)
    ensures r.Some? ==> RoomWf(r.value)
  {
    New(o.code, o.host, o.settings, o.policy, o.at).0
  }

  ghost predicate LeadsTo(o: Opening, trace: seq<Room>, events: seq<RoomEvent>, r: Room, now: Time) {
    && Opened(o).Some? && Trace(trace, events) && InOrder(o.at, events, now)
    && trace[0] == Opened(o).value && trace[|events|] == r
  }

  /** Some room was opened, some calls were made by `now`: `r` is what they lead to. */
  ghost predicate Reached(r: Room, now: Time) {
    exists o: Opening, trace: seq<Room>, events: seq<RoomEvent> :: LeadsTo(o, trace, events, r, now)
  }

  lemma OpenedInv(o: Opening)
    requires Opened(o).Some?
    ensures Inv(Opened(o).value) && Joined(Opened(o).value.members, o.at)
  {
    hide Openings.Reachable;
    var r := Opened(o).value;
    assert r.members[0].id == o.host && r.members[0].connected;
  }

  lemma ReachedInv(r: Room, now: Time)
    requires Reached(r, now)
    ensures Inv(r) && Joined(r.members, now)
  {
    hide Inv, Trace, New, Opened, Joined;
    var o, trace, events :| LeadsTo(o, trace, events, r, now);
    TraceLength(trace, events);
    OpenedInv(o);
    TraceInv(trace, events);
    TraceJoined(trace, events, o.at, now);
  }

  lemma {:induction false} InOrderGrows(from: Time, events: seq<RoomEvent>, to: Time, e: RoomEvent)
    requires InOrder(from, events, to) && to <= e.at
    ensures InOrder(from, events + [e], e.at)
    decreases |events|
  {
    if events == [] {
      assert (events + [e])[1..] == [];
    } else {
      assert (events + [e])[1..] == events[1..] + [e];
      InOrderGrows(events[0].at, events[1..], to, e);
    }
  }

  lemma TraceGrows(trace: seq<Room>, events: seq<RoomEvent>, e: RoomEvent)
    requires Trace(trace, events) && RoomWf(trace[|events|]) && (e.Call? ==> Proper(e.command))
    ensures Trace(trace + [Next(trace[|events|], e)], events + [e])
  {
    hide Next, RoomWf, Proper;
    var longer, more := trace + [Next(trace[|events|], e)], events + [e];
    forall k | 0 <= k < |more| ensures Goes(longer, more, k) {
      assert k < |events| ==> Goes(trace, events, k);
    }
  }

  /** A call on a reached room leads to a reached room. */
  lemma ReachedGoesOn(r: Room, from: Time, e: RoomEvent)
    requires Reached(r, from) && from <= e.at && (e.Call? ==> Proper(e.command))
    ensures RoomWf(r) && Reached(Next(r, e), e.at)
  {
    hide Inv, Trace, Opened, Joined, Next, InOrder, Proper, RoomWf;
    ReachedInv(r, from);
    InvIsWf(r);
    var o, trace, events :| LeadsTo(o, trace, events, r, from);
    TraceLength(trace, events);
    TraceGrows(trace, events, e);
    InOrderGrows(o.at, events, from, e);
    assert LeadsTo(o, trace + [Next(r, e)], events + [e], Next(r, e), e.at);
  }

  lemma InvIsWf(r: Room)
    requires Inv(r)
    ensures RoomWf(r)
  {
    hide Seated, Agrees;
  }

  lemma ReachedBegins(o: Opening)
    requires Opened(o).Some?
    ensures Reached(Opened(o).value, o.at)
  {
    hide Opened;
    assert LeadsTo(o, [Opened(o).value], [], Opened(o).value, o.at);
  }

  // ----- join order -----

  lemma {:induction false} DismissJoined(members: seq<Member>, id: Id, now: Time)
    requires Joined(members, now)
    ensures Joined(Dismiss(members, id), now)
  {
    EmptyJoined(now);
    if members != [] {
      hide Joined;
      var rest := Dismiss(members[1..], id);
      FirstJoined(members, now);
      DismissJoined(members[1..], id, now);
      DismissMembers(members[1..], id);
      JoinedCons(members[0], rest, now);
    }
  }

  lemma EmptyJoined(now: Time)
    ensures Joined([], now)
  {
  }

  lemma FirstJoined(members: seq<Member>, now: Time)
    requires Joined(members, now) && members != []
    ensures Joined(members[1..], now) && members[0].joinedAt <= now
    ensures forall m <- members[1..] :: members[0].joinedAt <= m.joinedAt
  {
    forall m <- members[1..] ensures members[0].joinedAt <= m.joinedAt {
      var j :| 0 <= j < |members[1..]| && members[1..][j] == m;
      assert members[j + 1] == m;
    }
  }

  lemma JoinedCons(m: Member, rest: seq<Member>, now: Time)
    requires Joined(rest, now) && m.joinedAt <= now && forall o <- rest :: m.joinedAt <= o.joinedAt
    ensures Joined([m] + rest, now)
  {
  }

  lemma {:induction false} MarkedJoined(members: seq<Member>, id: Id, connected: bool, now: Time)
    requires Joined(members, now)
    ensures Joined(Marked(members, id, connected), now)
    ensures |Marked(members, id, connected)| == |members|
    ensures forall k :: 0 <= k < |members| ==> Marked(members, id, connected)[k].joinedAt == members[k].joinedAt
  {
    if members != [] && members[0].id != id {
      MarkedJoined(members[1..], id, connected, now);
    }
  }

  lemma {:induction false} SyncJoined(r: Room, order: seq<Id>, players: map<Id, Player>, now: Time, to: Time)
    requires Joined(r.members, to)
    ensures Joined(SyncPlayers(r, order, players, now).members, to)
    decreases |order|
  {
    hide TransferHost, Joined;
    if order != [] {
      if order[0] in players {
        DismissJoined(r.members, order[0], to);
        SyncJoined(SyncPlayer(r, order[0], players[order[0]].status, now), order[1..], players, now, to);
      } else {
        SyncJoined(r, order[1..], players, now, to);
      }
    }
  }

  lemma SyncGameJoined(r: Room, now: Time, to: Time)
    requires RoomWf(r) && Joined(r.members, to)
    ensures Joined(SyncGame(r, now).members, to)
  {
    hide Joined, SyncPlayers, Rules.Wf;
    if r.status == InGame { SyncJoined(r, r.game.value.setup.order, r.game.value.players, now, to); }
  }

  lemma TickJoined(r: Room, now: Time, to: Time)
    requires RoomWf(r) && Joined(r.members, to)
    ensures Joined(Tick(r, now).members, to)
  {
    hide Joined, SyncGame, Clock.Tick, Rules.Wf;
    if r.status == InGame { SyncGameJoined(r.(game := Some(Clock.Tick(r.game.value, now))), now, to); }
  }

  lemma ActJoined(r: Room, c: RoomCommand, now: Time)
    requires RoomWf(r) && Proper(c) && Precheck(r, c) == Done && Joined(r.members, now)
    ensures Joined(Act(r, c, now).0.members, now)
  {
    hide Joined, SyncGame, Commands.Apply, Rules.Wf, Depart, IsMember, LineUp, ActStart, TransferHost, Inform;
    match c
    case Join(id) => JoinedSnoc(r.members, Member(id, true, now), now);
    case Kick(byId, id) => DismissJoined(r.members, id, now);
    case Play(command) => SyncGameJoined(r.(game := Some(Commands.Apply(r.game.value, now, command).0)), now, now);
    case Leave(id) =>
      DismissJoined(r.members, id, now);
      DepartFrame(Inform(r, Command.Leave(id), now).0, id, now);
      SyncGameJoined(Depart(Inform(r, Command.Leave(id), now).0, id, HostLeft, now), now, now);
    case Disconnect(id) =>
      MarkedJoined(r.members, id, false, now);
      SyncGameJoined(LineGone(Inform(Mark(r, id, false), Command.Disconnect(id), now).0, id, now), now, now);
    case Reconnect(id) =>
      MarkedJoined(r.members, id, true, now);
      SyncGameJoined(LineBack(Inform(Mark(r, id, true), Command.Reconnect(id), now).0, id, now), now, now);
    case UpdateSettings(_, _) =>
    case Start(_, category, secret, d) => StartKeepsMembers(r, category, secret, d, now);
    case StartByServer(category, secret, d) => StartKeepsMembers(r, category, secret, d, now);
  }

  lemma StartKeepsMembers(r: Room, category: string, secret: string, d: Draw, now: Time)
    requires RoomWf(r) && Fair(d)
    ensures ActStart(r, category, secret, d, now).0.members == r.members
  {
    hide Rules.Wf, Openings.New, MarkMembers;
  }

  lemma JoinedSnoc(members: seq<Member>, m: Member, now: Time)
    requires Joined(members, now) && m.joinedAt == now
    ensures Joined(members + [m], now)
  {
  }

  lemma JoinedLater(members: seq<Member>, now: Time, to: Time)
    requires Joined(members, now) && now <= to
    ensures Joined(members, to)
  {
  }

  lemma NextJoined(r: Room, e: RoomEvent)
    requires RoomWf(r) && (e.Call? ==> Proper(e.command)) && Joined(r.members, e.at)
    ensures Joined(Next(r, e).members, e.at)
  {
    hide Joined, Act, Tick, Rules.Wf;
    TickJoined(r, e.at, e.at);
    if e.Call? {
      TickKeepsGame(r, e.at);
      if Precheck(r, e.command) == Done { ActJoined(Tick(r, e.at), e.command, e.at); }
    }
  }

  lemma {:induction false} TraceJoined(trace: seq<Room>, events: seq<RoomEvent>, from: Time, to: Time)
    requires Trace(trace, events) && Joined(trace[0].members, from) && InOrder(from, events, to)
    ensures Joined(trace[|events|].members, to)
    decreases |events|
  {
    hide Joined, Next, Rules.Wf, Trace;
    TraceLength(trace, events);
    if events == [] {
      JoinedLater(trace[0].members, from, to);
    } else {
      TraceTail(trace, events);
      JoinedLater(trace[0].members, from, events[0].at);
      NextJoined(trace[0], events[0]);
      TraceJoined(trace[1..], events[1..], events[0].at, to);
    }
  }
}
