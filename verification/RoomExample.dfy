/**
 * A reachable room whose ticks do not compose, call by call: the opener "x" hands over to "h", who has
 * been away twice, and everybody drops; "h" is removed while nobody is connected.
 */
module RoomExample {
  import opened Basics
  import opened MatchTypes
  import opened RoomRules
  import opened RoomReach
  import Rules = MatchRules
  import Clock = MatchClock
  import Commands = MatchCommands
  import Openings = MatchOpening
  import Turns = MatchTurns
  import Succession = RoomSuccession
  import Ticks = RoomTicks
  import Departures = RoomDepartures
  import Rooms
  import opened RoomInvariant

  const SETTINGS := Settings(8, 90, ["category"])
  const ORDER: seq<Id> := ["b", "h", "a", "x"]

  ghost function TheDraw(): Draw {
    Draw((ids: seq<Id>) => if ids == ["x", "h", "a", "b"] then ORDER else ids, (ids: seq<Id>) => 0)
  }

  // ----- the match -----

  /** Someone playing: connected or not, with so many strikes, and perhaps one to come. */
  function Playing(connected: bool, strikes: nat, strikeAt: Option<Time>): Player {
    Player(Active, connected, strikes, false, strikeAt)
  }

  /** The match in its first turn, or before it, seen through its clocks and its players. */
  ghost function Match(p: Policy, phase: Phase, deadline: Time, turnDeadline: Option<Time>, waits: bool, version: nat,
    b: Player, h: Player, a: Player, x: Player): State
  {
    State(Setup(MatchConfig(SETTINGS), p, "category", "secret", ORDER, "b"),
      map["b" := b, "h" := h, "a" := a, "x" := x],
      phase, Some(deadline), version, 1, 0, turnDeadline, waits, [], map[], [], 0, false, map[], [], [], "", [], 0,
      None)
  }

  lemma MatchIsWf(p: Policy, phase: Phase, deadline: Time, turnDeadline: Option<Time>, waits: bool, version: nat,
    b: Player, h: Player, a: Player, x: Player)
    requires p.Complete() && (phase == RoleReveal || (phase == Hints && turnDeadline.Some?))
    ensures Rules.Wf(Match(p, phase, deadline, turnDeadline, waits, version, b, h, a, x))
  {
    OrderIsValid();
    var s := Match(p, phase, deadline, turnDeadline, waits, version, b, h, a, x);
    assert s.players.Keys == {"b", "h", "a", "x"} == Rules.Elements(ORDER);
  }

  lemma OrderIsValid()
    ensures Rules.Distinct(ORDER) && "" !in ORDER && Rules.Elements(ORDER) == {"b", "h", "a", "x"}
  {
    assert ORDER[0] == "b" && ORDER[1] == "h" && ORDER[2] == "a" && ORDER[3] == "x";
    assert "b"[0] != "h"[0] && "b"[0] != "a"[0] && "b"[0] != "x"[0] && "h"[0] != "a"[0] && "h"[0] != "x"[0] &&
      "a"[0] != "x"[0];
    forall id ensures id in ORDER <==> id in {"b", "h", "a", "x"} {
    }
  }

  function At(seconds: int): Time { seconds * SECOND }

  /** No strike of the player has passed at `now`. */
  predicate Ahead(p: Player, now: Time) { p.strikeAt.None? || now < p.strikeAt.value }

  lemma MatchIsIdle(p: Policy, phase: Phase, deadline: Time, turnDeadline: Option<Time>, waits: bool, version: nat,
    b: Player, h: Player, a: Player, x: Player, now: Time)
    requires p.Complete() && (phase == RoleReveal || (phase == Hints && turnDeadline.Some?))
    requires now < deadline && Ahead(b, now) && Ahead(h, now) && Ahead(a, now) && Ahead(x, now)
    ensures var s := Match(p, phase, deadline, turnDeadline, waits, version, b, h, a, x);
      Rules.Wf(s) && Clock.Settled(s, now) && Clock.Tick(s, now) == s
  {
    hide Rules.Wf, Clock.Tick, Clock.Settled;
    var s := Match(p, phase, deadline, turnDeadline, waits, version, b, h, a, x);
    MatchIsWf(p, phase, deadline, turnDeadline, waits, version, b, h, a, x);
    Turns.CalmIsSettled(s, now);
    Clock.TickBeforeDeadline(s, now);
  }

  /** `id` is the first to strike, no later than the phase ends. */
  lemma FirstToStrike(s: State, id: Id, d: Time)
    requires Rules.Live(s) && Clock.Pending(s.players, id) && s.players[id].strikeAt == Some(d) && d <= s.deadline.value
    requires forall i <- s.players :: i != id && Clock.Pending(s.players, i) ==> d < s.players[i].strikeAt.value
    ensures Clock.NextTimer(s) == Clock.StrikeDue(d) && Clock.StruckAt(s, d) == {id}
  {
    hide Rules.ValidSetup, Rules.Actives;
    assert id in Rules.Elements(s.setup.order);
    assert forall i <- s.setup.order :: i in Rules.Elements(s.setup.order);
  }

  lemma OneStep(s: State, now: Time)
    requires Rules.Wf(s) && Clock.Due(s, now)
    ensures Clock.Tick(s, now) == Clock.Tick(Clock.Step(s), now)
  {
    hide Rules.Wf, Clock.Due, Clock.Step;
  }

  ghost function Struck(s: State, id: Id): State
    requires id in s.players
  {
    s.(players := s.players[id := s.players[id].(strikeAt := None, disconnects := s.players[id].disconnects + 1)],
       version := s.version + 1)
  }

  /** A first or second strike only counts. */
  lemma StrikeCounts(s: State, id: Id, d: Time)
    requires Rules.Live(s) && Clock.NextTimer(s) == Clock.StrikeDue(d) && Clock.StruckAt(s, d) == {id} &&
      id in s.players
    requires s.players[id].disconnects + 1 < MAX_DISCONNECTS
    ensures Clock.Step(s) == Struck(s, id)
  {
    hide Rules.Shape, Clock.EarliestStrike, Rules.RemoveAll, Clock.StruckAt, Clock.NextTimer, Rules.InVote;
    assert Clock.OutAt(s, d) == {};
    assert Clock.Strike(s, d).players == Struck(s, id).players;
  }

  const CALM := Playing(true, 0, None)

  lemma RevealEnds(p: Policy, version: nat, h: Player, now: Time)
    requires p.Complete() && h.status == Active && Ahead(h, At(20)) && At(20) <= now
    ensures var s, r := Match(p, RoleReveal, At(20), None, false, version, CALM, h, CALM, CALM),
      Match(p, Hints, At(110), Some(At(110)), false, version + 1, CALM, h, CALM, CALM);
      Rules.Wf(s) && Clock.Tick(s, now) == Clock.Tick(r, now)
  {
    hide Rules.Wf, Clock.Tick, Rules.StartTurn, Clock.NextTimer;
    MatchIsWf(p, RoleReveal, At(20), None, false, version, CALM, h, CALM, CALM);
    MatchIsWf(p, Hints, At(110), Some(At(110)), false, version + 1, CALM, h, CALM, CALM);
    var s := Match(p, RoleReveal, At(20), None, false, version, CALM, h, CALM, CALM);
    PhaseFirst(s);
    TurnOpens(s);
    OneStep(s, now);
  }

  lemma PhaseFirst(s: State)
    requires Rules.Live(s) && forall id <- s.players :: Clock.Pending(s.players, id) ==>
      s.deadline.value < s.players[id].strikeAt.value
    ensures Clock.NextTimer(s) == Clock.PhaseDue(s.deadline.value)
  {
    hide Rules.ValidSetup, Rules.Actives;
    assert forall i <- s.setup.order :: i in Rules.Elements(s.setup.order);
  }

  lemma TurnOpens(s: State)
    requires Rules.Live(s) && s.turn == 0 && s.setup.order == ORDER && s.setup.cfg == MatchConfig(SETTINGS)
    requires "b" in s.players && s.players["b"].status == Active && s.players["b"].connected && !s.reconnecting
    ensures Rules.StartTurn(s, 0, At(20)) ==
      s.(phase := Hints, deadline := Some(At(110)), turnDeadline := Some(At(110)))
  {
    hide Rules.ValidSetup, Rules.Elements, Rules.Wf;
    assert ORDER[0] == "b";
  }

  /** The match in its first turn. */
  ghost function Turn(p: Policy, version: nat, b: Player, h: Player, a: Player, x: Player): State {
    Match(p, Hints, At(110), Some(At(110)), false, version, b, h, a, x)
  }

  lemma StrikeOfH(p: Policy, version: nat, strikes: nat, d: Time, x: Player, now: Time)
    requires p.Complete() && strikes + 1 < MAX_DISCONNECTS && d <= now < At(110) && Ahead(x, now) && x.status == Active
    ensures var s := Turn(p, version, CALM, Playing(false, strikes, Some(d)), CALM, x);
      Rules.Wf(s) && Clock.Tick(s, now) == Turn(p, version + 1, CALM, Playing(false, strikes + 1, None), CALM, x)
  {
    hide Rules.Wf, Clock.Tick, Clock.NextTimer, Clock.Step, Clock.StruckAt;
    var h, next := Playing(false, strikes, Some(d)), Playing(false, strikes + 1, None);
    MatchIsWf(p, Hints, At(110), Some(At(110)), false, version, CALM, h, CALM, x);
    MatchIsIdle(p, Hints, At(110), Some(At(110)), false, version + 1, CALM, next, CALM, x, now);
    var s := Turn(p, version, CALM, h, CALM, x);
    FirstToStrike(s, "h", d);
    StrikeCounts(s, "h", d);
    OneStep(s, now);
    assert Struck(s, "h").players == map["b" := CALM, "h" := next, "a" := CALM, "x" := x];
  }

  lemma StrikeOfX(p: Policy, version: nat, h: Player, d: Time, now: Time)
    requires p.Complete() && d <= now < At(110) && Ahead(h, now) && h.status == Active
    ensures var s := Turn(p, version, CALM, h, CALM, Playing(false, 0, Some(d)));
      Rules.Wf(s) && Clock.Tick(s, now) == Turn(p, version + 1, CALM, h, CALM, Playing(false, 1, None))
  {
    hide Rules.Wf, Clock.Tick, Clock.NextTimer, Clock.Step, Clock.StruckAt;
    var x, next := Playing(false, 0, Some(d)), Playing(false, 1, None);
    MatchIsWf(p, Hints, At(110), Some(At(110)), false, version, CALM, h, CALM, x);
    MatchIsIdle(p, Hints, At(110), Some(At(110)), false, version + 1, CALM, h, CALM, next, now);
    var s := Turn(p, version, CALM, h, CALM, x);
    FirstToStrike(s, "x", d);
    StrikeCounts(s, "x", d);
    OneStep(s, now);
    assert Struck(s, "x").players == map["b" := CALM, "h" := h, "a" := CALM, "x" := next];
  }

  /** A drop of somebody whose turn it is not. */
  lemma DropInTurn(p: Policy, version: nat, b: Player, h: Player, a: Player, x: Player, id: Id, now: Time)
    requires p.Complete() && id in {"h", "a", "x"}
    requires var s := Turn(p, version, b, h, a, x); s.players[id].status == Active && s.players[id].connected
    ensures var s := Turn(p, version, b, h, a, x);
      && Rules.Wf(s)
      && var q := s.players[id].(connected := false, strikeAt := Some(now + At(30)));
         Commands.ActDisconnect(s, id, now) == (s.(players := s.players[id := q], version := version + 1), Ok)
  {
    hide Rules.Wf, Rules.MaybeAdvance;
    MatchIsWf(p, Hints, At(110), Some(At(110)), false, version, b, h, a, x);
    assert ORDER[0] == "b";
    assert "b"[0] != "h"[0] && "b"[0] != "a"[0] && "b"[0] != "x"[0];
  }

  lemma ReturnInTurn(p: Policy, version: nat, b: Player, h: Player, a: Player, x: Player, now: Time)
    requires p.Complete() && h.status == Active && !h.connected
    ensures var s := Turn(p, version, b, h, a, x);
      && Rules.Wf(s)
      && Commands.ActReconnect(s, "h", now) ==
           (s.(players := s.players["h" := h.(connected := true, strikeAt := None)], version := version + 1), Ok)
  {
    hide Rules.Wf, Rules.MaybeAdvance;
    MatchIsWf(p, Hints, At(110), Some(At(110)), false, version, b, h, a, x);
    assert ORDER[0] == "b" && "b"[0] != "h"[0];
  }

  /** The drop of the player whose turn it is, with everybody else away. */
  lemma HolderDrops(p: Policy, version: nat, h: Player, a: Player, x: Player)
    requires p.Complete()
    ensures var s := Turn(p, version, CALM, h, a, x);
      && Rules.Wf(s)
      && Commands.ActDisconnect(s, "b", At(72)) ==
           (Match(p, Hints, At(102), Some(At(110)), true, version + 1, Playing(false, 0, Some(At(102))), h, a, x), Ok)
  {
    hide Rules.Wf, Rules.MaybeAdvance;
    MatchIsWf(p, Hints, At(110), Some(At(110)), false, version, CALM, h, a, x);
    assert ORDER[0] == "b";
    var s := Turn(p, version, CALM, h, a, x);
    assert s.players["b" := Playing(false, 0, Some(At(102)))] ==
      map["b" := Playing(false, 0, Some(At(102))), "h" := h, "a" := a, "x" := x];
  }

  /** A drop before the first turn moves nothing: the others have not confirmed. */
  lemma DropBeforeTurn(p: Policy)
    requires p.Complete()
    ensures var s := Match(p, RoleReveal, At(20), None, false, 1, CALM, CALM, CALM, CALM);
      && Rules.Wf(s)
      && Commands.ActDisconnect(s, "h", 0) ==
           (Match(p, RoleReveal, At(20), None, false, 2, CALM, Playing(false, 0, Some(At(30))), CALM, CALM), Ok)
  {
    hide Rules.Wf, Rules.StartTurn, Rules.Tally, Rules.StartRound;
    MatchIsWf(p, RoleReveal, At(20), None, false, 1, CALM, CALM, CALM, CALM);
    var s := Match(p, RoleReveal, At(20), None, false, 1, CALM, CALM, CALM, CALM);
    var t := Commands.Dropped(s, "h", 0);
    assert t.players == map["b" := CALM, "h" := Playing(false, 0, Some(At(30))), "a" := CALM, "x" := CALM];
    assert "b" in t.players && "b"[0] != "h"[0] && t.players["b"] == CALM;
    assert !Rules.AllConnectedAcked(t, false);
  }

  // ----- the room -----

  ghost predicate AllPlay(s: State) { forall id <- s.players :: s.players[id].Watching() }

  /** A tick of a running match from which nobody goes, with no host's timer due. */
  lemma QuietTick(r: Room, s: State, now: Time)
    requires RoomWf(r) && r.status == InGame && Clock.Tick(r.game.value, now) == s
    requires s.phase != Ended && AllPlay(s) && (r.hostDeadline.None? || now < r.hostDeadline.value)
    ensures Tick(r, now) == r.(game := Some(s))
  {
    hide Rules.Wf, Clock.Tick;
    Succession.NothingToSync(r.(game := Some(s)), s.setup.order, s.players, now);
  }

  /** A member's drop that moves nothing in the match but their own line. */
  lemma QuietDrop(r: Room, i: nat, s: State, now: Time)
    requires RoomWf(r) && r.status == InGame && i < |r.members| && FirstWith(r.members, i) && r.members[i].connected
    requires r.members[i].id in r.participants && Clock.Settled(r.game.value, now)
    requires Commands.ActDisconnect(r.game.value, r.members[i].id, now) == (s, Ok) && s.phase != Ended && AllPlay(s)
    ensures var t := r.(members := r.members[i := r.members[i].(connected := false)], game := Some(s),
      version := r.version + 1);
      ActDisconnect(r, r.members[i].id, now).0 ==
        if r.members[i].id == r.host then t.(hostDeadline := Some(now + HOST_RECONNECT)) else t
  {
    hide Rules.Wf, Clock.Tick, Commands.ActDisconnect, Marked, LineUp, Clock.Settled;
    var id := r.members[i].id;
    assert r.members[i] in r.members;
    Clock.TickBeforeDeadline(r.game.value, now);
    Rooms.LineAt(r.members, i);
    Rooms.MarkedAt(r.members, i, false);
    Succession.NothingToSync(LineGone(Mark(r, id, false).(game := Some(s)), id, now), s.setup.order, s.players, now);
  }

  /** A member's return that moves nothing in the match but their own line. */
  lemma QuietReturn(r: Room, i: nat, s: State, now: Time)
    requires RoomWf(r) && r.status == InGame && i < |r.members| && FirstWith(r.members, i) && !r.members[i].connected
    requires r.members[i].id in r.participants && Clock.Settled(r.game.value, now)
    requires Commands.ActReconnect(r.game.value, r.members[i].id, now) == (s, Ok) && s.phase != Ended && AllPlay(s)
    requires r.members[i].id != r.host && r.pendingFrom == ""
    ensures ActReconnect(r, r.members[i].id, now).0 ==
      r.(members := r.members[i := r.members[i].(connected := true)], game := Some(s), version := r.version + 1)
  {
    hide Rules.Wf, Clock.Tick, Commands.ActReconnect, Marked, LineUp, Clock.Settled;
    var id := r.members[i].id;
    assert r.members[i] in r.members;
    Clock.TickBeforeDeadline(r.game.value, now);
    Rooms.LineAt(r.members, i);
    Rooms.MarkedAt(r.members, i, true);
    Succession.NothingToSync(Mark(r, id, true).(game := Some(s)), s.setup.order, s.players, now);
  }

  ghost predicate FirstWith(members: seq<Member>, i: nat) {
    i < |members| && forall k :: 0 <= k < i ==> members[k].id != members[i].id
  }

  /** The room in its match, seen through its lines, its host and its match. */
  ghost function Table(p: Policy, x: bool, h: bool, a: bool, b: bool, host: Id, hostDeadline: Option<Time>,
    transfer: Option<Transfer>, version: nat, s: State): Room
  {
    Room("000000", SETTINGS, true, [Member("x", x, 0), Member("h", h, 0), Member("a", a, 0), Member("b", b, 0)], host,
         InGame, version, hostDeadline, "", transfer, p, Some(s), ["x", "h", "a", "b"])
  }

  lemma NamesDiffer()
    ensures "x" != "h" && "x" != "a" && "x" != "b" && "h" != "a" && "h" != "b" && "a" != "b"
  {
    assert "b"[0] != "h"[0] && "b"[0] != "a"[0] && "b"[0] != "x"[0] && "h"[0] != "a"[0] && "h"[0] != "x"[0] &&
      "a"[0] != "x"[0];
  }

  // ----- up to the start -----

  ghost function Waiting(p: Policy, members: seq<Member>, version: nat): Room {
    Room("000000", SETTINGS, members != [Member("x", true, 0)], members, "x", Lobby, version, None, "", None, p, None,
      [])
  }

  lemma Opens(p: Policy)
    ensures Reached(Waiting(p, [Member("x", true, 0)], 0), 0)
  {
    hide Reached;
    var o := Opening("000000", "x", SETTINGS, p, 0);
    assert Opened(o) == Some(Waiting(p, [Member("x", true, 0)], 0));
    ReachedBegins(o);
  }

  lemma Joins(p: Policy, members: seq<Member>, version: nat, id: Id)
    requires Reached(Waiting(p, members, version), 0) && id != "" && 1 <= |members| < 8 && !IsMember(members, id)
    ensures Reached(Waiting(p, members + [Member(id, true, 0)], version + 1), 0)
  {
    hide Reached, IsMember;
    var r := Waiting(p, members, version);
    ReachedGoesOn(r, 0, RoomEvent.Call(0, RoomCommand.Join(id)));
    assert (members + [Member(id, true, 0)])[|members|] == Member(id, true, 0);
  }

  lemma DrawIsFair()
    ensures Fair(TheDraw())
  {
    NamesDiffer();
    assert multiset(["x", "h", "a", "b"]) == multiset(ORDER);
  }

  ghost function FirstMatch(p: Policy): State { Match(p, RoleReveal, At(20), None, false, 1, CALM, CALM, CALM, CALM) }

  const FOUR := [Member("x", true, 0), Member("h", true, 0), Member("a", true, 0), Member("b", true, 0)]

  lemma MatchBegins(p: Policy)
    requires p.Complete()
    ensures var ids: seq<Id> := ["x", "h", "a", "b"];
      && multiset(ORDER) == multiset(ids)
      && Openings.New(MatchConfig(SETTINGS), p, ids, "category", "secret", ORDER, 0, 0) == Some(FirstMatch(p))
  {
    hide Rules.Wf;
    SeatedAtRandom();
    OrderIsValid();
    assert Commands.NewPlayers(ORDER) == map["b" := CALM, "h" := CALM, "a" := CALM, "x" := CALM];
  }

  lemma SeatedAtRandom()
    ensures var ids: seq<Id> := ["x", "h", "a", "b"]; multiset(ids) == multiset(ORDER) && Rules.Distinct(ids)
    ensures "" !in ["x", "h", "a", "b"]
  {
    NamesDiffer();
  }

  lemma StartsUp(p: Policy)
    requires p.Complete() && Reached(Waiting(p, FOUR, 3), 0)
    ensures Reached(Table(p, true, true, true, true, "x", None, None, 4, FirstMatch(p)), 0)
  {
    hide Reached, Fair, Tick, RoomWf, ActHostStart, Waiting, Table, FirstMatch;
    var r := Waiting(p, FOUR, 3);
    WaitingIsIdle(p);
    StartMakes(p);
    OneCall(r, 0, RoomCommand.Start("x", "category", "secret", TheDraw()), 0, r,
      Table(p, true, true, true, true, "x", None, None, 4, FirstMatch(p)));
  }

  lemma WaitingIsIdle(p: Policy)
    ensures var r := Waiting(p, FOUR, 3); RoomWf(r) && Tick(r, 0) == r
  {
  }

  lemma StartMakes(p: Policy)
    requires p.Complete()
    ensures Fair(TheDraw())
    ensures ActHostStart(Waiting(p, FOUR, 3), "x", "category", "secret", TheDraw(), 0) ==
      (Table(p, true, true, true, true, "x", None, None, 4, FirstMatch(p)), Done)
  {
    hide Openings.New, Fair, Rules.Wf, MarkMembers;
    DrawIsFair();
    MatchBegins(p);
    assert Ids(FOUR) == ["x", "h", "a", "b"];
    assert FOUR[0] in FOUR;
    NobodyToMark(FirstMatch(p), FOUR);
  }

  lemma {:induction false} NobodyToMark(s: State, members: seq<Member>)
    requires Rules.Wf(s) && forall m <- members :: m.connected
    ensures MarkMembers(s, members) == (s, Ok)
    decreases |members|
  {
    hide Rules.Wf;
    if members != [] { NobodyToMark(s, members[1..]); }
  }

  // ----- the calls -----

  /** One call on a reached room, given what its tick and its command make of it. */
  lemma OneCall(r: Room, from: Time, c: RoomCommand, now: Time, t: Room, u: Room)
    requires Reached(r, from) && from <= now && Proper(c) && Precheck(r, c) == Done && RoomWf(r) && RoomWf(t)
    requires Tick(r, now) == t && Precheck(t, c) == Done && Act(t, c, now).0 == u
    ensures Reached(u, now)
  {
    hide Reached, Tick, Act, RoomWf, Proper;
    ReachedGoesOn(r, from, RoomEvent.Call(now, c));
  }

  /** The room a quiet call leaves: one line changed, and the match moved on. */
  ghost function Moved(r: Room, i: nat, connected: bool, s: State, hostDeadline: Option<Time>): Room
    requires i < |r.members|
  {
    r.(members := r.members[i := r.members[i].(connected := connected)], game := Some(s), version := r.version + 1,
       hostDeadline := hostDeadline)
  }

  /** The match `s` that `r` has in progress, with everybody in it and no host's timer due by `now`. */
  ghost predicate Underway(r: Room, s: State, i: nat, now: Time) {
    && RoomWf(r) && r.status == InGame && Rules.Wf(s) && Clock.Tick(r.game.value, now) == s
    && s.phase != Ended && AllPlay(s) && (r.hostDeadline.None? || now < r.hostDeadline.value)
    && i < |r.members| && FirstWith(r.members, i) && r.members[i].id in r.participants && r.members[i].id != ""
  }

  lemma Drops(r: Room, from: Time, i: nat, s: State, t: State, now: Time)
    requires Reached(r, from) && from <= now && Underway(r, s, i, now) && r.members[i].connected
    requires Commands.ActDisconnect(s, r.members[i].id, now) == (t, Ok) && t.phase != Ended && AllPlay(t)
    ensures var hostDeadline := if r.members[i].id == r.host then Some(now + HOST_RECONNECT) else r.hostDeadline;
      Reached(Moved(r, i, false, t, hostDeadline), now)
  {
    hide Reached, Rules.Wf, Clock.Tick, Clock.Settled, Commands.ActDisconnect, Tick, ActDisconnect, AllPlay,
      FirstWith;
    Clock.TickSettles(r.game.value, now);
    QuietTick(r, s, now);
    QuietDrop(r.(game := Some(s)), i, t, now);
    var hostDeadline := if r.members[i].id == r.host then Some(now + HOST_RECONNECT) else r.hostDeadline;
    OneCall(r, from, RoomCommand.Disconnect(r.members[i].id), now, r.(game := Some(s)),
      Moved(r, i, false, t, hostDeadline));
  }

  lemma Returns(r: Room, from: Time, i: nat, s: State, t: State, now: Time)
    requires Reached(r, from) && from <= now && Underway(r, s, i, now) && !r.members[i].connected
    requires Commands.ActReconnect(s, r.members[i].id, now) == (t, Ok) && t.phase != Ended && AllPlay(t)
    requires r.members[i].id != r.host && r.pendingFrom == ""
    ensures Reached(Moved(r, i, true, t, r.hostDeadline), now)
  {
    hide Reached, Rules.Wf, Clock.Tick, Clock.Settled, Commands.ActReconnect, Tick, ActReconnect, AllPlay, FirstWith;
    Clock.TickSettles(r.game.value, now);
    QuietTick(r, s, now);
    QuietReturn(r.(game := Some(s)), i, t, now);
    OneCall(r, from, RoomCommand.Reconnect(r.members[i].id), now, r.(game := Some(s)),
      Moved(r, i, true, t, r.hostDeadline));
  }

  /** The table between calls: four in the room and in the match, under their own names. */
  ghost predicate IsTable(r: Room) {
    && RoomWf(r) && r.status == InGame && |r.members| == 4 && r.participants == ["x", "h", "a", "b"]
    && r.members[0].id == "x" && r.members[1].id == "h" && r.members[2].id == "a" && r.members[3].id == "b"
  }

  lemma TableIsTable(p: Policy, x: bool, h: bool, a: bool, b: bool, host: Id, hostDeadline: Option<Time>,
    transfer: Option<Transfer>, version: nat, s: State)
    requires Rules.Wf(s)
    ensures IsTable(Table(p, x, h, a, b, host, hostDeadline, transfer, version, s))
  {
    hide Rules.Wf;
  }

  lemma TableUnderway(r: Room, s: State, i: nat, now: Time)
    requires IsTable(r) && i < 4 && Rules.Wf(s) && Clock.Tick(r.game.value, now) == s && s.phase != Ended && AllPlay(s)
    requires r.hostDeadline.None? || now < r.hostDeadline.value
    ensures Underway(r, s, i, now)
  {
    hide Rules.Wf, Clock.Tick;
    NamesDiffer();
    var names: seq<Id> := ["x", "h", "a", "b"];
    assert r.members[i].id == names[i];
  }

  lemma EverybodyPlays(s: State, p: Policy, phase: Phase, deadline: Time, turnDeadline: Option<Time>, waits: bool,
    version: nat, b: Player, h: Player, a: Player, x: Player)
    requires s == Match(p, phase, deadline, turnDeadline, waits, version, b, h, a, x)
    requires b.status == Active && h.status == Active && a.status == Active && x.status == Active
    ensures AllPlay(s)
  {
  }

  lemma TurnPlays(p: Policy, version: nat, b: Player, h: Player, a: Player, x: Player)
    requires b.status == Active && h.status == Active && a.status == Active && x.status == Active
    ensures AllPlay(Turn(p, version, b, h, a, x)) && Turn(p, version, b, h, a, x).phase == Hints
  {
    EverybodyPlays(Turn(p, version, b, h, a, x), p, Hints, At(110), Some(At(110)), false, version, b, h, a, x);
  }

  ghost function SecondMatch(p: Policy): State {
    Match(p, RoleReveal, At(20), None, false, 2, CALM, Playing(false, 0, Some(At(30))), CALM, CALM)
  }

  /** At 0 seconds "h" drops. */
  lemma HDropsAtOnce(p: Policy)
    requires p.Complete() && Reached(Table(p, true, true, true, true, "x", None, None, 4, FirstMatch(p)), 0)
    ensures Reached(Table(p, true, false, true, true, "x", None, None, 5, SecondMatch(p)), 0)
  {
    hide Reached, Rules.Wf, Clock.Tick, Commands.ActDisconnect, Commands.ActReconnect, Underway, AllPlay;
    NamesDiffer();
    var s := FirstMatch(p);
    var r := Table(p, true, true, true, true, "x", None, None, 4, s);
    MatchIsIdle(p, RoleReveal, At(20), None, false, 1, CALM, CALM, CALM, CALM, 0);
    EverybodyPlays(s, p, RoleReveal, At(20), None, false, 1, CALM, CALM, CALM, CALM);
    EverybodyPlays(SecondMatch(p), p, RoleReveal, At(20), None, false, 2, CALM, Playing(false, 0, Some(At(30))), CALM,
      CALM);
    DropBeforeTurn(p);
    TableIsTable(p, true, true, true, true, "x", None, None, 4, s);
    TableUnderway(r, s, 1, 0);
    Drops(r, 0, 1, s, SecondMatch(p), 0);
    assert Moved(r, 1, false, SecondMatch(p), None) ==
      Table(p, true, false, true, true, "x", None, None, 5, SecondMatch(p));
  }

  /** At 31 seconds "h" is back, with a strike; the first turn is "b"'s. */
  lemma HReturns(p: Policy)
    requires p.Complete() && Reached(Table(p, true, false, true, true, "x", None, None, 5, SecondMatch(p)), 0)
    ensures Reached(Table(p, true, true, true, true, "x", None, None, 6,
      Turn(p, 5, CALM, Playing(true, 1, None), CALM, CALM)), At(31))
  {
    hide Reached, Rules.Wf, Clock.Tick, Commands.ActDisconnect, Commands.ActReconnect, Underway, AllPlay;
    NamesDiffer();
    var r := Table(p, true, false, true, true, "x", None, None, 5, SecondMatch(p));
    var s := Turn(p, 4, CALM, Playing(false, 1, None), CALM, CALM);
    var t := Turn(p, 5, CALM, Playing(true, 1, None), CALM, CALM);
    RevealEnds(p, 2, Playing(false, 0, Some(At(30))), At(31));
    StrikeOfH(p, 3, 0, At(30), CALM, At(31));
    ReturnInTurn(p, 4, CALM, Playing(false, 1, None), CALM, CALM, At(31));
    TurnPlays(p, 4, CALM, Playing(false, 1, None), CALM, CALM);
    TurnPlays(p, 5, CALM, Playing(true, 1, None), CALM, CALM);
    TurnOfH(p, 4, Playing(false, 1, None), CALM, Playing(true, 1, None));
    TableIsTable(p, true, false, true, true, "x", None, None, 5, SecondMatch(p));
    TableUnderway(r, s, 1, At(31));
    Returns(r, 0, 1, s, t, At(31));
    assert Moved(r, 1, true, t, None) == Table(p, true, true, true, true, "x", None, None, 6, t);
  }

  /** In the first turn "h" drops, as a member or as the host. */
  lemma HDrops(p: Policy, strikes: nat, x: Player, xc: bool, host: Id, transfer: Option<Transfer>, version: nat, m: nat,
    from: Time, now: Time)
    requires p.Complete() && from <= now < At(110) && Ahead(x, now) && x.status == Active
    requires Reached(Table(p, xc, true, true, true, host, None, transfer, version,
      Turn(p, m, CALM, Playing(true, strikes, None), CALM, x)), from)
    ensures Reached(Table(p, xc, false, true, true, host, if host == "h" then Some(now + At(30))
      else None, transfer, version + 1,
        Turn(p, m + 1, CALM, Playing(false, strikes, Some(now + At(30))), CALM, x)), now)
  {
    hide Reached, Rules.Wf, Clock.Tick, Commands.ActDisconnect, Commands.ActReconnect, Underway, AllPlay;
    NamesDiffer();
    var h, next := Playing(true, strikes, None), Playing(false, strikes, Some(now + At(30)));
    var s, t := Turn(p, m, CALM, h, CALM, x), Turn(p, m + 1, CALM, next, CALM, x);
    var r := Table(p, xc, true, true, true, host, None, transfer, version, s);
    MatchIsIdle(p, Hints, At(110), Some(At(110)), false, m, CALM, h, CALM, x, now);
    DropInTurn(p, m, CALM, h, CALM, x, "h", now);
    TurnPlays(p, m, CALM, h, CALM, x);
    TurnPlays(p, m + 1, CALM, next, CALM, x);
    TurnOfH(p, m, h, x, next);
    TableIsTable(p, xc, true, true, true, host, None, transfer, version, s);
    TableUnderway(r, s, 1, now);
    Drops(r, from, 1, s, t, now);
    HMoved(p, xc, host, transfer, version, s, t, if host == "h" then Some(now + At(30)) else None);
  }

  lemma TurnOfH(p: Policy, m: nat, h: Player, x: Player, next: Player)
    ensures var s := Turn(p, m, CALM, h, CALM, x);
      s.(players := s.players["h" := next], version := m + 1) == Turn(p, m + 1, CALM, next, CALM, x)
  {
    NamesDiffer();
    assert Turn(p, m, CALM, h, CALM, x).players["h" := next] == Turn(p, m + 1, CALM, next, CALM, x).players;
  }

  lemma HMoved(p: Policy, xc: bool, host: Id, transfer: Option<Transfer>, version: nat, s: State, t: State,
    clock: Option<Time>)
    ensures Moved(Table(p, xc, true, true, true, host, None, transfer, version, s), 1, false, t, clock)
      == Table(p, xc, false, true, true, host, clock, transfer, version + 1, t)
  {
  }

  /** At 40 seconds "x", the host, drops too. */
  lemma XDrops(p: Policy)
    requires p.Complete()
    requires Reached(Table(p, true, false, true, true, "x", None, None, 7,
      Turn(p, 6, CALM, Playing(false, 1, Some(At(61))), CALM, CALM)), At(31))
    ensures Reached(Table(p, false, false, true, true, "x", Some(At(70)), None, 8,
      Turn(p, 7, CALM, Playing(false, 1, Some(At(61))), CALM, Playing(false, 0, Some(At(70))))), At(40))
  {
    hide Reached, Rules.Wf, Clock.Tick, Commands.ActDisconnect, Commands.ActReconnect, Underway, AllPlay;
    NamesDiffer();
    var h := Playing(false, 1, Some(At(61)));
    var s, t := Turn(p, 6, CALM, h, CALM, CALM), Turn(p, 7, CALM, h, CALM, Playing(false, 0, Some(At(70))));
    var r := Table(p, true, false, true, true, "x", None, None, 7, s);
    MatchIsIdle(p, Hints, At(110), Some(At(110)), false, 6, CALM, h, CALM, CALM, At(40));
    DropInTurn(p, 6, CALM, h, CALM, CALM, "x", At(40));
    TurnPlays(p, 6, CALM, h, CALM, CALM);
    TurnPlays(p, 7, CALM, h, CALM, Playing(false, 0, Some(At(70))));
    assert s.players["x" := Playing(false, 0, Some(At(70)))] == t.players;
    TableIsTable(p, true, false, true, true, "x", None, None, 7, s);
    TableUnderway(r, s, 0, At(40));
    Drops(r, At(31), 0, s, t, At(40));
    assert Moved(r, 0, false, t, Some(At(70))) == Table(p, false, false, true, true, "x", Some(At(70)), None, 8, t);
  }

  /** At 62 seconds "h" is back again, with two strikes. */
  lemma HReturnsAgain(p: Policy)
    requires p.Complete()
    requires Reached(Table(p, false, false, true, true, "x", Some(At(70)), None, 8,
      Turn(p, 7, CALM, Playing(false, 1, Some(At(61))), CALM, Playing(false, 0, Some(At(70))))), At(40))
    ensures Reached(Table(p, false, true, true, true, "x", Some(At(70)), None, 9,
      Turn(p, 9, CALM, Playing(true, 2, None), CALM, Playing(false, 0, Some(At(70))))), At(62))
  {
    hide Reached, Rules.Wf, Clock.Tick, Commands.ActDisconnect, Commands.ActReconnect, Underway, AllPlay;
    NamesDiffer();
    var x := Playing(false, 0, Some(At(70)));
    var before := Turn(p, 7, CALM, Playing(false, 1, Some(At(61))), CALM, x);
    var r := Table(p, false, false, true, true, "x", Some(At(70)), None, 8, before);
    var s, t := Turn(p, 8, CALM, Playing(false, 2, None), CALM, x), Turn(p, 9, CALM, Playing(true, 2, None), CALM, x);
    StrikeOfH(p, 7, 1, At(61), x, At(62));
    ReturnInTurn(p, 8, CALM, Playing(false, 2, None), CALM, x, At(62));
    TurnPlays(p, 8, CALM, Playing(false, 2, None), CALM, x);
    TurnPlays(p, 9, CALM, Playing(true, 2, None), CALM, x);
    TurnOfH(p, 8, Playing(false, 2, None), x, Playing(true, 2, None));
    TableIsTable(p, false, false, true, true, "x", Some(At(70)), None, 8, before);
    TableUnderway(r, s, 1, At(62));
    Returns(r, At(40), 1, s, t, At(62));
    assert Moved(r, 1, true, t, Some(At(70))) == Table(p, false, true, true, true, "x", Some(At(70)), None, 9, t);
  }

  const HANDED := Some(Transfer("x", "h", HostTimeout))

  /** At 70 seconds "x" has been away too long, and "h" is the host. */
  lemma HTakesOver(p: Policy)
    requires p.Complete()
    requires Reached(Table(p, false, true, true, true, "x", Some(At(70)), None, 9,
      Turn(p, 9, CALM, Playing(true, 2, None), CALM, Playing(false, 0, Some(At(70))))), At(62))
    ensures Reached(Table(p, false, true, true, true, "h", None, HANDED, 10,
      Turn(p, 10, CALM, Playing(true, 2, None), CALM, Playing(false, 1, None))), At(70))
  {
    hide Reached, Rules.Wf, Clock.Tick, AllPlay;
    NamesDiffer();
    var h := Playing(true, 2, None);
    var before := Turn(p, 9, CALM, h, CALM, Playing(false, 0, Some(At(70))));
    var s := Turn(p, 10, CALM, h, CALM, Playing(false, 1, None));
    var r := Table(p, false, true, true, true, "x", Some(At(70)), None, 9, before);
    StrikeOfX(p, 9, h, At(70), At(70));
    TurnPlays(p, 10, CALM, h, CALM, Playing(false, 1, None));
    QuietGame(r, s, At(70));
    HIsNext(r.(game := Some(s)));
    ReachedGoesOn(r, At(62), RoomEvent.Timer(At(70)));
  }

  /** The match's half of a tick from which nobody goes. */
  lemma QuietGame(r: Room, s: State, now: Time)
    requires RoomWf(r) && r.status == InGame && Clock.Tick(r.game.value, now) == s && s.phase != Ended && AllPlay(s)
    ensures TickGame(r, now) == r.(game := Some(s))
  {
    hide Rules.Wf, Clock.Tick;
    Succession.NothingToSync(r.(game := Some(s)), s.setup.order, s.players, now);
  }

  lemma HIsNext(r: Room)
    requires r.host == "x" && r.hostDeadline == Some(At(70))
    requires r.members == [Member("x", false, 0), Member("h", true, 0), Member("a", true, 0), Member("b", true, 0)]
    ensures TickHost(r, At(70)) ==
      r.(host := "h", hostDeadline := None, pendingFrom := "", transfer := HANDED, version := r.version + 1)
  {
    NamesDiffer();
    var i := Heir(r.members, "x");
    assert r.members[1].connected && r.members[1].id == "h";
    assert i == 1;
  }

  /** At 72 seconds "a" drops. */
  lemma ADrops(p: Policy)
    requires p.Complete()
    requires Reached(Table(p, false, false, true, true, "h", Some(At(101)), HANDED, 11,
      Turn(p, 11, CALM, Playing(false, 2, Some(At(101))), CALM, Playing(false, 1, None))), At(71))
    ensures Reached(Table(p, false, false, false, true, "h", Some(At(101)), HANDED, 12,
      Turn(p, 12, CALM, Playing(false, 2, Some(At(101))), Playing(false, 0, Some(At(102))),
        Playing(false, 1, None))), At(72))
  {
    hide Reached, Rules.Wf, Clock.Tick, Commands.ActDisconnect, Commands.ActReconnect, Underway, AllPlay;
    NamesDiffer();
    var h, a, x := Playing(false, 2, Some(At(101))), Playing(false, 0, Some(At(102))), Playing(false, 1, None);
    var s, t := Turn(p, 11, CALM, h, CALM, x), Turn(p, 12, CALM, h, a, x);
    var r := Table(p, false, false, true, true, "h", Some(At(101)), HANDED, 11, s);
    MatchIsIdle(p, Hints, At(110), Some(At(110)), false, 11, CALM, h, CALM, x, At(72));
    DropInTurn(p, 11, CALM, h, CALM, x, "a", At(72));
    TurnPlays(p, 11, CALM, h, CALM, x);
    TurnPlays(p, 12, CALM, h, a, x);
    assert s.players["a" := a] == t.players;
    TableIsTable(p, false, false, true, true, "h", Some(At(101)), HANDED, 11, s);
    TableUnderway(r, s, 2, At(72));
    Drops(r, At(71), 2, s, t, At(72));
    assert Moved(r, 2, false, t, Some(At(101))) ==
      Table(p, false, false, false, true, "h", Some(At(101)), HANDED, 12, t);
  }

  /** The match nobody is connected to any more, with the third strike of "h" to come at 101 seconds. */
  ghost function LastMatch(p: Policy): State {
    Match(p, Hints, At(102), Some(At(110)), true, 13, Playing(false, 0, Some(At(102))),
      Playing(false, 2, Some(At(101))), Playing(false, 0, Some(At(102))), Playing(false, 1, None))
  }

  ghost function LastTable(p: Policy): Room {
    Table(p, false, false, false, false, "h", Some(At(101)), HANDED, 13, LastMatch(p))
  }

  /** ... and so does "b", in the middle of their turn. */
  lemma BDrops(p: Policy)
    requires p.Complete()
    requires Reached(Table(p, false, false, false, true, "h", Some(At(101)), HANDED, 12,
      Turn(p, 12, CALM, Playing(false, 2, Some(At(101))), Playing(false, 0, Some(At(102))),
        Playing(false, 1, None))), At(72))
    ensures Reached(LastTable(p), At(72))
  {
    hide Reached, Rules.Wf, Clock.Tick, Commands.ActDisconnect, Commands.ActReconnect, Underway, AllPlay;
    NamesDiffer();
    var h, a, x := Playing(false, 2, Some(At(101))), Playing(false, 0, Some(At(102))), Playing(false, 1, None);
    var s, t := Turn(p, 12, CALM, h, a, x), LastMatch(p);
    var r := Table(p, false, false, false, true, "h", Some(At(101)), HANDED, 12, s);
    MatchIsIdle(p, Hints, At(110), Some(At(110)), false, 12, CALM, h, a, x, At(72));
    HolderDrops(p, 12, h, a, x);
    TurnPlays(p, 12, CALM, h, a, x);
    EverybodyPlays(t, p, Hints, At(102), Some(At(110)), true, 13, Playing(false, 0, Some(At(102))), h, a, x);
    TableIsTable(p, false, false, false, true, "h", Some(At(101)), HANDED, 12, s);
    TableUnderway(r, s, 3, At(72));
    Drops(r, At(72), 3, s, t, At(72));
    assert Moved(r, 3, false, t, Some(At(101))) == LastTable(p);
  }

  // ----- main result -----

  lemma LastTableIsReached(p: Policy)
    requires p.Complete()
    ensures Reached(LastTable(p), At(72))
  {
    hide Reached, Table, Turn;
    NamesDiffer();
    Gathers(p);
    StartsUp(p);
    HDropsAtOnce(p);
    HReturns(p);
    HDrops(p, 1, CALM, true, "x", None, 6, 5, At(31), At(31));
    XDrops(p);
    HReturnsAgain(p);
    HTakesOver(p);
    HDrops(p, 2, Playing(false, 1, None), false, "h", HANDED, 10, 10, At(70), At(71));
    ADrops(p);
    BDrops(p);
  }

  lemma Gathers(p: Policy)
    ensures Reached(Waiting(p, FOUR, 3), 0)
  {
    hide Reached;
    NamesDiffer();
    var x := [Member("x", true, 0)];
    Opens(p);
    Joins(p, x, 0, "h");
    Joins(p, x + [Member("h", true, 0)], 1, "a");
    Joins(p, x + [Member("h", true, 0)] + [Member("a", true, 0)], 2, "b");
    assert x + [Member("h", true, 0)] + [Member("a", true, 0)] + [Member("b", true, 0)] == FOUR;
  }

  lemma LastTableStrikesOut(p: Policy)
    requires p.Complete()
    ensures RoomWf(LastTable(p)) && LastTable(p).status == InGame
    ensures Ticks.HostStrikesOut(LastTable(p), At(101), At(101) + 1)
  {
    hide Reached, Rules.Wf, Clock.NextTimer, Inv;
    NamesDiffer();
    LastTableIsReached(p);
    ReachedInv(LastTable(p), At(72));
    var s := LastMatch(p);
    MatchIsWf(p, Hints, At(102), Some(At(110)), true, 13, Playing(false, 0, Some(At(102))),
      Playing(false, 2, Some(At(101))), Playing(false, 0, Some(At(102))), Playing(false, 1, None));
    FirstToStrike(s, "h", At(101));
  }

  /** Ticks of a reachable room need not compose: here a tick at 101 seconds changes what the next one leaves. */
  lemma RoomTicksNeedNotCompose(p: Policy)
    requires p.Complete()
    ensures RoomWf(LastTable(p)) && Reached(LastTable(p), At(72))
    ensures !Departures.Alike(Tick(Tick(LastTable(p), At(101)), At(101) + 1), Tick(LastTable(p), At(101) + 1))
  {
    hide Reached, Rules.Wf, LastTable, Tick, Ticks.HostStrikesOut;
    LastTableIsReached(p);
    LastTableStrikesOut(p);
    Ticks.RoomTicksDiffer(LastTable(p), At(72), At(101), At(101), At(101) + 1);
  }
}
