/**
 * When ticks of a room compose, exactly: always while anybody is connected, and in a dark room unless the
 * earlier tick hands the room over to somebody who stays.
 */
module RoomTicks {
  import opened Basics
  import opened MatchTypes
  import opened RoomRules
  import opened RoomInvariant
  import opened RoomAgreement
  import opened RoomReach
  import opened RoomSuccession
  import opened RoomDepartures
  import Rules = MatchRules
  import Clock = MatchClock
  import Openings = MatchOpening
  import Fates = MatchFates
  import Absence = MatchAbsence
  import Progress = MatchProgress
  import Commands = MatchCommands
  import Strikes = RoomStrikes

  // ----- a tick, in one piece -----

  /** The match ticked on, and the lobby if it has ended. */
  ghost function Onto(r: Room, s: State): Room {
    if s.phase == Ended then Bumped(r.(game := Some(s), status := Lobby)) else r.(game := Some(s))
  }

  /** The members' and the host's part of it. */
  ghost function Once(r: Room, q: map<Id, Player>, now: Time): Room { TickHost(After(r, q, now), now) }

  ghost function Ticked(r: Room, s: State, now: Time): Room { Onto(Once(r, s.players, now), s) }

  lemma TickPasses(r: Room, now: Time)
    requires Inv(r) && r.status == InGame
    ensures Passing(r.members, Clock.Tick(r.game.value, now).players)
  {
    hide Openings.Reachable, Rules.Wf, Clock.Tick;
    var s := r.game.value;
    FirstIsPlayer(r);
    TickedOutAreOffline(r, now);
    TickKeepsPlayers(s, now);
    forall m <- r.members | Out(Clock.Tick(s, now).players, m.id)
      ensures Clock.Tick(s, now).players[m.id].status == Removed
    {
      assert IsMember(r.members, m.id);
      Fates.TickSpares(s, now, m.id);
    }
  }

  lemma TickKeepsPlayers(s: State, now: Time)
    requires Rules.Wf(s)
    ensures Clock.Tick(s, now).players.Keys == s.players.Keys && Clock.Tick(s, now).setup == s.setup
  {
    hide Clock.Tick;
  }

  /** The host's half of a tick. */
  lemma HostTick(r: Room, now: Time)
    ensures r.hostDeadline.None? || now < r.hostDeadline.value ==> TickHost(r, now) == r
    ensures r.hostDeadline.Some? && r.hostDeadline.value <= now ==>
      var t := TickHost(r, now);
      match HeirOf(r.members, Outgoing(r))
      case Some(id) =>
        t == r.(host := id, hostDeadline := None, pendingFrom := "", version := r.version + 1,
          transfer := Some(Transfer(Outgoing(r), id, HostTimeout)))
      case None =>
        t == r.(host := "", hostDeadline := None, pendingFrom := Outgoing(r), version := r.version + 1)
  {
  }

  lemma HostTickOnto(r: Room, s: State, now: Time)
    ensures TickHost(Onto(r, s), now) == Onto(TickHost(r, now), s)
  {
    hide TransferHost, TickHost, HeirOf;
    HostTick(r, now);
    HostTick(Onto(r, s), now);
  }

  lemma HostTickAlike(r: Room, t: Room, now: Time)
    requires Alike(r, t)
    ensures Alike(TickHost(r, now), TickHost(t, now))
  {
  }

  lemma OntoAlike(r: Room, t: Room, s: State)
    requires Alike(r, t)
    ensures Alike(Onto(r, s), Onto(t, s))
  {
  }

  lemma OntoAgain(r: Room, s1: State, s: State)
    ensures Onto(r.(game := Some(s1)), s) == Onto(r, s)
  {
  }

  lemma AfterGame(r: Room, s: State, now: Time)
    ensures After(r.(game := Some(s)), s.players, now) == After(r, s.players, now).(game := Some(s))
  {
  }

  lemma SyncIsOnto(r: Room, now: Time)
    requires RoomWf(r) && MatchKnown(r) && r.status == InGame
    ensures var s := Clock.Tick(r.game.value, now);
      TickGame(r, now) == Onto(SyncPlayers(r.(game := Some(s)), s.setup.order, s.players, now), s)
  {
    hide Openings.Reachable, Rules.Wf, Clock.Tick, SyncPlayers;
    FirstIsPlayer(r);
    TickKeepsPlayers(r.game.value, now);
  }

  lemma TickIsTicked(r: Room, now: Time)
    requires Inv(r) && r.status == InGame
    ensures var s := Clock.Tick(r.game.value, now);
      && Alike(Tick(r, now), Ticked(r, s, now))
      && (Clear(r, s.players) ==> Tick(r, now) == Ticked(r, s, now))
  {
    hide Openings.Reachable, Rules.Wf, Clock.Tick, Seated, Passing, After, SyncPlayers, Clear, Together, TickHost, Onto;
    var s := Clock.Tick(r.game.value, now);
    var u, a := r.(game := Some(s)), After(r, s.players, now);
    FirstIsPlayer(r);
    TickPasses(r, now);
    TickKeepsPlayers(r.game.value, now);
    SeatedIgnoresStatus(r);
    SyncIsAfter(u, s.setup.order, s.players, now);
    AfterGame(r, s, now);
    var t := SyncPlayers(u, s.setup.order, s.players, now);
    SyncIsOnto(r, now);
    OntoAgain(a, s, s);
    OntoAlike(t, a.(game := Some(s)), s);
    HostTickAlike(Onto(t, s), Onto(a, s), now);
    HostTickOnto(a, s, now);
    ClearGame(r, s.players, s);
  }

  lemma ClearGame(r: Room, q: map<Id, Player>, s: State)
    ensures Clear(r.(game := Some(s)), q) == Clear(r, q)
  {
  }

  // ----- two ticks -----

  /** Whoever is out at the first tick is out at the second. */
  ghost predicate Onward(p: map<Id, Player>, q: map<Id, Player>) { forall id :: Out(p, id) ==> Out(q, id) }

  /**
   * Nobody is connected, the earlier of two ticks finds the host out of the match, and the first of those
   * left, who takes over and is on the clock from that tick, is still in it at the later one.
   */
  ghost predicate HandsOverInTheDark(r: Room, p: map<Id, Player>, q: map<Id, Player>, t1: Time, t2: Time) {
    && t1 < t2 && Dark(r.members) && Out(p, r.host)
    && Staying(r.members, p) != [] && !Out(q, Staying(r.members, p)[0].id)
  }

  /** A host who goes between two ticks has not run out of time by the first. */
  ghost predicate InTime(r: Room, p: map<Id, Player>, q: map<Id, Player>, t1: Time) {
    Out(q, r.host) && !Out(p, r.host) ==> r.hostDeadline.None? || t1 < r.hostDeadline.value
  }

  lemma SameHeirs(members: seq<Member>, p: map<Id, Player>, q: map<Id, Player>, from: Id)
    requires Passing(members, p) && Passing(members, q) && Onward(p, q)
    ensures Staying(Staying(members, p), q) == Staying(members, q)
    ensures HeirOf(Staying(members, p), from) == HeirOf(members, from) == HeirOf(Staying(members, q), from)
    ensures HeirOf(members, from).Some? ==> !Out(q, HeirOf(members, from).value)
    ensures !Out(q, "")
  {
    hide HeirOf;
    StayingTwice(members, p, q);
    HeirStays(members, p, from);
    HeirStays(members, q, from);
    if HeirOf(members, from).Some? { HeirIsIn(members, q, from); }
  }

  lemma HostStays(r: Room, p: map<Id, Player>, q: map<Id, Player>, t1: Time, t2: Time)
    requires Passing(r.members, p) && Passing(r.members, q) && Onward(p, q) && t1 <= t2
    requires !Out(q, r.host)
    ensures Once(Once(r, p, t1), q, t2) == Once(r, q, t2)
  {
    hide Passing, HeirOf, TransferHost, TickHost;
    SameHeirs(r.members, p, q, Outgoing(r));
    HostTick(After(r, p, t1), t1);
    HostTick(After(Once(r, p, t1), q, t2), t2);
    HostTick(After(r, q, t2), t2);
  }

  lemma HostGoesLater(r: Room, p: map<Id, Player>, q: map<Id, Player>, t1: Time, t2: Time)
    requires Passing(r.members, p) && Passing(r.members, q) && Onward(p, q) && t1 <= t2
    requires Out(q, r.host) && !Out(p, r.host) && InTime(r, p, q, t1)
    ensures Once(Once(r, p, t1), q, t2) == Once(r, q, t2)
  {
    hide Passing, HeirOf, TransferHost, TickHost;
    SameHeirs(r.members, p, q, r.host);
    HostTick(After(r, p, t1), t1);
    HostTick(After(Once(r, p, t1), q, t2), t2);
    HostTick(After(r, q, t2), t2);
  }

  lemma OutHostIsOffline(r: Room, p: map<Id, Player>)
    requires Passing(r.members, p) && Out(p, r.host)
    ensures Dark(r.members) <==> HeirOf(r.members, r.host).None?
  {
    hide HeirOf, Dark;
    DarkIsHeirless(r.members, r.host);
  }

  lemma HostGoesInTheLight(r: Room, p: map<Id, Player>, q: map<Id, Player>, t1: Time, t2: Time)
    requires Passing(r.members, p) && Passing(r.members, q) && Onward(p, q) && t1 <= t2
    requires Out(p, r.host) && !Dark(r.members)
    ensures Once(Once(r, p, t1), q, t2) == Once(r, q, t2)
  {
    hide Passing, HeirOf, TransferHost, TickHost, Dark;
    OutHostIsOffline(r, p);
    SameHeirs(r.members, p, q, r.host);
    HostTick(After(r, p, t1), t1);
    HostTick(After(Once(r, p, t1), q, t2), t2);
    HostTick(After(r, q, t2), t2);
  }

  /** The one who takes over in the dark can only be followed by one in the dark. */
  lemma FirstInTheDark(members: seq<Member>, p: map<Id, Player>)
    requires Passing(members, p) && Dark(members) && Staying(members, p) != []
    ensures var st := Staying(members, p);
      st[0].id != "" && HeirOf(st, st[0].id).None? && !Out(p, st[0].id)
  {
    hide HeirOf;
    StayingMembers(members, p);
    IdsAreIds(members);
    var st := Staying(members, p);
    assert st[0] in st;
    DarkIsHeirless(st, st[0].id);
  }

  lemma HostGoesInTheDark(r: Room, p: map<Id, Player>, q: map<Id, Player>, t1: Time, t2: Time)
    requires Passing(r.members, p) && Passing(r.members, q) && Onward(p, q) && t1 <= t2
    requires Out(p, r.host) && Dark(r.members)
    ensures HandsOverInTheDark(r, p, q, t1, t2) ==> !Alike(Once(Once(r, p, t1), q, t2), Once(r, q, t2))
    ensures !HandsOverInTheDark(r, p, q, t1, t2) ==> Once(Once(r, p, t1), q, t2) == Once(r, q, t2)
  {
    hide Passing, HeirOf, TransferHost, TickHost, Dark;
    OutHostIsOffline(r, p);
    SameHeirs(r.members, p, q, r.host);
    if Staying(r.members, p) != [] { FirstInTheDark(r.members, p); }
    HostTick(After(r, p, t1), t1);
    HostTick(After(Once(r, p, t1), q, t2), t2);
    HostTick(After(r, q, t2), t2);
  }

  lemma TwiceOrOnce(r: Room, p: map<Id, Player>, q: map<Id, Player>, t1: Time, t2: Time)
    requires Passing(r.members, p) && Passing(r.members, q) && Onward(p, q) && t1 <= t2 && InTime(r, p, q, t1)
    ensures HandsOverInTheDark(r, p, q, t1, t2) ==> !Alike(Once(Once(r, p, t1), q, t2), Once(r, q, t2))
    ensures !HandsOverInTheDark(r, p, q, t1, t2) ==> Once(Once(r, p, t1), q, t2) == Once(r, q, t2)
  {
    hide Passing, Dark, Once;
    if !Out(q, r.host) {
      HostStays(r, p, q, t1, t2);
    } else if !Out(p, r.host) {
      HostGoesLater(r, p, q, t1, t2);
    } else if Dark(r.members) {
      HostGoesInTheDark(r, p, q, t1, t2);
    } else {
      HostGoesInTheLight(r, p, q, t1, t2);
    }
  }

  lemma OnceFrame(r: Room, q: map<Id, Player>, now: Time, s: State)
    ensures Once(r, q, now).game == r.game && Once(r, q, now).status == r.status
    ensures Once(r.(game := Some(s)), q, now) == Once(r, q, now).(game := Some(s))
  {
    hide TransferHost, TickHost, HeirOf;
    HostTickGame(After(r, q, now), s, now);
    HostTick(After(r, q, now), now);
  }

  lemma HostTickGame(r: Room, s: State, now: Time)
    ensures TickHost(r.(game := Some(s)), now) == TickHost(r, now).(game := Some(s))
  {
    hide TransferHost, TickHost, HeirOf;
    HostTick(r, now);
    HostTick(r.(game := Some(s)), now);
  }

  lemma OnceAlike(r: Room, t: Room, q: map<Id, Player>, now: Time)
    requires Alike(r, t)
    ensures Alike(Once(r, q, now), Once(t, q, now))
  {
    hide TickHost;
    HostTickAlike(After(r, q, now), After(t, q, now), now);
  }

  lemma AlikeOnto(r: Room, t: Room, s: State)
    requires r.status == t.status && r.game == t.game
    ensures Alike(Onto(r, s), Onto(t, s)) <==> Alike(r, t)
    ensures Onto(r, s) == Onto(t, s) <==> r == t
  {
  }

  lemma NobodyOutAfter(r: Room, p: map<Id, Player>, now: Time)
    requires Passing(r.members, p)
    ensures Once(r, p, now).members == Staying(r.members, p) && !Out(p, Once(r, p, now).host)
  {
    hide HeirOf, TransferHost, TickHost, Passing, Dark;
    HostTick(After(r, p, now), now);
    SameHeirs(r.members, p, p, Outgoing(r));
    if Out(p, r.host) {
      OutHostIsOffline(r, p);
      if Dark(r.members) && Staying(r.members, p) != [] { FirstInTheDark(r.members, p); }
    }
  }

  /** ... so following the same match again changes nothing. */
  lemma OnceSettles(r: Room, p: map<Id, Player>, t1: Time, t2: Time)
    requires Passing(r.members, p)
    ensures Once(Once(r, p, t1), p, t2) == TickHost(Once(r, p, t1), t2)
  {
    hide TickHost, Passing, After;
    NobodyOutAfter(r, p, t1);
    StayingMembers(r.members, p);
    NothingAfter(Once(r, p, t1), p, t2);
  }

  // ----- main results -----

  lemma EndedTickStays(s: State, now: Time)
    requires Rules.Wf(s) && s.phase == Ended
    ensures Clock.Tick(s, now) == s
  {
  }

  lemma TicksOnward(r: Room, t1: Time, t2: Time)
    requires Inv(r) && r.status == InGame && t1 <= t2
    ensures Onward(Clock.Tick(r.game.value, t1).players, Clock.Tick(r.game.value, t2).players)
  {
    hide Openings.Reachable, Rules.Wf, Clock.Tick, Seated, Together;
    var s := Clock.Tick(r.game.value, t1);
    Clock.TickComposes(r.game.value, t1, t2);
    forall id | Out(s.players, id) ensures Out(Clock.Tick(r.game.value, t2).players, id) {
      Fates.TickSpares(s, t2, id);
    }
  }

  /** The players of the match as a tick at `now` leaves them. */
  ghost function Then(r: Room, now: Time): map<Id, Player>
    requires RoomWf(r) && r.status == InGame
  {
    Clock.Tick(r.game.value, now).players
  }

  lemma ClearOnce(r: Room, p: map<Id, Player>, q: map<Id, Player>, now: Time)
    requires Passing(r.members, p) && Passing(r.members, q) && Onward(p, q) && Clear(r, q)
    ensures Clear(r, p) && Clear(Once(r, p, now), q)
  {
    hide HeirOf, TransferHost, TickHost, Passing, Dark;
    HostTick(After(r, p, now), now);
    SameHeirs(r.members, p, q, Outgoing(r));
    if Out(q, r.host) { StillLight(r.members, p); }
  }

  lemma StillLight(members: seq<Member>, p: map<Id, Player>)
    requires Passing(members, p) && !Dark(members)
    ensures !Dark(Staying(members, p))
  {
    StayingMembers(members, p);
    var m :| m in members && m.connected;
    assert m in Staying(members, p);
  }

  /** Two ticks, in one piece. */
  ghost predicate Twice(r: Room, t1: Time, t2: Time)
    requires RoomWf(r) && r.status == InGame
  {
    var p, q, s := Then(r, t1), Then(r, t2), Clock.Tick(r.game.value, t2);
    && Alike(Tick(Tick(r, t1), t2), Onto(Once(Once(r, p, t1), q, t2), s))
    && (Clear(r, q) ==> Tick(Tick(r, t1), t2) == Onto(Once(Once(r, p, t1), q, t2), s))
  }

  lemma TwiceAtTheEnd(r: Room, t1: Time, t2: Time)
    requires Inv(r) && r.status == InGame && t1 <= t2 && Clock.Tick(r.game.value, t1).phase == Ended
    ensures Twice(r, t1, t2)
  {
    hide Openings.Reachable, Rules.Wf, Clock.Tick, Seated, Agrees, Passing, Once, TickHost, Clear, SyncGame;
    var s := Clock.Tick(r.game.value, t1);
    var u, v := Tick(r, t1), Once(r, s.players, t1);
    Clock.TickComposes(r.game.value, t1, t2);
    EndedTickStays(s, t2);
    TickIsTicked(r, t1);
    TickPasses(r, t1);
    OnceSettles(r, s.players, t1, t2);
    HostTickAlike(u, Onto(v, s), t2);
    HostTickOnto(v, s, t2);
    assert Tick(u, t2) == TickHost(u, t2);
  }

  lemma TwiceInGame(r: Room, t1: Time, t2: Time)
    requires Inv(r) && r.status == InGame && t1 <= t2 && Clock.Tick(r.game.value, t1).phase != Ended
    ensures Twice(r, t1, t2)
  {
    hide Openings.Reachable, Rules.Wf, Clock.Tick, Seated, Agrees, Passing, Once, TickHost, Clear, Tick;
    var s1, s2 := Clock.Tick(r.game.value, t1), Clock.Tick(r.game.value, t2);
    var u, v := Tick(r, t1), Once(r, s1.players, t1);
    Clock.TickComposes(r.game.value, t1, t2);
    TicksOnward(r, t1, t2);
    TickIsTicked(r, t1);
    TickPasses(r, t1);
    TickPasses(r, t2);
    TickInv(r, t1);
    OnceFrame(r, s1.players, t1, s1);
    OnceFrame(v, s2.players, t2, s1);
    TickIsTicked(u, t2);
    OnceAlike(u, v.(game := Some(s1)), s2.players, t2);
    OntoAlike(Once(u, s2.players, t2), Once(v, s2.players, t2).(game := Some(s1)), s2);
    OntoAgain(Once(v, s2.players, t2), s1, s2);
    if Clear(r, s2.players) {
      ClearOnce(r, s1.players, s2.players, t1);
      ClearGame(v, s2.players, s1);
    }
  }

  lemma DarkOrNot(r: Room, t1: Time, t2: Time)
    requires Inv(r) && r.status == InGame && t1 <= t2 && InTime(r, Then(r, t1), Then(r, t2), t1)
    ensures var dark := HandsOverInTheDark(r, Then(r, t1), Then(r, t2), t1, t2);
      && (Alike(Tick(Tick(r, t1), t2), Tick(r, t2)) <==> !dark)
      && (!dark && Clear(r, Then(r, t2)) ==> Tick(Tick(r, t1), t2) == Tick(r, t2))
  {
    hide Openings.Reachable, Rules.Wf, Clock.Tick, Seated, Agrees, Passing, Once, TickHost, Clear, Tick, Onto,
      HandsOverInTheDark;
    var s := Clock.Tick(r.game.value, t2);
    var p, q := Then(r, t1), Then(r, t2);
    TicksOnward(r, t1, t2);
    TickPasses(r, t1);
    TickPasses(r, t2);
    if Clock.Tick(r.game.value, t1).phase == Ended { TwiceAtTheEnd(r, t1, t2); } else { TwiceInGame(r, t1, t2); }
    TickIsTicked(r, t2);
    TwiceOrOnce(r, p, q, t1, t2);
    OnceFrame(r, p, t1, s);
    OnceFrame(Once(r, p, t1), q, t2, s);
    OnceFrame(r, q, t2, s);
    AlikeOnto(Once(Once(r, p, t1), q, t2), Once(r, q, t2), s);
  }

  /** The host's strike comes no later than the hand-over, so a host's time never runs out ahead of it. */
  lemma HostIsInTime(r: Room, from: Time, t1: Time, t2: Time)
    requires Reached(r, from) && t1 <= t2
    ensures Inv(r)
    ensures r.status == InGame ==> InTime(r, Then(r, t1), Then(r, t2), t1)
  {
    hide Reached, Joined, Seated, Openings.Reachable, Rules.Wf, Clock.Tick, Strikes.Within;
    ReachedInv(r, from);
    Strikes.StrikeComesBeforeHandOver(r, from);
    if r.status == InGame {
      var s := r.game.value;
      HostPlays(r);
      if Out(Then(r, t2), r.host) && !Out(Then(r, t1), r.host) {
        TickKeepsPlayers(s, t2);
        StrikesLater(s, r.host, t1, t2);
      }
    }
  }

  /** Who is removed between two ticks has a strike to come after the first. */
  lemma StrikesLater(s: State, id: Id, t1: Time, t2: Time)
    requires Rules.Wf(s) && Openings.Reachable(s) && t1 <= t2 && id in s.players && s.players[id].Watching()
    requires !Out(Clock.Tick(s, t1).players, id) && Out(Clock.Tick(s, t2).players, id)
    ensures Clock.Pending(s.players, id) && t1 < s.players[id].strikeAt.value
  {
    hide Openings.Reachable, Rules.Wf, Clock.Tick;
    var s1 := Clock.Tick(s, t1);
    Openings.ReachableGoesOn(s, Commands.Timer(t1));
    Openings.ReachableInv(s1);
    Clock.TickComposes(s, t1, t2);
    TickKeepsPlayers(s, t1);
    Fates.TickSpares(s1, t2, id);
    Absence.TickRemoves(s1, t2, id);
    Absence.TickPresence(s, t1, id);
  }

  /** The host's half composes: a timer that has fired leaves no other behind. */
  lemma HostTicksCompose(r: Room, t1: Time, t2: Time)
    requires t1 <= t2
    ensures TickHost(TickHost(r, t1), t2) == TickHost(r, t2)
  {
  }

  lemma LobbyTicksCompose(r: Room, t1: Time, t2: Time)
    requires RoomWf(r) && r.status == Lobby && t1 <= t2
    ensures Tick(Tick(r, t1), t2) == Tick(r, t2)
  {
    hide Rules.Wf, TransferHost;
    HostTicksCompose(r, t1, t2);
  }

  /**
   * When a tick in between makes no difference, exactly: always in a lobby, and always while anybody is
   * connected; and in a dark room, up to the record of the last hand-over, unless a host goes at the
   * earlier tick and is followed by somebody who stays.
   */
  lemma RoomTicksCompose(r: Room, from: Time, t1: Time, t2: Time)
    requires Reached(r, from) && t1 <= t2
    ensures Inv(r)
    ensures r.status == Lobby || !Dark(r.members) ==> Tick(Tick(r, t1), t2) == Tick(r, t2)
    ensures r.status == InGame ==>
      (Alike(Tick(Tick(r, t1), t2), Tick(r, t2)) <==> !HandsOverInTheDark(r, Then(r, t1), Then(r, t2), t1, t2))
    ensures r.status == InGame && !Out(Then(r, t2), r.host) ==> Tick(Tick(r, t1), t2) == Tick(r, t2)
  {
    hide Reached, Joined, Seated, Agrees, Rules.Wf, Clock.Tick, Tick, InTime;
    HostIsInTime(r, from, t1, t2);
    if r.status == Lobby {
      LobbyTicksCompose(r, t1, t2);
    } else {
      TicksOnward(r, t1, t2);
      DarkOrNot(r, t1, t2);
    }
  }

  /** A third strike of a player still playing is due by `now`. */
  ghost predicate StrikesOut(players: map<Id, Player>, id: Id, now: Time) {
    && Clock.Pending(players, id) && players[id].strikeAt.value <= now
    && players[id].disconnects + 1 >= MAX_DISCONNECTS
  }

  /** A player of a match stays in it as long as no third strike is due. */
  lemma StaysIn(s: State, id: Id, now: Time)
    requires Rules.Wf(s) && Openings.Reachable(s) && (id in s.players ==> s.players[id].Watching())
    requires !StrikesOut(s.players, id, now)
    ensures !Out(Clock.Tick(s, now).players, id)
  {
    hide Openings.Reachable, Rules.Wf, Clock.Tick;
    Openings.ReachableInv(s);
    TickKeepsPlayers(s, now);
    if id in s.players {
      Fates.TickSpares(s, now, id);
      if Clock.Tick(s, now).players[id].status == Removed { Absence.TickRemoves(s, now, id); }
    }
  }

  /**
   * What a caller can see beforehand: ticks compose unless nobody is connected and a third strike of the
   * host is due by the later one.
   */
  lemma RoomTicksComposeBeforeTheStrike(r: Room, from: Time, t1: Time, t2: Time)
    requires Reached(r, from) && t1 <= t2
    ensures Inv(r)
    ensures !(r.status == InGame && Dark(r.members) && StrikesOut(r.game.value.players, r.host, t2)) ==>
      Tick(Tick(r, t1), t2) == Tick(r, t2)
  {
    hide Reached, Joined, Seated, Rules.Wf, Clock.Tick, Tick, StrikesOut, Openings.Reachable, Dark;
    ReachedInv(r, from);
    RoomTicksCompose(r, from, t1, t2);
    if r.status == InGame && !StrikesOut(r.game.value.players, r.host, t2) {
      HostPlays(r);
      StaysIn(r.game.value, r.host, t2);
    }
  }

  lemma HostPlays(r: Room)
    requires Inv(r) && r.status == InGame
    ensures r.host in r.game.value.players ==> r.game.value.players[r.host].Watching()
  {
    hide Rules.Wf, Openings.Reachable;
    FirstIsPlayer(r);
  }

  // ----- the record of the last hand-over -----

  /** Some members go at the earlier tick, and others only at the later one. */
  ghost predicate GoSeparately(members: seq<Member>, p: map<Id, Player>, q: map<Id, Player>) {
    && (exists m <- members :: Out(p, m.id))
    && (exists m <- members :: Out(q, m.id) && !Out(p, m.id))
  }

  /** Rooms that differ at most in the host's clock and the match. */
  ghost predicate ButForClock(r: Room, t: Room) { t == r.(hostDeadline := t.hostDeadline, game := t.game) }

  lemma {:induction false} SyncButForClock(r: Room, t: Room, order: seq<Id>, p: map<Id, Player>, q: map<Id, Player>,
    t1: Time, t2: Time)
    requires ButForClock(r, t) && Passing(r.members, p) && Passing(r.members, q) && p.Keys == q.Keys
    requires forall m <- r.members :: Out(p, m.id) <==> Out(q, m.id)
    ensures ButForClock(SyncPlayers(r, order, p, t1), SyncPlayers(t, order, q, t2))
    decreases |order|
  {
    hide Passing, TransferHost, Dismiss;
    if order != [] {
      var id := order[0];
      if id in p {
        if IsMember(r.members, id) && Out(p, id) {
          OutIsRemoved(r.members, p, id);
          OutIsRemoved(r.members, q, id);
          PassingOn(r.members, p, id);
          PassingOn(r.members, q, id);
          DismissMembers(r.members, id);
          StepButForClock(r, t, id, t1, t2);
          SyncButForClock(SyncPlayer(r, id, Removed, t1), SyncPlayer(t, id, Removed, t2), order[1..], p, q, t1, t2);
        } else {
          SyncButForClock(r, t, order[1..], p, q, t1, t2);
        }
      } else {
        SyncButForClock(r, t, order[1..], p, q, t1, t2);
      }
    }
  }

  lemma StepButForClock(r: Room, t: Room, id: Id, t1: Time, t2: Time)
    requires ButForClock(r, t)
    ensures ButForClock(SyncPlayer(r, id, Removed, t1), SyncPlayer(t, id, Removed, t2))
  {
  }

  /** In the dark the host's half of a tick names nobody, so it leaves no record. */
  lemma DarkHostTick(r: Room, now: Time)
    requires Dark(r.members)
    ensures TickHost(r, now).transfer == r.transfer
  {
    hide TransferHost, TickHost, HeirOf;
    HostTick(r, now);
    DarkIsHeirless(r.members, Outgoing(r));
  }

  ghost function Synced(r: Room, now: Time): Room
    requires RoomWf(r) && r.status == InGame
  {
    var s := Clock.Tick(r.game.value, now);
    SyncPlayers(r.(game := Some(s)), s.setup.order, s.players, now)
  }

  lemma DarkTickRecord(r: Room, now: Time)
    requires Inv(r) && r.status == InGame && Dark(r.members)
    ensures Tick(r, now).transfer == Synced(r, now).transfer
    ensures forall m :: m in Tick(r, now).members <==> m in r.members && !Out(Then(r, now), m.id)
  {
    hide Openings.Reachable, Rules.Wf, Clock.Tick, Seated, Together, SyncPlayers, TickHost;
    var s := Clock.Tick(r.game.value, now);
    FirstIsPlayer(r);
    TickKeepsPlayers(r.game.value, now);
    SyncIsOnto(r, now);
    SyncPlayersMembers(r.(game := Some(s)), s.setup.order, s.players, now);
    DarkHostTick(TickGame(r, now), now);
  }

  /** The same members go at either tick: so do the same hosts. */
  lemma SameGoneRecord(r: Room, t1: Time, t2: Time)
    requires Inv(r) && r.status == InGame && Dark(r.members) && t1 <= t2
    requires forall m <- r.members :: Out(Then(r, t1), m.id) <==> Out(Then(r, t2), m.id)
    ensures Tick(Tick(r, t1), t2).transfer == Tick(r, t2).transfer
  {
    hide Openings.Reachable, Rules.Wf, Clock.Tick, Seated, Agrees, SyncPlayers, Tick, Passing;
    var s1, s2, u := Clock.Tick(r.game.value, t1), Clock.Tick(r.game.value, t2), Tick(r, t1);
    TickPasses(r, t1);
    TickPasses(r, t2);
    TickKeepsPlayers(r.game.value, t1);
    TickKeepsPlayers(r.game.value, t2);
    DarkTickRecord(r, t1);
    DarkTickRecord(r, t2);
    SyncButForClock(r.(game := Some(s1)), r.(game := Some(s2)), s1.setup.order, s1.players, s2.players, t1, t2);
    TickIsTicked(r, t1);
    TickInv(r, t1);
    Clock.TickComposes(r.game.value, t1, t2);
    if u.status == InGame {
      DarkTickRecord(u, t2);
      NothingToSync(u.(game := Some(s2)), s2.setup.order, s2.players, t2);
    } else {
      LobbyTick(u, t2);
      DarkHostTick(u, t2);
    }
  }

  lemma LobbyTick(r: Room, now: Time)
    requires RoomWf(r) && r.status == Lobby
    ensures Tick(r, now) == TickHost(r, now)
  {
    hide Rules.Wf;
  }

  /** Nobody goes at the earlier tick: it is as if it had not been. */
  lemma NobodyGone(r: Room, t1: Time, t2: Time)
    requires Inv(r) && r.status == InGame && t1 <= t2 && Clock.Tick(r.game.value, t1).phase != Ended
    requires forall m <- r.members :: !Out(Then(r, t1), m.id)
    requires r.hostDeadline.None? || t1 < r.hostDeadline.value
    ensures Tick(Tick(r, t1), t2) == Tick(r, t2)
  {
    hide Openings.Reachable, Rules.Wf, Clock.Tick, Seated, Together;
    var s1 := Clock.Tick(r.game.value, t1);
    FirstIsPlayer(r);
    TickKeepsPlayers(r.game.value, t1);
    SyncIsOnto(r, t1);
    NothingToSync(r.(game := Some(s1)), s1.setup.order, s1.players, t1);
    assert Tick(r, t1) == r.(game := Some(s1));
    Clock.TickComposes(r.game.value, t1, t2);
  }

  /**
   * The record of the last hand-over agrees too, unless somebody goes at the earlier tick and somebody
   * else, the host among them, at the later one.
   */
  lemma RoomTicksRecordAlike(r: Room, from: Time, t1: Time, t2: Time)
    requires Reached(r, from) && t1 <= t2
    ensures Inv(r)
    ensures r.status == InGame && !GoSeparately(r.members, Then(r, t1), Then(r, t2)) ==>
      (Tick(Tick(r, t1), t2) == Tick(r, t2) <==> !HandsOverInTheDark(r, Then(r, t1), Then(r, t2), t1, t2))
  {
    hide Reached, Joined, Seated, Agrees, Rules.Wf, Clock.Tick, Tick, HandsOverInTheDark, Dark;
    RoomTicksCompose(r, from, t1, t2);
    HostIsInTime(r, from, t1, t2);
    if r.status == InGame && !GoSeparately(r.members, Then(r, t1), Then(r, t2)) && Dark(r.members) &&
      Out(Then(r, t2), r.host) {
      TicksOnward(r, t1, t2);
      if exists m <- r.members :: Out(Then(r, t2), m.id) && !Out(Then(r, t1), m.id) {
        Clock.TickComposes(r.game.value, t1, t2);
        if Clock.Tick(r.game.value, t1).phase == Ended { EndedTickStays(Clock.Tick(r.game.value, t1), t2); }
        TickPasses(r, t2);
        HostSeated(r);
        NobodyGone(r, t1, t2);
      } else {
        SameGoneRecord(r, t1, t2);
      }
    }
  }

  // ----- and where they do not -----

  /**
   * The host's third strike is the next timer of the match, at `d`; nobody else strikes out by `t`, and
   * nobody is connected.
   */
  ghost predicate HostStrikesOut(r: Room, d: Time, t: Time)
    requires RoomWf(r) && r.status == InGame
  {
    var s := r.game.value;
    && Clock.NextTimer(s) == Clock.StrikeDue(d) && StrikesOut(s.players, r.host, d)
    && (forall id <- s.players :: id != r.host ==> !StrikesOut(s.players, id, t))
    && Dark(r.members) && exists m <- r.members :: m.id != r.host
  }

  lemma StruckOutIsRemoved(s: State, id: Id, d: Time, t: Time)
    requires Rules.Wf(s) && Clock.NextTimer(s) == Clock.StrikeDue(d) && StrikesOut(s.players, id, d) && d <= t
    ensures Out(Clock.Tick(s, t).players, id)
  {
    hide Rules.ValidSetup, Rules.Elements, Clock.CountStrikes, Rules.Expire, Progress.Forward;
    DueStrike(s, id, d);
    var next := Clock.Step(s);
    assert next.players[id].status == Removed;
    assert Clock.Tick(s, t) == Clock.Tick(next, t);
    Progress.TickAdvances(next, t);
  }

  lemma DueStrike(s: State, id: Id, d: Time)
    requires Rules.Wf(s) && Clock.NextTimer(s) == Clock.StrikeDue(d) && StrikesOut(s.players, id, d)
    ensures s.phase != Ended && id in Clock.OutAt(s, d)
  {
    assert id in Rules.Elements(s.setup.order);
  }

  /** Then an earlier tick always tells: the successor's clock dates from the tick that found the strike. */
  lemma RoomTicksDiffer(r: Room, from: Time, d: Time, t1: Time, t2: Time)
    requires Reached(r, from) && d <= t1 < t2
    ensures Inv(r)
    ensures r.status == InGame && HostStrikesOut(r, d, t2) ==> !Alike(Tick(Tick(r, t1), t2), Tick(r, t2))
  {
    hide Reached, Joined, Openings.Reachable, Seated, Rules.Wf, Clock.Tick, Tick, Clock.NextTimer, StrikesOut, Dark;
    ReachedInv(r, from);
    RoomTicksCompose(r, from, t1, t2);
    if r.status == InGame && HostStrikesOut(r, d, t2) {
      var s, p := r.game.value, Then(r, t1);
      StruckOutIsRemoved(s, r.host, d, t1);
      StruckOutIsRemoved(s, r.host, d, t2);
      forall m <- r.members | m.id != r.host ensures !Out(p, m.id) && !Out(Then(r, t2), m.id) {
        NotYet(s.players, m.id, t1, t2);
        assert IsMember(r.members, m.id);
        StaysIn(s, m.id, t1);
        StaysIn(s, m.id, t2);
      }
      StayingMembers(r.members, p);
      var m :| m in r.members && m.id != r.host;
      assert m in Staying(r.members, p);
      assert Staying(r.members, p)[0] in Staying(r.members, p);
    }
  }

  lemma NotYet(players: map<Id, Player>, id: Id, t1: Time, t2: Time)
    requires !StrikesOut(players, id, t2) && t1 <= t2
    ensures !StrikesOut(players, id, t1)
  {
  }
}
