/**
 * Counted disconnects against an independent reference: the absences of a player read off
 * the bare list of `Disconnect` and `Reconnect` calls and their times.
 */
module MatchAbsence {
  import opened Basics
  import Words
  import opened MatchTypes
  import opened MatchRules
  import opened MatchClock
  import opened MatchCommands
  import opened MatchInvariant
  import opened MatchKeeps
  import opened MatchOpening
  import opened MatchProgress
  import opened MatchVotes
  import opened MatchPolls
  import opened MatchTurns

  /**
   * A player's presence by the record of calls: `since` is when the running absence began, unless
   * it began before the match; `counted` are the finished absences that lasted long enough.
   */
  datatype Absence = Absence(away: bool, since: Option<Time>, counted: nat)
  {
    /** The absences that have lasted `limit` by `now`. */
    function StrikesBy(limit: int, now: Time): nat {
      counted + if since.Some? && since.value + limit <= now then 1 else 0
    }
  }

  function Follow(a: Absence, id: Id, limit: int, at: Time, c: Command): Absence {
    if c == Disconnect(id) && !a.away then Absence(true, Some(at), a.counted)
    else if c == Reconnect(id) && a.away then Absence(false, None, a.StrikesBy(limit, at))
    else a
  }

  ghost function Record(a: Absence, id: Id, limit: int, events: seq<Event>): Absence
    decreases |events|
  {
    if events == [] then a
    else match events[0]
      case Timer(_) => Record(a, id, limit, events[1..])
      case Call(at, c) => Record(Follow(a, id, limit, at, c), id, limit, events[1..])
  }

  /** While `id` is active in a running match, its presence and strikes are those of the record. */
  ghost predicate Tracks(s: State, id: Id, a: Absence, now: Time)
    requires Wf(s)
  {
    s.phase != Ended && id in Actives(s.players) ==>
      var p, limit := s.players[id], s.setup.cfg.reconnect;
      && p.connected == !a.away && (!a.away ==> a.since.None?)
      && p.disconnects == a.StrikesBy(limit, now)
      && p.strikeAt == if a.since.Some? && now < a.since.value + limit then Some(a.since.value + limit) else None
  }

  // ----- ticks -----

  lemma StepPresence(s: State, id: Id)
    requires Live(s) && id in s.players
    ensures id in Step(s).players
    ensures var p, q, t := s.players[id], Step(s).players[id], NextTimer(s);
      && q.connected == p.connected
      && if t.StrikeDue? && p.status == Active && p.strikeAt == Some(t.at)
         then q.strikeAt == None && q.disconnects == p.disconnects + 1
         else q.strikeAt == p.strikeAt && q.disconnects == p.disconnects
  {
    hide CountStrikes, Expire, ValidSetup, Elements, Actives, EarliestStrike;
    match NextTimer(s)
    case StrikeDue(at) => assert SamePresence(Strike(s, at).players[id], CountStrikes(s, at).players[id]);
    case PhaseDue(at) => assert SamePresence(s.players[id], Expire(s, at).players[id]);
  }

  /** Ticking to `now` counts the strikes due by `now`, once, and touches no other presence. */
  lemma {:induction false} TickPresence(s: State, now: Time, id: Id)
    requires Wf(s) && id in s.players
    requires Tick(s, now).phase != Ended && id in Actives(Tick(s, now).players)
    ensures s.phase != Ended && id in Actives(s.players)
    ensures var p, q := s.players[id], Tick(s, now).players[id];
      && q.connected == p.connected
      && if p.strikeAt.Some? && p.strikeAt.value <= now
         then q.strikeAt == None && q.disconnects == p.disconnects + 1
         else q.strikeAt == p.strikeAt && q.disconnects == p.disconnects
    decreases PendingStrikes(s.players), Overdue(s, now)
  {
    hide Step, ValidSetup, Elements, Forward, Strike;
    TickAdvances(s, now);
    if Due(s, now) {
      StepProgress(s, now);
      StepPresence(s, id);
      TickPresence(Step(s), now, id);
    } else {
      CalmIsSettled(s, now);
      assert Pending(s.players, id) || s.players[id].strikeAt.None?;
    }
  }

  ghost predicate StrikeComes(s: State, id: Id, now: Time)
    requires Wf(s) && id in s.players
  {
    s.phase != Ended && id in Actives(s.players) && s.players[id].strikeAt.Some? && s.players[id].strikeAt.value <= now
  }

  /** Whatever becomes of the player or the match, a tick counts no strike that is not due by then. */
  lemma {:induction false} TickCounts(s: State, now: Time, id: Id)
    requires Wf(s) && id in s.players
    ensures id in Tick(s, now).players
    ensures Tick(s, now).players[id].disconnects <= s.players[id].disconnects + if StrikeComes(s, id, now) then 1 else 0
    decreases PendingStrikes(s.players), Overdue(s, now)
  {
    hide Step, ValidSetup, Elements, Forward, Strike;
    if Due(s, now) {
      StepProgress(s, now);
      StepPresence(s, id);
      StepAdvances(s);
      TickCounts(Step(s), now, id);
    }
  }

  /** A tick removes only a player who is away, and only for a third strike due by then. */
  lemma {:induction false} TickRemoves(s: State, now: Time, id: Id)
    requires Wf(s) && Inv(s) && id in s.players && s.players[id].status != Removed
    requires id in Tick(s, now).players && Tick(s, now).players[id].status == Removed
    ensures StrikeComes(s, id, now) && !s.players[id].connected && s.players[id].disconnects + 1 == MAX_DISCONNECTS
    decreases PendingStrikes(s.players), Overdue(s, now)
  {
    hide Step, ValidSetup, Elements, Forward, Strike, Steady, NotLingering;
    assert StrikesOk(s.players[id]);
    if Due(s, now) {
      StepProgress(s, now);
      StepPresence(s, id);
      StepAdvances(s);
      StepInv(s);
      assert StrikesOk(Step(s).players[id]);
      if Step(s).players[id].status != Removed {
        TickRemoves(Step(s), now, id);
      }
    }
  }

  lemma TickTracks(s: State, id: Id, a: Absence, from: Time, now: Time)
    requires Wf(s) && id in s.players && from <= now && Tracks(s, id, a, from)
    ensures Tracks(Tick(s, now), id, a, now)
  {
    hide Tick, ValidSetup, Elements, Actives;
    if Tick(s, now).phase != Ended && id in Actives(Tick(s, now).players) {
      TickPresence(s, now, id);
    }
  }

  // ----- commands -----

  predicate Moves(c: Command, id: Id) { c == Disconnect(id) || c == Reconnect(id) }

  ghost predicate KeepsPresence(s: State, r: State, id: Id) {
    id in s.players && id in r.players && SamePresence(s.players[id], r.players[id])
  }

  /** Nothing but `Disconnect` and `Reconnect` of a player touches that player's presence. */
  lemma ActPresence(s: State, now: Time, c: Command, id: Id)
    requires Wf(s) && id in s.players && !Moves(c, id)
    ensures KeepsPresence(s, Act(s, now, c).0, id)
  {
    hide ActConfirmRole, ActContinueAfterElimination, ActDisconnect, ActReconnect, ActLeave, ActVote, ActSubmitHint,
      ActReact, ActSubmitGuess, KeepsPresence, Wf;
    match c
    case ConfirmRole(i) => ConfirmPresence(s, now, i, id);
    case ContinueAfterElimination(i) => ConfirmPresence(s, now, i, id);
    case Disconnect(i) => OtherMovePresence(s, now, i, id);
    case Reconnect(i) => OtherMovePresence(s, now, i, id);
    case Leave(i) => LeavePresence(s, now, i, id);
    case Vote(i, target) => VotePresence(s, now, i, target, id);
    case SubmitHint(i, text) => HintPresence(s, now, i, text, id);
    case React(i, k, reaction) => ReactPresence(s, i, k, reaction, id);
    case SubmitGuess(i, guess) => GuessPresence(s, i, guess, id);
  }

  lemma HintPresence(s: State, now: Time, i: Id, text: string, id: Id)
    requires Wf(s) && id in s.players
    ensures KeepsPresence(s, ActSubmitHint(s, i, text, now).0, id)
  {
    hide ValidSetup, Elements, Actives, HintVerdict, Tidy, Shape;
  }

  lemma ReactPresence(s: State, i: Id, k: int, reaction: string, id: Id)
    requires Wf(s) && id in s.players
    ensures KeepsPresence(s, ActReact(s, i, k, reaction).0, id)
  {
    hide ValidSetup, Elements, Actives, Land, Added, Shape, Wf;
  }

  lemma GuessPresence(s: State, i: Id, guess: string, id: Id)
    requires Wf(s) && id in s.players
    ensures KeepsPresence(s, ActSubmitGuess(s, i, guess).0, id)
  {
    hide ValidSetup, Elements, Actives, End, Words.Accepts;
  }

  lemma OtherMovePresence(s: State, now: Time, i: Id, id: Id)
    requires Wf(s) && id in s.players && i != id
    ensures KeepsPresence(s, ActDisconnect(s, i, now).0, id)
    ensures KeepsPresence(s, ActReconnect(s, i, now).0, id)
  {
    hide ActDisconnect, ActReconnect, Wf;
    OtherDropPresence(s, now, i, id);
    OtherReturnPresence(s, now, i, id);
  }

  lemma OtherDropPresence(s: State, now: Time, i: Id, id: Id)
    requires Wf(s) && id in s.players && i != id
    ensures KeepsPresence(s, ActDisconnect(s, i, now).0, id)
  {
    hide ValidSetup, Elements, Actives, MaybeAdvance, Changes;
    if i in s.players && s.phase != Ended { AdvancePresence(Dropped(s, i, now), now, id); }
  }

  lemma OtherReturnPresence(s: State, now: Time, i: Id, id: Id)
    requires Wf(s) && id in s.players && i != id
    ensures KeepsPresence(s, ActReconnect(s, i, now).0, id)
  {
    hide ValidSetup, Elements, Actives, MaybeAdvance, Changes;
    if i in s.players && s.phase != Ended { AdvancePresence(Returned(s, i), now, id); }
  }

  lemma LeavePresence(s: State, now: Time, i: Id, id: Id)
    requires Wf(s) && id in s.players
    ensures KeepsPresence(s, ActLeave(s, i, now).0, id)
  {
    hide ValidSetup, Elements, Actives, RemoveAll;
  }

  lemma AdvancePresence(s: State, now: Time, id: Id)
    requires Live(s) && id in s.players
    ensures KeepsPresence(s, MaybeAdvance(s, now), id)
  {
    hide MaybeAdvance;
  }

  lemma VotePresence(s: State, now: Time, i: Id, target: Id, id: Id)
    requires Wf(s) && id in s.players
    ensures KeepsPresence(s, ActVote(s, i, target, now).0, id)
  {
    hide ValidSetup, MaybeAdvance, Actives, Changes;
    if ActVote(s, i, target, now).1 == Ok {
      AdvancePresence(s.(votes := s.votes[i := target], voteCast := true), now, id);
    }
  }

  lemma ConfirmPresence(s: State, now: Time, i: Id, id: Id)
    requires Wf(s) && id in s.players
    ensures KeepsPresence(s, ActConfirmRole(s, i, now).0, id)
    ensures KeepsPresence(s, ActContinueAfterElimination(s, i, now).0, id)
  {
    hide ValidSetup, Elements, MaybeAdvance;
    if i in s.players && s.phase != Ended {
      SameActives(s.players, i, s.players[i].(confirmed := true));
      AdvancePresence(Confirm(s, i), now, id);
    }
  }

  lemma MovePresence(s: State, now: Time, c: Command, id: Id)
    requires Live(s) && id in Actives(s.players) && Moves(c, id)
    ensures id in Act(s, now, c).0.players
    ensures var p, q := s.players[id], Act(s, now, c).0.players[id];
      && q.disconnects == p.disconnects
      && if c == Disconnect(id) && p.connected then !q.connected && q.strikeAt == Some(now + s.setup.cfg.reconnect)
         else if c == Reconnect(id) && !p.connected then q.connected && q.strikeAt == None
         else q.connected == p.connected && q.strikeAt == p.strikeAt
  {
    hide ValidSetup, Elements, MaybeAdvance, Shape, Changes;
    AdvancePresence(Dropped(s, id, now), now, id);
    AdvancePresence(Returned(s, id), now, id);
  }

  /** No command counts a strike. */
  lemma ActCounts(s: State, now: Time, c: Command, id: Id)
    requires Wf(s) && id in s.players
    ensures id in Act(s, now, c).0.players && Act(s, now, c).0.players[id].disconnects == s.players[id].disconnects
  {
    hide Act, Forward, StatusesMove;
    if !Moves(c, id) {
      ActPresence(s, now, c, id);
    } else if s.phase == Ended {
      ActAdvances(s, now, c);
    } else {
      MoveCounts(s, now, c, id);
    }
  }

  lemma MoveCounts(s: State, now: Time, c: Command, id: Id)
    requires Live(s) && id in s.players && Moves(c, id)
    ensures id in Act(s, now, c).0.players && Act(s, now, c).0.players[id].disconnects == s.players[id].disconnects
  {
    hide ValidSetup, Elements, MaybeAdvance, Shape, Changes;
    AdvancePresence(Dropped(s, id, now), now, id);
    AdvancePresence(Returned(s, id), now, id);
  }

  lemma ActTracks(s: State, id: Id, a: Absence, now: Time, c: Command)
    requires Wf(s) && id in s.players && Tracks(s, id, a, now)
    ensures Tracks(Act(s, now, c).0, id, Follow(a, id, s.setup.cfg.reconnect, now, c), now)
  {
    hide Act, Elements, Forward;
    ActAdvances(s, now, c);
    var r := Act(s, now, c).0;
    if r.phase != Ended && id in Actives(r.players) {
      assert id in Actives(s.players);
      if Moves(c, id) {
        DurationsPositive(s.setup);
        MovePresence(s, now, c, id);
      } else {
        ActPresence(s, now, c, id);
      }
    }
  }

  // ----- whole runs -----

  lemma {:induction false} RunTracks(s: State, id: Id, a: Absence, from: Time, events: seq<Event>, now: Time)
    requires Wf(s) && id in s.players && Tracks(s, id, a, from) && InOrder(from, events, now)
    ensures Tracks(Tick(Run(s, events).0, now), id, Record(a, id, s.setup.cfg.reconnect, events), now)
    decreases |events|
  {
    hide Tick, Act, Tracks, Wf, Forward;
    if events == [] {
      TickTracks(s, id, a, from, now);
    } else {
      var t := Tick(s, events[0].at);
      TickTracks(s, id, a, from, events[0].at);
      TickAdvances(s, events[0].at);
      match events[0]
      case Timer(at) => RunTracks(t, id, a, at, events[1..], now);
      case Call(at, c) =>
        ActTracks(t, id, a, at, c);
        ActAdvances(t, at, c);
        RunTracks(Act(t, at, c).0, id, Follow(a, id, s.setup.cfg.reconnect, at, c), at, events[1..], now);
    }
  }

  ghost predicate Sane(a: Absence) { !a.away ==> a.since.None? }

  lemma FollowCounts(a: Absence, id: Id, limit: int, at: Time, c: Command)
    requires Sane(a) && 0 < limit
    ensures Sane(Follow(a, id, limit, at, c)) &&
      Follow(a, id, limit, at, c).StrikesBy(limit, at) == a.StrikesBy(limit, at)
  {
  }

  /** The strikes of a player in whatever state, against the record. */
  ghost predicate Accounted(s: State, id: Id, a: Absence, now: Time) {
    Sane(a) && id in s.players && s.players[id].disconnects <= a.StrikesBy(s.setup.cfg.reconnect, now)
  }

  lemma TickAccounted(s: State, id: Id, a: Absence, from: Time, now: Time)
    requires Wf(s) && from <= now && Accounted(s, id, a, from) && Tracks(s, id, a, from)
    ensures Accounted(Tick(s, now), id, a, now)
  {
    hide Tick, ValidSetup, Elements, Actives;
    TickCounts(s, now, id);
  }

  lemma {:induction false} RunAccounted(s: State, id: Id, a: Absence, from: Time, events: seq<Event>, now: Time)
    requires Wf(s) && id in s.players && Tracks(s, id, a, from) && Accounted(s, id, a, from) &&
      InOrder(from, events, now)
    ensures Accounted(Tick(Run(s, events).0, now), id, Record(a, id, s.setup.cfg.reconnect, events), now)
    decreases |events|
  {
    hide Tick, Act, Tracks, Wf, Forward;
    if events == [] {
      TickAccounted(s, id, a, from, now);
    } else {
      var t := Tick(s, events[0].at);
      TickAccounted(s, id, a, from, events[0].at);
      TickTracks(s, id, a, from, events[0].at);
      match events[0]
      case Timer(at) => RunAccounted(t, id, a, at, events[1..], now);
      case Call(at, c) =>
        ReconnectPositive(t);
        ActTracks(t, id, a, at, c);
        ActCounts(t, at, c, id);
        FollowCounts(a, id, t.setup.cfg.reconnect, at, c);
        RunAccounted(Act(t, at, c).0, id, Follow(a, id, t.setup.cfg.reconnect, at, c), at, events[1..], now);
    }
  }

  lemma ReconnectPositive(s: State)
    requires Wf(s)
    ensures 0 < s.setup.cfg.reconnect
  {
  }

  lemma {:induction false} MarkAllPresence(s: State, offline: seq<Id>, id: Id)
    requires Wf(s) && id in s.players && s.version == 1
    ensures var r := MarkAll(s, offline);
      && r.setup == s.setup && id in r.players
      && r.players[id] == s.players[id].(connected := s.players[id].connected && id !in offline)
    decreases |offline|
  {
    hide Wf;
    if offline != [] {
      MarkAllPresence(MarkOffline(s, offline[0]).0, offline[1..], id);
    }
  }

  lemma BegunTracks(b: Start, id: Id)
    requires Legal(b) && id in b.ids
    ensures Inv(Begun(b)) && Begun(b).setup.cfg == b.cfg && id in Begun(b).players
    ensures Tracks(Begun(b), id, Absence(id in b.offline, None, 0), b.at)
  {
    hide Inv, Playable, Actives, Elements, ValidSetup;
    var s := New(b.cfg, b.policy, b.ids, b.category, b.secret, b.order, b.seat, b.at).value;
    NewPlayer(b, id);
    NewInv(b);
    InvIsConsistent(s);
    MarkAllPresence(s, b.offline, id);
    MarkAllInv(s, b.offline);
  }

  lemma NewPlayer(b: Start, id: Id)
    requires Legal(b) && id in b.ids
    ensures var s := New(b.cfg, b.policy, b.ids, b.category, b.secret, b.order, b.seat, b.at).value;
      s.setup.cfg == b.cfg && id in s.players && s.players[id] == Player(Active, true, 0, false, None)
  {
    hide Inv;
    ShuffleKeepsIds(b.ids, b.order);
    assert id in Elements(b.ids);
  }

  /**
   * In every run a player has at most as many strikes as absences, begun in play, that lasted the
   * reconnect time, and exactly as many while active in a running match; so nobody is ever removed
   * before the third such absence has lasted, and nobody still plays after it.
   */
  lemma StrikesAreLongAbsences(b: Start, events: seq<Event>, now: Time, id: Id)
    requires Legal(b) && InOrder(b.at, events, now) && id in b.ids
    ensures var r := Tick(Run(Begun(b), events).0, now);
      var absence := Record(Absence(id in b.offline, None, 0), id, b.cfg.reconnect, events);
      && id in r.players
      && r.players[id].disconnects <= absence.StrikesBy(b.cfg.reconnect, now)
      && (r.players[id].status == Removed ==> MAX_DISCONNECTS <= absence.StrikesBy(b.cfg.reconnect, now))
      && (r.phase != Ended && id in Actives(r.players) ==>
            && r.players[id].disconnects == absence.StrikesBy(b.cfg.reconnect, now)
            && absence.StrikesBy(b.cfg.reconnect, now) < MAX_DISCONNECTS
            && r.players[id].connected == !absence.away)
  {
    hide Tick, Run, Record, Inv, Legal, Begun, Steady, NotLingering, Strikes, Shape, Reachable;
    BegunTracks(b, id);
    var start := Begun(b);
    var a := Absence(id in b.offline, None, 0);
    NothingCounted(b, id);
    RunTracks(start, id, a, b.at, events, now);
    RunAccounted(start, id, a, b.at, events, now);
    var r := Tick(Run(start, events).0, now);
    ReachableBegins(b);
    RunsAreReachable(start, events);
    ReachableInv(Run(start, events).0);
    TickInv(Run(start, events).0, now);
    InvIsConsistent(r);
    if r.players[id].status == Removed { RemovedHasThree(r, id); }
    if id in Actives(r.players) { StrikesBounded(r, id); }
  }

  lemma NothingCounted(b: Start, id: Id)
    requires Legal(b) && id in b.ids
    ensures Accounted(Begun(b), id, Absence(id in b.offline, None, 0), b.at)
  {
    hide Inv, Playable, Actives, Elements, ValidSetup;
    var s := New(b.cfg, b.policy, b.ids, b.category, b.secret, b.order, b.seat, b.at).value;
    NewPlayer(b, id);
    MarkAllPresence(s, b.offline, id);
  }

  lemma RemovedHasThree(s: State, id: Id)
    requires Strikes(s.players) && id in s.players && s.players[id].status == Removed
    ensures s.players[id].disconnects == MAX_DISCONNECTS
  {
    assert StrikesOk(s.players[id]);
  }

  lemma StrikesBounded(s: State, id: Id)
    requires Strikes(s.players) && id in Actives(s.players)
    ensures s.players[id].disconnects < MAX_DISCONNECTS
  {
    assert StrikesOk(s.players[id]);
  }

  /** A player is removed exactly at three strikes, and nobody else is. */
  lemma RemovedExactlyAtThree(s: State, id: Id)
    requires Reachable(s) && id in s.players
    ensures s.players[id].disconnects <= MAX_DISCONNECTS
    ensures s.players[id].status == Removed <==> s.players[id].disconnects == MAX_DISCONNECTS
  {
    hide Reachable, Steady, NotLingering;
    ReachableInv(s);
    assert StrikesOk(s.players[id]);
  }

  /**
   * All third strikes of one moment take effect before the ending is judged: every one of the struck is
   * removed, and with all of them out the match ends for the citizens if the impostor is among them and
   * for the impostor if at most one citizen is left, unless a guess already decides it.
   */
  lemma ThirdStrikesGoTogether(s: State)
    requires Live(s) && Inv(s) && NextTimer(s).StrikeDue?
    ensures var r, out := Step(s), OutAt(s, NextTimer(s).at); out != {} ==>
      && (forall id <- out :: id in r.players && r.players[id].status == Removed)
      && Decided(s, r, out)
  {
    hide CountStrikes, OutAt, Inv, Steady, EarliestStrike, ValidSetup, Elements, Strike;
    var at := NextTimer(s).at;
    InvIsConsistent(s);
    ImpostorPlays(s);
    if OutAt(s, at) != {} { StruckDecide(s, at); }
  }

  lemma StruckDecide(s: State, at: Time)
    requires Live(s) && s.setup.impostor in Actives(s.players) && OutAt(s, at) != {}
    ensures Decided(s, CountStrikes(s, at), OutAt(s, at))
  {
    hide RemoveAll, OutAt, ValidSetup, Elements, Strike, Changes;
    var t := Strike(s, at);
    StrikeKeepsShape(s, at);
    StrikeTouches(s, at);
    assert ActiveCitizens(t) == ActiveCitizens(s) && s.setup.impostor in Actives(t.players);
    RemovalDecides(t, OutAt(s, at), Removed, at);
  }
}
