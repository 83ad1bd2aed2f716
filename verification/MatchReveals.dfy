/**
 * How reveals end: role reveal and the reveal of an elimination go on to the next turn as soon as everybody
 * connected has confirmed, whoever's confirmation, drop or exit completes that, and else with their timer.
 */
module MatchReveals {
  import opened Basics
  import Words
  import opened MatchTypes
  import opened MatchRules
  import opened MatchClock
  import opened MatchCommands
  import opened MatchInvariant
  import opened MatchKeeps
  import opened MatchPolls
  import opened MatchVotes
  import opened MatchEffects

  /** Everybody connected who is asked has confirmed: the players, and those voted out where they are asked too. */
  ghost predicate AllConfirmed(players: map<Id, Player>, watchersToo: bool) {
    forall id :: id in players && players[id].connected && !players[id].confirmed ==>
      players[id].status != Active && !(watchersToo && players[id].status == Eliminated)
  }

  /** The turn is the first player's, in seating order, from seat `from` on. */
  ghost predicate FirstTurn(r: State, from: nat) {
    && r.phase == Hints && from <= r.turn < |r.setup.order|
    && r.setup.order[r.turn] in Actives(r.players)
    && forall k :: from <= k < r.turn ==> r.setup.order[k] !in Actives(r.players)
  }

  predicate Reveal(phase: Phase) { phase == RoleReveal || phase == EliminationReveal }

  /** A reveal goes on: to the first turn, or to that of the next round, which starts from nothing. */
  ghost predicate GoesOn(t: State, r: State) {
    && FirstTurn(r, 0) && r.hints == t.hints
    && if t.phase == RoleReveal then r.round == t.round
       else RoundOpens(t, r)
  }

  ghost predicate Waits(t: State, r: State) {
    r.phase == t.phase && r.round == t.round && r.deadline == t.deadline && |r.hints| == |t.hints|
  }

  /** After a change in a reveal: it goes on exactly when everybody has confirmed. */
  ghost predicate RevealFollows(t: State, r: State) {
    if AllConfirmed(r.players, t.phase == EliminationReveal) then GoesOn(t, r) else Waits(t, r)
  }

  // ----- rules -----

  lemma TurnFromFirst(s: State, from: nat, at: Time)
    requires Live(s) && from <= |s.setup.order|
    ensures var r := StartTurn(s, from, at);
      && r == s.(phase := r.phase, deadline := r.deadline, turn := r.turn, turnDeadline := r.turnDeadline,
           reconnecting := r.reconnecting)
      && (FirstTurn(r, from) ||
            (r.phase == PreVoting &&
              forall k :: from <= k < |s.setup.order| ==> s.setup.order[k] !in Actives(s.players)))
  {
    hide Changes, PlayersMove, ValidSetup, TurnClock, Actives, RunsPast, Elements, OpenTurn;
  }

  lemma SomebodysTurn(s: State, at: Time)
    requires Live(s) && Actives(s.players) != {}
    ensures var r := StartTurn(s, 0, at);
      && FirstTurn(r, 0)
      && r == s.(phase := r.phase, deadline := r.deadline, turn := r.turn, turnDeadline := r.turnDeadline,
           reconnecting := r.reconnecting)
  {
    hide StartTurn, Changes, PlayersMove, ValidSetup, RunsPast, Distinct;
    TurnFromFirst(s, 0, at);
    var id :| id in Actives(s.players);
    assert id in Elements(s.setup.order);
  }

  lemma NextRoundOpens(s: State, at: Time)
    requires Live(s) && Actives(s.players) != {}
    ensures var r := StartRound(s, at);
      FirstTurn(r, 0) && RoundOpens(s, r) && r.hints == s.hints && r.players == s.players
  {
    hide StartTurn, Changes, PlayersMove, ValidSetup, Actives, RunsPast;
    SomebodysTurn(s.(lastEliminated := "", tied := [], pending := map[], round := s.round + 1,
      candidates := [], votes := map[]), at);
  }

  lemma AdvanceFollows(u: State, at: Time)
    requires Live(u) && Actives(u.players) != {} && Reveal(u.phase)
    ensures RevealFollows(u, MaybeAdvance(u, at)) && MaybeAdvance(u, at).players == u.players
  {
    hide StartTurn, StartRound, PlayersMove, ValidSetup, Actives, Changes;
    SomebodysTurn(u, at);
    NextRoundOpens(u, at);
    assert AllConnectedAcked(u, u.phase == EliminationReveal) <==>
      AllConfirmed(u.players, u.phase == EliminationReveal);
  }

  /** The state before a reveal's own change does not matter but for where it is. */
  lemma FollowsFrom(t: State, u: State, r: State)
    requires RevealFollows(u, r)
    requires u.phase == t.phase && u.round == t.round && u.deadline == t.deadline && u.hints == t.hints
    ensures forall version :: RevealFollows(t, r.(version := version))
  {
    hide Actives;
  }

  lemma JudgeFollows(u: State, impostorGone: bool, at: Time)
    requires Live(u) && Reveal(u.phase)
    ensures var r := Judge(u, impostorGone, false, at);
      r.phase != Ended ==> RevealFollows(u, r) && r.players == u.players
  {
    hide MaybeAdvance, StartTurn, End, PlayersMove, ValidSetup, Changes, ActiveCitizens, ActiveImpostors,
      RevealFollows;
    if Actives(u.players) != {} { AdvanceFollows(u, at); }
  }

  lemma RemovalFollows(s: State, gone: set<Id>, status: Status, at: Time)
    requires Live(s) && Reveal(s.phase) && MayGo(s, gone, status)
    ensures var r := RemoveAll(s, gone, status, at);
      r.phase != Ended ==> forall version :: RevealFollows(s, r.(version := version))
  {
    hide Judge, PlayersMove, ValidSetup, Actives, Changes, Drop, RevealFollows;
    WithoutKeepsShape(s, gone, status);
    var t := Without(s, gone, status);
    JudgeFollows(t, s.setup.impostor in gone, at);
    if RemoveAll(s, gone, status, at).phase != Ended { FollowsFrom(s, t, RemoveAll(s, gone, status, at)); }
  }

  // ----- commands -----

  /** The commands that change something in a reveal: a first confirmation, a line that moves, an exit. */
  ghost predicate Moves(t: State, c: Command) {
    match c
    case ConfirmRole(id) =>
      t.phase == RoleReveal && id in t.players && t.players[id].status == Active && !t.players[id].confirmed
    case ContinueAfterElimination(id) => t.phase == EliminationReveal && Stays(t, id) && !t.players[id].confirmed
    case Disconnect(id) => Stays(t, id) && t.players[id].connected
    case Leave(id) => Stays(t, id)
    case _ => false
  }

  /** What a command in a reveal does to the match. */
  ghost predicate CommandFollows(t: State, c: Command, r: State) {
    if Moves(t, c) then r.phase == Ended || RevealFollows(t, r) else Waits(t, r)
  }

  /**
   * A reveal goes on at once when a confirmation, a drop or an exit that does not end the match leaves
   * nobody connected who has not confirmed, and only then; no other command ends it or moves its clock.
   */
  lemma RevealsEndWithTheLastConfirmation(s: State, now: Time, c: Command)
    requires Wf(s) && Inv(s)
    ensures var t, r := Tick(s, now), Apply(s, now, c).0;
      Reveal(t.phase) ==> CommandFollows(t, c, r) && (r.phase == Ended ==> c.Leave?)
  {
    hide Act, Tick, Inv, Wf, CommandFollows;
    TickInv(s, now);
    if Reveal(Tick(s, now).phase) { RevealCommands(Tick(s, now), now, c); }
  }

  lemma RevealCommands(s: State, now: Time, c: Command)
    requires Wf(s) && Inv(s) && Reveal(s.phase)
    ensures var r := Act(s, now, c).0; CommandFollows(s, c, r) && (r.phase == Ended ==> c.Leave?)
  {
    hide ActConfirmRole, ActContinueAfterElimination, ActDisconnect, ActReconnect, ActLeave, Inv, Wf, Actives,
      RevealFollows, ActSubmitHint, ActReact, ActVote, ActSubmitGuess;
    InvIsConsistent(s);
    ImpostorPlays(s);
    match c
    case ConfirmRole(id) => ConfirmationFollows(s, id, now);
    case ContinueAfterElimination(id) => ConfirmationFollows(s, id, now);
    case Disconnect(id) => DropFollows(s, id, now);
    case Reconnect(id) => OthersWait(s, now, c);
    case Leave(id) => ExitFollows(s, id, now);
    case SubmitHint(id, text) => HintsWait(s, now, id, text);
    case React(id, k, reaction) => ReactionsWait(s, id, k, reaction);
    case Vote(_, _) => OthersWait(s, now, c);
    case SubmitGuess(_, _) => OthersWait(s, now, c);
  }

  lemma OnePlayerFollows(s: State, id: Id, p: Player, now: Time)
    requires Live(s) && Actives(s.players) != {} && Reveal(s.phase)
    requires id in s.players && p.status == s.players[id].status
    ensures var u := s.(players := s.players[id := p]);
      Wf(u) && forall version :: RevealFollows(s, MaybeAdvance(u, now).(version := version))
  {
    hide MaybeAdvance, ValidSetup, Elements, RevealFollows;
    var u := s.(players := s.players[id := p]);
    SameActives(s.players, id, p);
    AdvanceFollows(u, now);
    FollowsFrom(s, u, MaybeAdvance(u, now));
  }

  lemma FollowsIsLive(t: State, r: State)
    requires RevealFollows(t, r) && Reveal(t.phase)
    ensures r.phase != Ended
  {
    hide Actives;
  }

  lemma ConfirmationFollows(s: State, id: Id, now: Time)
    requires Live(s) && Actives(s.players) != {} && Reveal(s.phase)
    ensures var r := ActConfirmRole(s, id, now).0; CommandFollows(s, ConfirmRole(id), r) && r.phase != Ended
    ensures var r := ActContinueAfterElimination(s, id, now).0;
      CommandFollows(s, ContinueAfterElimination(id), r) && r.phase != Ended
  {
    hide MaybeAdvance, ValidSetup, Actives, Shape, RevealFollows;
    if id in s.players {
      var u := Confirm(s, id);
      OnePlayerFollows(s, id, u.players[id], now);
      FollowsIsLive(s, MaybeAdvance(u, now).(version := MaybeAdvance(u, now).version + 1));
    }
  }

  lemma DropFollows(s: State, id: Id, now: Time)
    requires Live(s) && Actives(s.players) != {} && Reveal(s.phase)
    ensures var r := ActDisconnect(s, id, now).0; CommandFollows(s, Disconnect(id), r) && r.phase != Ended
  {
    hide MaybeAdvance, ValidSetup, Actives, Elements, RevealFollows, Changes;
    if Watcher(s, id) == Ok && s.players[id].connected {
      var u := Dropped(s, id, now);
      OnePlayerFollows(s, id, u.players[id], now);
      FollowsIsLive(s, MaybeAdvance(u, now).(version := MaybeAdvance(u, now).version + 1));
    }
  }

  lemma ExitFollows(s: State, id: Id, now: Time)
    requires Live(s) && Reveal(s.phase)
    ensures CommandFollows(s, Leave(id), ActLeave(s, id, now).0)
  {
    hide RemoveAll, ValidSetup, Actives, RevealFollows;
    if Stays(s, id) { RemovalFollows(s, {id}, Left, now); }
  }

  lemma OthersWait(s: State, now: Time, c: Command)
    requires Live(s) && Reveal(s.phase) && (c.Reconnect? || c.Vote? || c.SubmitGuess?)
    ensures Waits(s, Act(s, now, c).0)
  {
    hide ValidSetup, Actives, Elements, MaybeAdvance, End, Words.Accepts, Changes;
  }

  lemma HintsWait(s: State, now: Time, id: Id, text: string)
    requires Live(s) && Reveal(s.phase)
    ensures Waits(s, ActSubmitHint(s, id, text, now).0)
  {
    hide ActSubmitHint;
    HintNeedsHints(s, id, Tidy(s.setup.policy.alphabet, text));
    RefusedHint(s, now, id, text);
  }

  lemma RefusedHint(s: State, now: Time, id: Id, text: string)
    requires Wf(s) && HintVerdict(s, id, Tidy(s.setup.policy.alphabet, text)) != Ok
    ensures ActSubmitHint(s, id, text, now).0 == s
  {
    hide HintVerdict, Wf, Tidy;
  }

  lemma ReactionsWait(s: State, id: Id, k: int, reaction: string)
    requires Live(s) && Reveal(s.phase)
    ensures Waits(s, ActReact(s, id, k, reaction).0)
  {
    hide ValidSetup, Actives, Elements, Land, Added;
  }

  // ----- timers -----

  /**
   * When its time is up a reveal goes on whoever has confirmed; third strikes that do not end the match
   * leave it to the others, by the same rule as exits.
   */
  lemma RevealsEndWithTime(s: State)
    requires Live(s) && Inv(s) && Reveal(s.phase)
    ensures match NextTimer(s)
      case PhaseDue(_) => GoesOn(s, Step(s))
      case StrikeDue(at) =>
        if OutAt(s, at) == {} then Waits(s, Step(s)) else Step(s).phase == Ended || RevealFollows(s, Step(s))
      case Idle => false
  {
    hide CountStrikes, Expire, Inv, Wf, Actives, EarliestStrike, OutAt, RevealFollows, GoesOn;
    InvIsConsistent(s);
    ImpostorPlays(s);
    match NextTimer(s)
    case PhaseDue(at) => ExpiryFollows(s, at);
    case StrikeDue(at) => StrikesFollow(s, at);
  }

  lemma ExpiryFollows(s: State, at: Time)
    requires Live(s) && Actives(s.players) != {} && Reveal(s.phase)
    ensures forall version :: GoesOn(s, Expire(s, at).(version := version))
  {
    hide StartTurn, StartRound, ValidSetup, Actives, Changes, PlayersMove;
    SomebodysTurn(s, at);
    NextRoundOpens(s, at);
  }

  lemma StrikesFollow(s: State, at: Time)
    requires Live(s) && Reveal(s.phase)
    ensures var r := CountStrikes(s, at);
      if OutAt(s, at) == {} then Waits(s, r)
      else r.phase == Ended || forall version :: RevealFollows(s, r.(version := version))
  {
    hide RemoveAll, ValidSetup, Elements, Actives, OutAt, StruckAt, RevealFollows, Changes;
    StrikeKeepsShape(s, at);
    if OutAt(s, at) != {} {
      var t, r := Strike(s, at), CountStrikes(s, at);
      RemovalFollows(t, OutAt(s, at), Removed, at);
      if r.phase != Ended {
        assert RevealFollows(t, r.(version := r.version));
        FollowsFrom(s, t, r);
      }
    }
  }
}
