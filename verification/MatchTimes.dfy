/**
 * When a match's timer runs out: which timer is next, and how long every phase that opens is given, whoever
 * or whatever opens it.
 */
module MatchTimes {
  import opened Basics
  import Words
  import opened MatchTypes
  import opened MatchRules
  import opened MatchClock
  import opened MatchCommands
  import opened MatchInvariant
  import opened MatchKeeps

  /** How long a phase lasts if nobody ends it. */
  function Lasts(c: Config, phase: Phase): int {
    match phase
    case RoleReveal => c.roleReveal
    case Hints => c.hint
    case HintBreak => c.hintBreak
    case PreVoting => c.preVoting
    case Voting => c.vote
    case RunoffVoting => c.runoffVote
    case EliminationReveal => c.eliminationReveal
    case ImpostorGuess => c.guess
    case Ended => 0
  }

  /** The match has not moved on: the same phase of the same round and, while hints are given, the same turn. */
  ghost predicate SamePlace(s: State, r: State) {
    r.phase == s.phase && r.round == s.round && (s.phase == Hints ==> r.turn == s.turn)
  }

  function Sooner(a: Time, b: Time): Time { if a < b then a else b }

  /** A turn begun at `at`: its own clock, and until that or the reconnect time for a holder who is away. */
  ghost predicate TurnTimed(r: State, at: Time) {
    var ends := at + r.setup.cfg.hint;
    && r.turnDeadline == Some(ends)
    && r.turn < |r.setup.order| && r.setup.order[r.turn] in r.players
    && r.deadline == Some(if r.players[r.setup.order[r.turn]].connected then ends
                          else Sooner(ends, at + r.setup.cfg.reconnect))
  }

  /** What a change at `at` must do to the clocks: a place entered is given its time, and no other clock moves. */
  ghost predicate Timed(s: State, r: State, at: Time) {
    && r.setup == s.setup
    && if r.phase == Ended then r.deadline == None
       else if SamePlace(s, r) then r.deadline == s.deadline && (r.phase == Hints ==> r.turnDeadline == s.turnDeadline)
       else if r.phase == Hints then TurnTimed(r, at)
       else r.deadline == Some(at + Lasts(r.setup.cfg, r.phase))
  }

  lemma TimedFrom(s: State, t: State, r: State, at: Time)
    requires Timed(t, r, at) && t.setup == s.setup && SamePlace(s, t)
    requires t.deadline == s.deadline && t.turnDeadline == s.turnDeadline
    ensures forall version :: Timed(s, r.(version := version), at)
  {
  }

  lemma TimedSelf(s: State, at: Time)
    requires Wf(s)
    ensures Timed(s, s, at)
  {
    hide ValidSetup, Elements, Actives;
  }

  // ----- phase rules -----

  lemma EndTimed(s: State, winner: Team, reason: EndReason, at: Time)
    requires Live(s)
    ensures Timed(s, End(s, winner, reason), at)
  {
    hide ValidSetup, Elements, Actives;
  }

  lemma StartTurnTimed(s: State, from: nat, at: Time)
    requires Live(s) && from <= |s.setup.order|
    requires s.phase == RoleReveal || ((s.phase == Hints || s.phase == HintBreak) && from == s.turn + 1)
    ensures Timed(s, StartTurn(s, from, at), at)
  {
    TurnOpens(s, from, at);
    hide StartTurn, Changes, PlayersMove, ValidSetup, TurnClock, Actives, RunsPast;
  }

  lemma TurnOpens(s: State, from: nat, at: Time)
    requires Live(s) && from <= |s.setup.order|
    ensures var r := StartTurn(s, from, at);
      && (r.phase == Hints || r.phase == PreVoting)
      && (r.phase == Hints ==> TurnTimed(r, at) && from <= r.turn)
      && (r.phase == PreVoting ==> r.deadline == Some(at + r.setup.cfg.preVoting))
  {
    hide Changes, PlayersMove, ValidSetup, RunsPast, Elements;
    assert s.setup.cfg.hint > 0 && s.setup.cfg.preVoting > 0 by { DurationsPositive(s.setup); }
  }

  lemma StartRoundTimed(s: State, at: Time)
    requires Live(s)
    ensures Timed(s, StartRound(s, at), at)
  {
    hide StartTurn, Changes, PlayersMove, ValidSetup, TurnClock, Actives, RunsPast;
    TurnOpens(s.(lastEliminated := "", tied := [], pending := map[], round := s.round + 1,
      candidates := [], votes := map[]), 0, at);
  }

  lemma EliminateTimed(s: State, id: Id, at: Time)
    requires Live(s) && InVote(s.phase) && id in Actives(s.players)
    ensures Timed(s, Eliminate(s, id, at), at)
  {
    hide Elements, Actives, ActiveCitizens, ActiveImpostors, Changes, PlayersMove, RunsPast;
  }

  lemma TallyTimed(s: State, at: Time)
    requires Live(s) && InVote(s.phase)
    ensures Timed(s, Tally(s, at), at)
  {
    hide StartRound, PlayersMove, Elements, Distinct, Top, Most, RunsPast, Changes, Eliminate, Actives, Timed, End,
      StartVoting, ShowElimination, SetPhase;
    var t, top := FileVotes(s), Top(s.candidates, s.votes);
    StartRoundTimed(t, at);
    EndTimed(t, NoTeam, Abandoned, at);
    if |top| == 1 {
      TopIsCandidate(s.candidates, s.votes);
      EliminateTimed(t, top[0], at);
      GuessTimed(t, at);
    } else if |top| > 1 {
      TieTimed(t, at);
    }
    TimedFrom(s, t, Tally(s, at), at);
  }

  lemma GuessTimed(s: State, at: Time)
    requires Live(s) && InVote(s.phase)
    ensures Timed(s, SetPhase(s, ImpostorGuess, at, s.setup.cfg.guess), at)
  {
    hide Elements, Actives;
  }

  lemma TieTimed(s: State, at: Time)
    requires Live(s) && InVote(s.phase)
    ensures var top := Top(s.candidates, s.votes);
      && Elements(top) <= Actives(s.players) && 0 < s.setup.cfg.runoffVote
      && (s.phase == Voting ==> Timed(s, StartVoting(s, RunoffVoting, top, at, s.setup.cfg.runoffVote), at))
      && Timed(s, ShowElimination(s.(tied := top, tiedVotes := Most(s.candidates, s.votes)), "", at), at)
  {
    hide Top, Most, PlayersMove, RunsPast, Distinct, Elements, Changes;
    DurationsPositive(s.setup);
  }

  lemma MaybeAdvanceTimed(s: State, at: Time)
    requires Live(s)
    ensures Timed(s, MaybeAdvance(s, at), at)
  {
    hide StartRound, StartTurn, Tally, PlayersMove, ValidSetup, Actives, AllConnectedAcked, AllConnectedVoted,
      Changes, Timed;
    TimedSelf(s, at);
    if InVote(s.phase) {
      TallyTimed(s, at);
    } else if s.phase == RoleReveal {
      StartTurnTimed(s, 0, at);
    } else if s.phase == EliminationReveal {
      StartRoundTimed(s, at);
    }
  }

  lemma JudgeTimed(s: State, impostorGone: bool, holderGone: bool, at: Time)
    requires Live(s) && (holderGone ==> s.phase == Hints)
    ensures Timed(s, Judge(s, impostorGone, holderGone, at), at)
  {
    hide MaybeAdvance, StartTurn, End, PlayersMove, ValidSetup, Actives, Changes, ActiveCitizens, ActiveImpostors,
      Timed;
    TimedSelf(s, at);
    EndTimed(s, Citizens, ImpostorGone, at);
    EndTimed(s, Impostor, ImpostorParity, at);
    EndTimed(s, NoTeam, NotEnoughPlayers, at);
    MaybeAdvanceTimed(s, at);
    if s.phase == Hints { StartTurnTimed(s, s.turn + 1, at); }
  }

  lemma RemoveAllTimed(s: State, gone: set<Id>, status: Status, at: Time)
    requires Live(s) && MayGo(s, gone, status)
    ensures Timed(s, RemoveAll(s, gone, status, at), at)
  {
    hide Judge, PlayersMove, ValidSetup, Actives, Changes, Drop, Timed;
    WithoutKeepsShape(s, gone, status);
    var t := Without(s, gone, status);
    JudgeTimed(t, s.setup.impostor in gone, s.phase == Hints && Holder(s) in gone, at);
    TimedFrom(s, t, RemoveAll(s, gone, status, at), at);
  }

  lemma ExpireTimed(s: State, at: Time)
    requires Live(s)
    ensures Timed(s, Expire(s, at), at)
  {
    hide StartRound, StartTurn, Tally, PlayersMove, Actives, Changes, ActiveIds, Timed, End, StartVoting;
    match s.phase
    case RoleReveal => StartTurnTimed(s, 0, at);
    case Hints =>
      var t := s.(hints := s.hints + [MissingHint(s)], pending := map[]);
      StartTurnTimed(t, s.turn + 1, at);
      TimedFrom(s, t, Expire(s, at), at);
    case HintBreak => StartTurnTimed(s, s.turn + 1, at);
    case PreVoting => PreVotingTimed(s, at);
    case Voting => TallyTimed(s, at);
    case RunoffVoting => TallyTimed(s, at);
    case EliminationReveal => StartRoundTimed(s, at);
    case ImpostorGuess => EndTimed(s, Citizens, ImpostorGuessTimeout, at);
  }

  lemma PreVotingTimed(s: State, at: Time)
    requires Live(s) && s.phase == PreVoting
    ensures Timed(s, Expire(s, at), at)
  {
    hide PlayersMove, Changes, RunsPast, Elements, Actives, ActiveIds;
  }

  lemma CountStrikesTimed(s: State, at: Time)
    requires Live(s)
    ensures Timed(s, CountStrikes(s, at), at)
  {
    hide RemoveAll, ValidSetup, Elements, Actives, OutAt, StruckAt, Timed, Changes;
    StrikeKeepsShape(s, at);
    var t := Strike(s, at);
    TimedSelf(t, at);
    if OutAt(s, at) != {} { RemoveAllTimed(t, OutAt(s, at), Removed, at); }
    TimedFrom(s, t, CountStrikes(s, at), at);
  }

  // ----- main results -----

  /** Whatever a timer opens is given its whole time from the moment of the timer. */
  lemma TimersGiveFullTime(s: State)
    requires Live(s)
    ensures !NextTimer(s).Idle? && Timed(s, Step(s), NextTimer(s).at)
  {
    hide CountStrikes, Expire, ValidSetup, Elements, Actives, EarliestStrike, OutAt, Timed, Changes, PlayersMove;
    match NextTimer(s)
    case StrikeDue(at) => CountStrikesTimed(s, at); TimedFrom(s, s, CountStrikes(s, at), at);
    case PhaseDue(at) => ExpireTimed(s, at); TimedFrom(s, s, Expire(s, at), at);
  }

  /** The holder of a hint turn goes away, or comes back. */
  ghost predicate HolderMoves(s: State, c: Command)
    requires Wf(s)
  {
    && s.phase == Hints && Holder(s) in s.players
    && if s.players[Holder(s)].connected then c == Disconnect(Holder(s)) else c == Reconnect(Holder(s))
  }

  /** A turn whose holder goes away waits for them, never past its own clock; one whose holder is back has that. */
  ghost predicate TurnWaits(s: State, c: Command, r: State, now: Time)
    requires Wf(s) && s.phase == Hints
  {
    && SamePlace(s, r) && r.turnDeadline == s.turnDeadline
    && r.deadline == if c.Disconnect? then Some(Sooner(s.turnDeadline.value, now + s.setup.cfg.reconnect))
                     else s.turnDeadline
  }

  ghost predicate CommandTimed(s: State, now: Time, c: Command, r: State)
    requires Wf(s)
  {
    if HolderMoves(s, c) then TurnWaits(s, c, r, now) else Timed(s, r, now)
  }

  /** Whatever a command opens is given its whole time from the command; no other clock but a waiting turn's moves. */
  lemma CommandsGiveFullTime(s: State, now: Time, c: Command)
    requires Wf(s) && Inv(s)
    ensures var t := Tick(s, now); CommandTimed(t, now, c, Apply(s, now, c).0)
  {
    hide Act, Tick, Inv, Wf, CommandTimed;
    TickInv(s, now);
    ActTimed(Tick(s, now), now, c);
  }

  lemma ActTimed(s: State, now: Time, c: Command)
    requires Wf(s) && Inv(s)
    ensures CommandTimed(s, now, c, Act(s, now, c).0)
  {
    hide ActConfirmRole, ActSubmitHint, ActReact, ActVote, ActSubmitGuess, ActContinueAfterElimination, ActDisconnect,
      ActReconnect, ActLeave, Inv, Wf, Actives, Timed, TurnWaits;
    match c
    case ConfirmRole(id) => ConfirmationsTimed(s, id, now);
    case ContinueAfterElimination(id) => ConfirmationsTimed(s, id, now);
    case SubmitHint(id, text) => SubmitHintTimed(s, id, text, now);
    case React(id, k, reaction) => ReactTimed(s, id, k, reaction, now);
    case Vote(id, target) => VoteTimed(s, id, target, now);
    case SubmitGuess(id, guess) => SubmitGuessTimed(s, id, guess, now);
    case Disconnect(id) => DisconnectTimed(s, id, now);
    case Reconnect(id) => ReconnectTimed(s, id, now);
    case Leave(id) => LeaveTimed(s, id, now);
  }

  lemma OnePlayerTimed(s: State, id: Id, p: Player, now: Time)
    requires Live(s) && id in s.players && p.status == s.players[id].status
    ensures var t := s.(players := s.players[id := p]);
      Wf(t) && Timed(s, t, now) && forall version :: Timed(s, MaybeAdvance(t, now).(version := version), now)
  {
    hide MaybeAdvance, Elements, Actives, Timed;
    var t := s.(players := s.players[id := p]);
    SameActives(s.players, id, p);
    MaybeAdvanceTimed(t, now);
    TimedSelf(t, now);
    TimedFrom(s, t, t, now);
    TimedFrom(s, t, MaybeAdvance(t, now), now);
  }

  lemma ConfirmationsTimed(s: State, id: Id, now: Time)
    requires Wf(s)
    ensures Timed(s, ActConfirmRole(s, id, now).0, now) && Timed(s, ActContinueAfterElimination(s, id, now).0, now)
  {
    hide MaybeAdvance, ValidSetup, Actives, Shape, Timed;
    TimedSelf(s, now);
    if id in s.players && s.phase != Ended { OnePlayerTimed(s, id, Confirm(s, id).players[id], now); }
  }

  lemma SubmitHintTimed(s: State, id: Id, text: string, now: Time)
    requires Wf(s)
    ensures Timed(s, ActSubmitHint(s, id, text, now).0, now)
  {
    hide Actives, Tidy, Words.Normalize, Words.ContainsSecret, RepeatsHint, Elements;
  }

  lemma ReactTimed(s: State, id: Id, k: int, reaction: string, now: Time)
    requires Wf(s)
    ensures Timed(s, ActReact(s, id, k, reaction).0, now)
  {
    hide ValidSetup, Actives, Land, Added, Shape, Elements, Timed, Wf;
    var r := ActReact(s, id, k, reaction).0;
    TimedSelf(s, now);
    TimedSelf(r, now);
    TimedFrom(s, r, r, now);
  }

  lemma VoteTimed(s: State, id: Id, target: Id, now: Time)
    requires Wf(s)
    ensures Timed(s, ActVote(s, id, target, now).0, now)
  {
    hide MaybeAdvance, ValidSetup, Actives, Timed;
    TimedSelf(s, now);
    if InVote(s.phase) {
      var t := s.(votes := s.votes[id := target], voteCast := true);
      MaybeAdvanceTimed(t, now);
      TimedFrom(s, t, MaybeAdvance(t, now), now);
    }
  }

  lemma SubmitGuessTimed(s: State, id: Id, guess: string, now: Time)
    requires Wf(s)
    ensures Timed(s, ActSubmitGuess(s, id, guess).0, now)
  {
    hide ValidSetup, Actives, Words.Accepts, Aliases, Elements;
  }

  /** One player's line moves, and the match goes on or not: on whatever clock it was on. */
  lemma LineTimed(s: State, id: Id, p: Player, now: Time)
    requires Wf(s) && id in s.players && p.status == s.players[id].status
    ensures var t := s.(players := s.players[id := p]);
      && Wf(t) && (forall version :: Timed(s, t.(version := version), now))
      && (Live(s) ==> forall version :: Timed(s, MaybeAdvance(t, now).(version := version), now))
  {
    hide MaybeAdvance, Elements, Actives, Timed;
    var t := s.(players := s.players[id := p]);
    SameActives(s.players, id, p);
    TimedSelf(t, now);
    TimedFrom(s, t, t, now);
    if Live(s) { OnePlayerTimed(s, id, p, now); }
  }

  lemma DisconnectTimed(s: State, id: Id, now: Time)
    requires Wf(s) && Inv(s)
    ensures CommandTimed(s, now, Disconnect(id), ActDisconnect(s, id, now).0)
  {
    hide MaybeAdvance, ValidSetup, Actives, Elements, Timed, Inv, Changes, TurnWaits, AwaitReconnect;
    TimedSelf(s, now);
    HolderPlays(s);
    if Watcher(s, id) == Ok && s.players[id].connected {
      LineTimed(s, id, Dropped(s, id, now).players[id], now);
      if s.phase == Hints && Holder(s) == id { HolderAway(s, now); }
    }
  }

  lemma HolderAway(s: State, now: Time)
    requires Wf(s) && s.phase == Hints && Holder(s) in s.players
    ensures TurnWaits(s, Disconnect(Holder(s)), Bump(AwaitReconnect(Dropped(s, Holder(s), now), now)), now)
  {
    hide ValidSetup, Actives, Elements;
  }

  lemma ReconnectTimed(s: State, id: Id, now: Time)
    requires Wf(s) && Inv(s)
    ensures CommandTimed(s, now, Reconnect(id), ActReconnect(s, id, now).0)
  {
    hide MaybeAdvance, ValidSetup, Actives, Elements, Timed, Inv, Changes;
    TimedSelf(s, now);
    HolderPlays(s);
    if Watcher(s, id) == Ok && !s.players[id].connected { LineTimed(s, id, Returned(s, id).players[id], now); }
  }

  lemma HolderPlays(s: State)
    requires Wf(s) && Inv(s)
    ensures s.phase == Hints ==> Holder(s) in s.players && s.players[Holder(s)].status == Active
  {
    hide Board, Strikes, Filed, TurnsDone, Ballot, Verdict, Teams, ValidSetup, Elements;
  }

  lemma LeaveTimed(s: State, id: Id, now: Time)
    requires Wf(s)
    ensures Timed(s, ActLeave(s, id, now).0, now)
  {
    hide RemoveAll, ValidSetup, Actives, Timed;
    TimedSelf(s, now);
    if id in s.players && s.phase != Ended && s.players[id].Watching() {
      RemoveAllTimed(s, {id}, Left, now);
      TimedFrom(s, s, RemoveAll(s, {id}, Left, now), now);
    }
  }

  // ----- which timer is next -----

  /** A strike to come, and none sooner. */
  ghost predicate FirstStrike(s: State, at: Time) {
    && (exists id :: Pending(s.players, id) && s.players[id].strikeAt == Some(at))
    && forall id :: Pending(s.players, id) ==> at <= s.players[id].strikeAt.value
  }

  /** The next timer is the earliest of the phase's and all strikes to come; a strike wins a tie. */
  lemma NextTimerIsEarliest(s: State)
    requires Wf(s)
    ensures NextTimer(s).Idle? <==> s.phase == Ended
    ensures s.phase != Ended ==> s.deadline.Some?
    ensures forall at :: NextTimer(s) == StrikeDue(at) <==>
      s.phase != Ended && FirstStrike(s, at) && at <= s.deadline.value
    ensures forall at :: NextTimer(s) == PhaseDue(at) <==>
      && s.phase != Ended && s.deadline == Some(at)
      && forall id :: Pending(s.players, id) ==> at < s.players[id].strikeAt.value
  {
  }
}
