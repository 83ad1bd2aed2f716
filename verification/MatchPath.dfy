/**
 * The way a match takes, step by step: which phase may follow which, when a round may begin, and when a
 * player may be voted out.
 */
module MatchPath {
  import opened Basics
  import Words
  import opened MatchTypes
  import opened MatchRules
  import opened MatchClock
  import opened MatchCommands
  import opened MatchInvariant
  import opened MatchKeeps
  import opened MatchOpening
  import opened MatchPolls

  /** The phases that may come next. */
  function Following(phase: Phase): set<Phase> {
    match phase
    case RoleReveal => {Hints, Ended}
    case Hints => {Hints, HintBreak, PreVoting, Ended}
    case HintBreak => {Hints, PreVoting, Ended}
    case PreVoting => {Voting, Ended}
    case Voting => {RunoffVoting, ImpostorGuess, EliminationReveal, Hints, Ended}
    case RunoffVoting => {ImpostorGuess, EliminationReveal, Hints, Ended}
    case EliminationReveal => {Hints, Ended}
    case ImpostorGuess => {Ended}
    case Ended => {}
  }

  /** A round begins out of a vote or a reveal, with hints, and is the next one. */
  ghost predicate RoundFollows(s: State, r: State) {
    || r.round == s.round
    || (r.round == s.round + 1 && r.phase == Hints && (InVote(s.phase) || s.phase == EliminationReveal))
  }

  /** Only a vote takes a player out as eliminated, and never the impostor. */
  ghost predicate OnlyVotedOut(s: State, r: State) {
    forall id :: id in r.players && r.players[id].status == Eliminated ==>
      id in s.players && (s.players[id].status == Eliminated || (InVote(s.phase) && id != s.setup.impostor))
  }

  ghost predicate Follows(s: State, r: State) {
    && r.setup == s.setup && (r.phase == s.phase || r.phase in Following(s.phase))
    && RoundFollows(s, r) && OnlyVotedOut(s, r)
  }

  // ----- phase rules -----

  lemma FollowsSelf(s: State)
    ensures Follows(s, s)
  {
  }

  lemma EndFollows(s: State, winner: Team, reason: EndReason)
    requires Live(s)
    ensures Follows(s, End(s, winner, reason))
  {
    hide ValidSetup, Elements, Actives;
  }

  lemma StartTurnFollows(s: State, from: nat, at: Time)
    requires Live(s) && from <= |s.setup.order| && (s.phase == Hints || s.phase == HintBreak)
    ensures Follows(s, StartTurn(s, from, at))
  {
    hide StartTurn, Changes, PlayersMove, ValidSetup, TurnClock, Actives, RunsPast;
  }

  lemma SomebodysTurn(s: State, at: Time)
    requires Live(s) && Actives(s.players) != {}
    ensures StartTurn(s, 0, at).phase == Hints && StartTurn(s, 0, at).round == s.round
    ensures StartTurn(s, 0, at).players == s.players
  {
    hide StartTurn, Changes, PlayersMove, ValidSetup, TurnClock, RunsPast, Distinct;
    var id :| id in Actives(s.players);
    assert id in Elements(s.setup.order);
  }

  lemma StartRoundFollows(s: State, at: Time)
    requires Live(s) && Actives(s.players) != {} && (InVote(s.phase) || s.phase == EliminationReveal)
    ensures Follows(s, StartRound(s, at))
  {
    hide StartTurn, Changes, PlayersMove, ValidSetup, Actives, RunsPast;
    SomebodysTurn(s.(lastEliminated := "", tied := [], pending := map[], round := s.round + 1,
      candidates := [], votes := map[]), at);
  }

  lemma TallyFollows(s: State, at: Time)
    requires Live(s) && InVote(s.phase) && Actives(s.players) != {}
    ensures Follows(s, Tally(s, at))
  {
    hide StartRound, PlayersMove, ValidSetup, Elements, Top, Most, RunsPast, Changes, Eliminate, End, StartVoting,
      ShowElimination, Follows;
    var t, top := FileVotes(s), Top(s.candidates, s.votes);
    StartRoundFollows(t, at);
    EndFollows(t, NoTeam, Abandoned);
    if |top| == 1 && top[0] != s.setup.impostor {
      TopIsCandidate(s.candidates, s.votes);
      EliminateFollows(t, top[0], at);
    } else if |top| > 1 {
      TieFollows(t, at);
    }
    GuessFollows(t, at);
    FollowsFrom(s, t, Tally(s, at));
  }

  lemma GuessFollows(s: State, at: Time)
    requires Live(s) && InVote(s.phase)
    ensures Follows(s, SetPhase(s, ImpostorGuess, at, s.setup.cfg.guess))
  {
    hide ValidSetup, Elements, Actives;
  }

  /** A tie calls a runoff, and a second one shows that nobody is out. */
  lemma TieFollows(s: State, at: Time)
    requires Live(s) && InVote(s.phase)
    ensures var top := Top(s.candidates, s.votes);
      && Elements(top) <= Actives(s.players)
      && 0 < s.setup.cfg.runoffVote
      && (s.phase == Voting ==> Follows(s, StartVoting(s, RunoffVoting, top, at, s.setup.cfg.runoffVote)))
      && Follows(s, ShowElimination(s.(tied := top, tiedVotes := Most(s.candidates, s.votes)), "", at))
  {
    hide Top, Most, PlayersMove, RunsPast, Distinct, Elements;
    DurationsPositive(s.setup);
  }

  lemma EliminateFollows(s: State, id: Id, at: Time)
    requires Live(s) && InVote(s.phase) && id in Actives(s.players) && id != s.setup.impostor
    ensures Follows(s, Eliminate(s, id, at))
  {
    hide ValidSetup, Elements, ActiveCitizens, ActiveImpostors, Changes, PlayersMove, RunsPast;
  }

  lemma MaybeAdvanceFollows(s: State, at: Time)
    requires Live(s) && Actives(s.players) != {}
    ensures Follows(s, MaybeAdvance(s, at))
  {
    hide StartRound, StartTurn, Tally, PlayersMove, ValidSetup, Actives, AllConnectedAcked, AllConnectedVoted,
      Changes;
    if InVote(s.phase) {
      TallyFollows(s, at);
    } else if s.phase == RoleReveal {
      SomebodysTurn(s, at);
    } else if s.phase == EliminationReveal {
      StartRoundFollows(s, at);
    }
  }

  lemma JudgeFollows(s: State, impostorGone: bool, holderGone: bool, at: Time)
    requires Live(s) && (holderGone ==> s.phase == Hints)
    ensures Follows(s, Judge(s, impostorGone, holderGone, at))
  {
    hide MaybeAdvance, StartTurn, PlayersMove, ValidSetup, Actives, Changes, ActiveCitizens, ActiveImpostors, Follows,
      End;
    FollowsSelf(s);
    EndFollows(s, Citizens, ImpostorGone);
    EndFollows(s, Impostor, ImpostorParity);
    EndFollows(s, NoTeam, NotEnoughPlayers);
    if Actives(s.players) != {} { MaybeAdvanceFollows(s, at); }
    if s.phase == Hints { StartTurnFollows(s, s.turn + 1, at); }
  }

  /** What changes nothing about phase, round and votes does not matter. */
  lemma FollowsFrom(s: State, t: State, r: State)
    requires Follows(t, r) && t.setup == s.setup && t.phase == s.phase && t.round == s.round
    requires t.players.Keys == s.players.Keys
    requires forall id <- t.players :: t.players[id].status == Eliminated ==> s.players[id].status == Eliminated
    ensures Follows(s, r)
  {
  }

  lemma RemoveAllFollows(s: State, gone: set<Id>, status: Status, at: Time)
    requires Live(s) && MayGo(s, gone, status)
    ensures Follows(s, RemoveAll(s, gone, status, at))
  {
    hide Judge, PlayersMove, ValidSetup, Actives, Changes, Drop, Follows;
    WithoutKeepsShape(s, gone, status);
    var t := Without(s, gone, status);
    JudgeFollows(t, s.setup.impostor in gone, s.phase == Hints && Holder(s) in gone, at);
    FollowsFrom(s, t, RemoveAll(s, gone, status, at));
  }

  lemma ExpireFollows(s: State, at: Time)
    requires Live(s) && Actives(s.players) != {}
    ensures Follows(s, Expire(s, at))
  {
    hide StartRound, StartTurn, Tally, PlayersMove, ValidSetup, Actives, Changes, ActiveIds;
    match s.phase
    case RoleReveal => SomebodysTurn(s, at);
    case Hints => StartTurnFollows(s.(hints := s.hints + [MissingHint(s)], pending := map[]), s.turn + 1, at);
    case HintBreak => StartTurnFollows(s, s.turn + 1, at);
    case PreVoting =>
    case Voting => TallyFollows(s, at);
    case RunoffVoting => TallyFollows(s, at);
    case EliminationReveal => StartRoundFollows(s, at);
    case ImpostorGuess =>
  }

  // ----- timers and commands -----

  lemma CountStrikesFollows(s: State, at: Time)
    requires Live(s)
    ensures Follows(s, CountStrikes(s, at))
  {
    hide RemoveAll, ValidSetup, Actives, OutAt, StruckAt, Follows, Changes;
    StrikeKeepsShape(s, at);
    FollowsSelf(Strike(s, at));
    if OutAt(s, at) != {} { RemoveAllFollows(Strike(s, at), OutAt(s, at), Removed, at); }
    FollowsFrom(s, Strike(s, at), CountStrikes(s, at));
  }

  /** One timer takes a match at most one phase and one round on, and only along the way. */
  lemma TimersFollowTheWay(s: State)
    requires Live(s) && Inv(s)
    ensures Follows(s, Step(s))
  {
    hide CountStrikes, Expire, Inv, Wf, Actives, EarliestStrike, OutAt, Follows;
    InvIsConsistent(s);
    ImpostorPlays(s);
    match NextTimer(s)
    case StrikeDue(at) => CountStrikesFollows(s, at); Renumbered(s, CountStrikes(s, at));
    case PhaseDue(at) => ExpireFollows(s, at); Renumbered(s, Expire(s, at));
  }

  lemma Renumbered(s: State, r: State)
    requires Follows(s, r)
    ensures forall version :: Follows(s, r.(version := version))
  {
  }

  /** A command, after the timers before it, takes a match at most one phase and one round on along the way. */
  lemma CommandsFollowTheWay(s: State, now: Time, c: Command)
    requires Wf(s) && Inv(s)
    ensures Follows(s, Act(s, now, c).0)
  {
    hide ActConfirmRole, ActSubmitHint, ActReact, ActVote, ActSubmitGuess, ActContinueAfterElimination, ActDisconnect,
      ActReconnect, ActLeave, Inv, Wf, Actives, Follows;
    InvIsConsistent(s);
    if s.phase != Ended { ImpostorPlays(s); }
    match c
    case ConfirmRole(id) => ConfirmationsFollow(s, id, now);
    case ContinueAfterElimination(id) => ConfirmationsFollow(s, id, now);
    case SubmitHint(id, text) => SubmitHintFollows(s, id, text, now);
    case React(id, k, reaction) => ReactFollows(s, id, k, reaction);
    case Vote(id, target) => VoteFollows(s, id, target, now);
    case SubmitGuess(id, guess) => GuessEnds(s, id, guess);
    case Disconnect(id) => DisconnectFollows(s, id, now);
    case Reconnect(id) => ReconnectFollows(s, id, now);
    case Leave(id) => LeaveFollows(s, id, now);
  }

  ghost predicate Plays(s: State) { s.phase != Ended ==> Actives(s.players) != {} }

  /** A change to one player that is not a change of status, and what may follow from it. */
  lemma OnePlayerFollows(s: State, id: Id, p: Player, now: Time)
    requires Live(s) && Actives(s.players) != {} && id in s.players && p.status == s.players[id].status
    ensures var t := s.(players := s.players[id := p]);
      Wf(t) && Follows(s, t) && Follows(s, MaybeAdvance(t, now))
  {
    hide MaybeAdvance, ValidSetup, Elements, Follows;
    var t := s.(players := s.players[id := p]);
    SameActives(s.players, id, p);
    MaybeAdvanceFollows(t, now);
    FollowsSelf(t);
    FollowsFrom(s, t, MaybeAdvance(t, now));
    FollowsFrom(s, t, t);
  }

  lemma ConfirmationsFollow(s: State, id: Id, now: Time)
    requires Wf(s) && Plays(s)
    ensures Follows(s, ActConfirmRole(s, id, now).0) && Follows(s, ActContinueAfterElimination(s, id, now).0)
  {
    hide MaybeAdvance, ValidSetup, Actives, Shape, Follows;
    FollowsSelf(s);
    if id in s.players && s.phase != Ended {
      var t := Confirm(s, id);
      OnePlayerFollows(s, id, t.players[id], now);
      Renumbered(s, MaybeAdvance(t, now));
    }
  }

  lemma SubmitHintFollows(s: State, id: Id, text: string, now: Time)
    requires Wf(s)
    ensures Follows(s, ActSubmitHint(s, id, text, now).0)
  {
    hide ValidSetup, Actives, Tidy, Words.Normalize, Words.ContainsSecret, RepeatsHint;
  }

  lemma ReactFollows(s: State, id: Id, k: int, reaction: string)
    requires Wf(s)
    ensures Follows(s, ActReact(s, id, k, reaction).0)
  {
    hide ValidSetup, Actives, Land, Added, Shape, Elements;
  }

  lemma VoteFollows(s: State, id: Id, target: Id, now: Time)
    requires Wf(s) && Plays(s)
    ensures Follows(s, ActVote(s, id, target, now).0)
  {
    hide MaybeAdvance, ValidSetup, Actives, Follows;
    FollowsSelf(s);
    if InVote(s.phase) {
      var t := s.(votes := s.votes[id := target], voteCast := true);
      MaybeAdvanceFollows(t, now);
      FollowsFrom(s, t, MaybeAdvance(t, now));
      Renumbered(s, MaybeAdvance(t, now));
    }
  }

  lemma GuessEnds(s: State, id: Id, guess: string)
    requires Wf(s)
    ensures Follows(s, ActSubmitGuess(s, id, guess).0)
  {
    hide End, ValidSetup, Actives, Words.Accepts, Aliases, Follows;
    FollowsSelf(s);
    if s.phase != Ended {
      EndFollows(s, Impostor, ImpostorGuessedWord);
      EndFollows(s, Citizens, ImpostorGuessWrong);
      Renumbered(s, End(s, Impostor, ImpostorGuessedWord));
      Renumbered(s, End(s, Citizens, ImpostorGuessWrong));
    }
  }

  lemma DroppedFollows(s: State, id: Id, now: Time)
    requires Wf(s) && Plays(s) && id in s.players
    ensures var t := Dropped(s, id, now); Follows(s, t) && (Live(t) ==> Follows(s, MaybeAdvance(t, now)))
  {
    hide MaybeAdvance, ValidSetup, Actives;
    if s.phase != Ended { OnePlayerFollows(s, id, Dropped(s, id, now).players[id], now); }
  }

  lemma ReturnedFollows(s: State, id: Id, now: Time)
    requires Wf(s) && Plays(s) && id in s.players
    ensures var t := Returned(s, id); Follows(s, t) && (Live(t) ==> Follows(s, MaybeAdvance(t, now)))
  {
    hide MaybeAdvance, ValidSetup, Actives;
    if s.phase != Ended { OnePlayerFollows(s, id, Returned(s, id).players[id], now); }
  }

  /** Neither the clocks nor the version of a match say where it is. */
  lemma Reclocked(s: State, t: State, r: State)
    requires Follows(s, t)
    requires r == t.(deadline := r.deadline, reconnecting := r.reconnecting, version := r.version)
    ensures Follows(s, r)
  {
  }

  lemma DisconnectFollows(s: State, id: Id, now: Time)
    requires Wf(s) && Plays(s)
    ensures Follows(s, ActDisconnect(s, id, now).0)
  {
    hide MaybeAdvance, ValidSetup, Actives, Follows, Dropped, Shape;
    FollowsSelf(s);
    if Watcher(s, id) == Ok && s.players[id].connected {
      var t, r := Dropped(s, id, now), ActDisconnect(s, id, now).0;
      DroppedFollows(s, id, now);
      if s.phase == RoleReveal || s.phase == EliminationReveal || InVote(s.phase) {
        Reclocked(s, MaybeAdvance(t, now), r);
      } else {
        Reclocked(s, t, r);
      }
    }
  }

  lemma ReconnectFollows(s: State, id: Id, now: Time)
    requires Wf(s) && Plays(s)
    ensures Follows(s, ActReconnect(s, id, now).0)
  {
    hide MaybeAdvance, ValidSetup, Actives, Follows, Returned, Shape;
    FollowsSelf(s);
    if Watcher(s, id) == Ok && !s.players[id].connected {
      var t, r := Returned(s, id), ActReconnect(s, id, now).0;
      ReturnedFollows(s, id, now);
      Reclocked(s, if InVote(s.phase) then MaybeAdvance(t, now) else t, r);
    }
  }

  lemma LeaveFollows(s: State, id: Id, now: Time)
    requires Wf(s)
    ensures Follows(s, ActLeave(s, id, now).0)
  {
    hide RemoveAll, ValidSetup, Actives, Follows;
    FollowsSelf(s);
    if id in s.players && s.phase != Ended && s.players[id].Watching() {
      RemoveAllFollows(s, {id}, Left, now);
      Renumbered(s, RemoveAll(s, {id}, Left, now));
    }
  }
}
