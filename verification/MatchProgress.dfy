/**
 * A match only moves forward: its place (round, then stage within the round) never goes
 * back, a hint turn keeps the clock it started with, and a finished match stays as it ended.
 */
module MatchProgress {
  import opened Basics
  import Words
  import opened MatchTypes
  import opened MatchRules
  import opened MatchClock
  import opened MatchCommands

  // ----- place -----

  /** How far a round has come; every hint turn and every pause after a hint counts. */
  ghost function Stage(s: State): nat {
    var n := |s.setup.order|;
    match s.phase
    case RoleReveal => 0
    case Hints => 2 * s.turn + 1
    case HintBreak => 2 * s.turn + 2
    case PreVoting => 2 * n + 1
    case Voting => 2 * n + 2
    case RunoffVoting => 2 * n + 3
    case EliminationReveal => 2 * n + 4
    case ImpostorGuess => 2 * n + 5
    case Ended => 2 * n + 6
  }

  /**
   * `r` is no earlier than `s`; in the same place a hint turn has the same clock, and only
   * the turn that follows can follow it in the round.
   */
  ghost predicate Forward(s: State, r: State) {
    && r.setup == s.setup
    && (s.round < r.round || (s.round == r.round && Stage(s) <= Stage(r)))
    && (s.round == r.round && s.phase == Hints && r.phase == Hints && s.turn == r.turn ==>
      s.turnDeadline == r.turnDeadline)
  }

  /** What never changes once a match has ended. */
  ghost predicate SameEnding(s: State, r: State) {
    && r.phase == Ended && r.result == s.result && r.hints == s.hints && r.round == s.round
    && r.voteRounds == s.voteRounds && r.abstentions == s.abstentions
    && r.players.Keys == s.players.Keys
    && forall id <- s.players ::
         r.players[id].status == s.players[id].status && r.players[id].disconnects == s.players[id].disconnects
  }

  ghost predicate StatusesMove(s: State, r: State) {
    r.players.Keys == s.players.Keys && forall id <- s.players :: StatusMove(s.players[id].status, r.players[id].status)
  }

  /** The one-call guarantee the whole-run results are built from. */
  ghost predicate Advances(s: State, r: State) {
    && Forward(s, r) && StatusesMove(s, r)
    && (r == s || s.version < r.version)
    && (s.phase == Ended ==> SameEnding(s, r))
  }

  lemma AdvancesTransitive(s: State, t: State, r: State)
    requires Wf(s) && Wf(t) && Wf(r) && Advances(s, t) && Advances(t, r)
    ensures Advances(s, r)
  {
    hide ValidSetup, Actives, Elements;
  }

  // ----- phase rules -----

  lemma StartTurnForward(s: State, from: nat, at: Time)
    requires Live(s) && from <= |s.setup.order|
    requires s.phase == RoleReveal || ((s.phase == Hints || s.phase == HintBreak) && from == s.turn + 1)
    ensures Forward(s, StartTurn(s, from, at))
  {
    hide StartTurn, Changes, PlayersMove, ValidSetup, TurnClock, Actives;
  }

  lemma StartRoundForward(s: State, at: Time)
    requires Live(s)
    ensures Forward(s, StartRound(s, at))
  {
    hide StartRound, PlayersMove, ValidSetup, Actives;
  }

  lemma TallyForward(s: State, at: Time)
    requires Live(s) && InVote(s.phase)
    ensures Forward(s, Tally(s, at))
  {
    hide StartRound, Eliminate, ShowElimination, StartVoting, End, PlayersMove, ValidSetup, Actives, Top, Most,
      RunsPast;
    StartRoundForward(FileVotes(s), at);
  }

  lemma MaybeAdvanceForward(s: State, at: Time)
    requires Live(s)
    ensures Forward(s, MaybeAdvance(s, at))
  {
    hide StartRound, StartTurn, Tally, PlayersMove, ValidSetup, Actives, AllConnectedAcked, AllConnectedVoted,
      Changes;
    if InVote(s.phase) {
      TallyForward(s, at);
    } else if s.phase == RoleReveal {
      StartTurnForward(s, 0, at);
    } else if s.phase == EliminationReveal {
      StartRoundForward(s, at);
    }
  }

  lemma JudgeForward(s: State, impostorGone: bool, at: Time)
    requires Live(s)
    ensures Forward(s, Judge(s, impostorGone, false, at))
    ensures s.phase == Hints ==> Forward(s, Judge(s, impostorGone, true, at))
  {
    hide MaybeAdvance, StartTurn, End, PlayersMove, ValidSetup, Actives, Changes, ActiveCitizens, ActiveImpostors;
    MaybeAdvanceForward(s, at);
    if s.phase == Hints {
      StartTurnForward(s, s.turn + 1, at);
    }
  }

  lemma RemoveAllForward(s: State, gone: set<Id>, status: Status, at: Time)
    requires Live(s) && MayGo(s, gone, status)
    ensures Forward(s, RemoveAll(s, gone, status, at))
  {
    hide Judge, PlayersMove, ValidSetup, Actives, Changes, Drop;
    WithoutKeepsShape(s, gone, status);
    JudgeForward(Without(s, gone, status), s.setup.impostor in gone, at);
  }

  lemma ExpireForward(s: State, at: Time)
    requires Live(s)
    ensures Forward(s, Expire(s, at))
  {
    hide StartRound, StartTurn, Tally, PlayersMove, ValidSetup, Actives, Changes, ActiveIds;
    match s.phase
    case RoleReveal => StartTurnForward(s, 0, at);
    case Hints => StartTurnForward(s.(hints := s.hints + [MissingHint(s)], pending := map[]), s.turn + 1, at);
    case HintBreak => StartTurnForward(s, s.turn + 1, at);
    case PreVoting =>
    case Voting => TallyForward(s, at);
    case RunoffVoting => TallyForward(s, at);
    case EliminationReveal => StartRoundForward(s, at);
    case ImpostorGuess =>
  }

  lemma CountStrikesForward(s: State, at: Time)
    requires Live(s)
    ensures Forward(s, CountStrikes(s, at)) && StatusesMove(s, CountStrikes(s, at))
  {
    hide RemoveAll, ValidSetup, Actives, OutAt, StruckAt;
    StrikeKeepsShape(s, at);
    if OutAt(s, at) != {} {
      RemoveAllForward(Strike(s, at), OutAt(s, at), Removed, at);
    }
  }

  lemma StepAdvances(s: State)
    requires Live(s)
    ensures Advances(s, Step(s))
  {
    hide CountStrikes, Expire, ValidSetup, Actives, Changes;
    match NextTimer(s)
    case StrikeDue(at) => CountStrikesForward(s, at);
    case PhaseDue(at) => ExpireForward(s, at);
  }

  lemma {:induction false} TickAdvances(s: State, now: Time)
    requires Wf(s)
    ensures Advances(s, Tick(s, now))
    decreases PendingStrikes(s.players), Overdue(s, now)
  {
    hide Step, ValidSetup, Actives, Advances;
    if Due(s, now) {
      StepProgress(s, now);
      StepAdvances(s);
      TickAdvances(Step(s), now);
      AdvancesTransitive(s, Step(s), Tick(s, now));
    } else {
      AdvancesSelf(s);
    }
  }

  lemma AdvancesSelf(s: State)
    ensures Advances(s, s)
  {
  }

  // ----- commands -----

  lemma ActAdvances(s: State, now: Time, c: Command)
    requires Wf(s)
    ensures Advances(s, Act(s, now, c).0)
  {
    hide ActConfirmRole, ActSubmitHint, ActReact, ActVote, ActSubmitGuess, ActContinueAfterElimination, ActDisconnect,
      ActReconnect, ActLeave, Advances, ValidSetup, Actives;
    match c
    case ConfirmRole(id) => ConfirmationsAdvance(s, id, now);
    case ContinueAfterElimination(id) => ConfirmationsAdvance(s, id, now);
    case SubmitHint(id, text) => SubmitHintAdvances(s, id, text, now);
    case React(id, k, reaction) => ReactAdvances(s, id, k, reaction);
    case Vote(id, target) => VoteAdvances(s, id, target, now);
    case SubmitGuess(id, guess) => GuessAdvances(s, id, guess);
    case Disconnect(id) => DisconnectAdvances(s, id, now);
    case Reconnect(id) => ReconnectAdvances(s, id, now);
    case Leave(id) => LeaveAdvances(s, id, now);
  }

  /** A change to one player that is not a change of status, and what may follow from it. */
  lemma OnePlayerAdvances(s: State, id: Id, p: Player, now: Time)
    requires Live(s) && id in s.players && p.status == s.players[id].status
    ensures var t := s.(players := s.players[id := p]);
      Wf(t) && Forward(s, t) && StatusesMove(s, t) && Advances(s, Bump(MaybeAdvance(t, now)))
  {
    hide MaybeAdvance, ValidSetup, Elements, AwaitReconnect;
    var t := s.(players := s.players[id := p]);
    SameActives(s.players, id, p);
    MaybeAdvanceForward(t, now);
  }

  lemma ConfirmationsAdvance(s: State, id: Id, now: Time)
    requires Wf(s)
    ensures Advances(s, ActConfirmRole(s, id, now).0) && Advances(s, ActContinueAfterElimination(s, id, now).0)
  {
    hide MaybeAdvance, ValidSetup, Actives, Shape, Forward;
    if id in s.players && s.phase != Ended {
      OnePlayerAdvances(s, id, s.players[id].(confirmed := true), now);
    }
    AdvancesSelf(s);
  }

  lemma SubmitHintAdvances(s: State, id: Id, text: string, now: Time)
    requires Wf(s)
    ensures Advances(s, ActSubmitHint(s, id, text, now).0)
  {
    hide ValidSetup, Actives, Tidy, Words.Normalize, Words.ContainsSecret, RepeatsHint;
  }

  lemma ReactAdvances(s: State, id: Id, k: int, reaction: string)
    requires Wf(s)
    ensures Advances(s, ActReact(s, id, k, reaction).0)
  {
    hide ValidSetup, Actives, Land, Added, Shape, Elements;
    AdvancesSelf(s);
  }

  lemma VoteAdvances(s: State, id: Id, target: Id, now: Time)
    requires Wf(s)
    ensures Advances(s, ActVote(s, id, target, now).0)
  {
    hide MaybeAdvance, ValidSetup, Actives;
    if InVote(s.phase) {
      MaybeAdvanceForward(s.(votes := s.votes[id := target], voteCast := true), now);
    }
  }

  lemma GuessAdvances(s: State, id: Id, guess: string)
    requires Wf(s)
    ensures Advances(s, ActSubmitGuess(s, id, guess).0)
  {
    hide End, ValidSetup, Actives, Words.Accepts, Aliases;
  }

  lemma DisconnectAdvances(s: State, id: Id, now: Time)
    requires Wf(s)
    ensures Advances(s, ActDisconnect(s, id, now).0)
  {
    hide MaybeAdvance, ValidSetup, Actives, Dropped, Shape, Changes;
    AdvancesSelf(s);
    if Watcher(s, id) == Ok && s.players[id].connected {
      DroppedMoves(s, id, now);
    }
  }

  lemma DroppedMoves(s: State, id: Id, now: Time)
    requires Wf(s) && id in s.players
    ensures var t := Dropped(s, id, now);
      && Forward(s, t) && StatusesMove(s, t) && (s.phase == Ended ==> SameEnding(s, t))
      && (Live(s) ==> Advances(s, Bump(MaybeAdvance(t, now))))
  {
    hide MaybeAdvance, ValidSetup, Actives;
    if s.phase != Ended {
      OnePlayerAdvances(s, id, Dropped(s, id, now).players[id], now);
    }
  }

  lemma ReconnectAdvances(s: State, id: Id, now: Time)
    requires Wf(s)
    ensures Advances(s, ActReconnect(s, id, now).0)
  {
    hide MaybeAdvance, ValidSetup, Actives, Returned, Changes;
    AdvancesSelf(s);
    if Watcher(s, id) == Ok && !s.players[id].connected {
      ReturnedMoves(s, id, now);
    }
  }

  lemma ReturnedMoves(s: State, id: Id, now: Time)
    requires Wf(s) && id in s.players
    ensures var t := Returned(s, id);
      && Forward(s, t) && StatusesMove(s, t) && (s.phase == Ended ==> SameEnding(s, t))
      && (Live(s) ==> Advances(s, Bump(MaybeAdvance(t, now))))
  {
    hide MaybeAdvance, ValidSetup, Actives;
    if s.phase != Ended {
      OnePlayerAdvances(s, id, Returned(s, id).players[id], now);
    }
  }

  lemma LeaveAdvances(s: State, id: Id, now: Time)
    requires Wf(s)
    ensures Advances(s, ActLeave(s, id, now).0)
  {
    hide RemoveAll, ValidSetup, Actives;
    if id in s.players && s.phase != Ended && s.players[id].Watching() {
      RemoveAllForward(s, {id}, Left, now);
    }
  }

  // ----- whole runs -----

  lemma ApplyAdvances(s: State, now: Time, c: Command)
    requires Wf(s)
    ensures Advances(s, Apply(s, now, c).0)
  {
    hide Advances, Act, Tick;
    TickAdvances(s, now);
    ActAdvances(Tick(s, now), now, c);
    AdvancesTransitive(s, Tick(s, now), Apply(s, now, c).0);
  }

  lemma {:induction false} RunAdvances(s: State, events: seq<Event>)
    requires Wf(s)
    ensures Advances(s, Run(s, events).0)
    decreases |events|
  {
    hide Advances, Tick, Apply;
    if events == [] {
      AdvancesSelf(s);
    } else {
      var t := match events[0] case Timer(at) => Tick(s, at) case Call(at, c) => Apply(s, at, c).0;
      match events[0] {
        case Timer(at) => TickAdvances(s, at);
        case Call(at, c) => ApplyAdvances(s, at, c);
      }
      RunAdvances(t, events[1..]);
      AdvancesTransitive(s, t, Run(s, events).0);
    }
  }

  /**
   * No sequence of calls takes a match back: the round never falls, within a round the stage
   * never falls, and as long as the same turn is being played its clock has not moved.
   */
  lemma MatchNeverGoesBack(s: State, events: seq<Event>)
    requires Wf(s)
    ensures var r := Run(s, events).0;
      && (s.round < r.round || (s.round == r.round && Stage(s) <= Stage(r)))
      && (s.phase == Hints && r.phase == Hints && r.round == s.round && r.turn == s.turn ==>
            r.turnDeadline == s.turnDeadline)
  {
    RunAdvances(s, events);
  }

  /** Every visible change raises the version: an unchanged version means an unchanged match. */
  lemma VersionTracksChange(s: State, events: seq<Event>)
    requires Wf(s)
    ensures s.version <= Run(s, events).0.version
    ensures Run(s, events).0.version == s.version ==> Run(s, events).0 == s
  {
    RunAdvances(s, events);
  }

  /** Once a match has ended no sequence of calls changes its result, its players' fates, its board or its round. */
  lemma ResultIsFinal(s: State, events: seq<Event>)
    requires Wf(s) && s.phase == Ended
    ensures SameEnding(s, Run(s, events).0)
  {
    RunAdvances(s, events);
  }

  /** Over any run a player leaves the game at most once, and only a voted-out player can still leave afterwards. */
  lemma StatusesOnlyMoveOn(s: State, events: seq<Event>, id: Id)
    requires Wf(s) && id in s.players
    ensures id in Run(s, events).0.players
    ensures StatusMove(s.players[id].status, Run(s, events).0.players[id].status)
  {
    RunAdvances(s, events);
  }
}
