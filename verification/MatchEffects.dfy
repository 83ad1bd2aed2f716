/**
 * What becomes of the players: what each command and each timer does to whom, and that nothing else touches
 * anybody but a vote that eliminates and the reveal of an elimination, which asks everybody anew.
 */
module MatchEffects {
  import opened Basics
  import Words
  import opened MatchTypes
  import opened MatchRules
  import opened MatchClock
  import opened MatchCommands

  ghost predicate Plays(t: State, id: Id) { id in t.players && t.players[id].status == Active }

  /** Still at the table: playing, or voted out and looking on. */
  ghost predicate Stays(t: State, id: Id) {
    id in t.players && (t.players[id].status == Active || t.players[id].status == Eliminated)
  }

  predicate VoteOpen(phase: Phase) { phase == Voting || phase == RunoffVoting }

  /** Of one player: presence stays; a vote may eliminate; a new reveal forgets the confirmation. */
  predicate OneFollows(p: Player, q: Player, voting: bool, revealed: bool) {
    && q.connected == p.connected && q.disconnects == p.disconnects && q.strikeAt == p.strikeAt
    && (q.status == p.status || (voting && p.status == Active && q.status == Eliminated))
    && q.confirmed == (p.confirmed && !revealed)
  }

  /** The players of `r`, given what has been done to them in a match that was in `phase`. */
  ghost predicate Follow(players: map<Id, Player>, phase: Phase, r: State) {
    && r.players.Keys == players.Keys
    && var revealed := r.phase == EliminationReveal && phase != EliminationReveal;
       forall id <- players :: OneFollows(players[id], r.players[id], VoteOpen(phase), revealed)
  }

  // ----- rules -----

  lemma SameFollow(s: State, r: State)
    requires r.players == s.players && (r.phase == s.phase || r.phase != EliminationReveal)
    ensures Follow(s.players, s.phase, r)
  {
  }

  lemma StartsFollow(s: State, from: nat, at: Time)
    requires Live(s) && from <= |s.setup.order|
    ensures StartTurn(s, from, at).players == s.players && StartTurn(s, from, at).phase != EliminationReveal
    ensures StartRound(s, at).players == s.players && StartRound(s, at).phase != EliminationReveal
  {
    hide StartTurn, Changes, PlayersMove, ValidSetup, TurnClock, Actives, RunsPast;
  }

  lemma EliminateFollows(s: State, id: Id, at: Time)
    requires Live(s) && VoteOpen(s.phase) && id in Actives(s.players)
    ensures Follow(s.players, s.phase, Eliminate(s, id, at))
  {
    hide ValidSetup, Elements, ActiveCitizens, ActiveImpostors, Changes, PlayersMove, RunsPast;
  }

  lemma ShowFollows(s: State, at: Time)
    requires Live(s) && VoteOpen(s.phase)
    ensures forall tied, n :: Follow(s.players, s.phase, ShowElimination(s.(tied := tied, tiedVotes := n), "", at))
  {
    hide ValidSetup, Elements, Changes, PlayersMove, RunsPast, Actives;
  }

  lemma TallyFollow(s: State, at: Time)
    requires Live(s) && InVote(s.phase)
    ensures Follow(s.players, s.phase, Tally(s, at))
  {
    hide StartRound, PlayersMove, ValidSetup, Elements, Distinct, Top, Most, RunsPast, Changes, Eliminate, Actives,
      Follow, ShowElimination;
    var t, top, r := FileVotes(s), Top(s.candidates, s.votes), Tally(s, at);
    StartsFollow(t, 0, at);
    ShowFollows(t, at);
    if |top| == 1 {
      TopIsCandidate(s.candidates, s.votes);
      EliminateFollows(t, top[0], at);
    }
    if r.players == s.players && r.phase != EliminationReveal { SameFollow(s, r); }
  }

  lemma MaybeAdvanceFollow(s: State, at: Time)
    requires Live(s)
    ensures Follow(s.players, s.phase, MaybeAdvance(s, at))
  {
    hide StartTurn, StartRound, Tally, PlayersMove, ValidSetup, Actives, AllConnectedAcked, AllConnectedVoted, Changes,
      Follow;
    StartsFollow(s, 0, at);
    if InVote(s.phase) { TallyFollow(s, at); }
    if MaybeAdvance(s, at).players == s.players && !InVote(s.phase) { SameFollow(s, MaybeAdvance(s, at)); }
    SameFollow(s, s);
  }

  lemma JudgeFollow(s: State, impostorGone: bool, holderGone: bool, at: Time)
    requires Live(s)
    ensures Follow(s.players, s.phase, Judge(s, impostorGone, holderGone, at))
  {
    hide MaybeAdvance, StartTurn, End, PlayersMove, ValidSetup, Actives, Changes, ActiveCitizens, ActiveImpostors,
      Follow;
    MaybeAdvanceFollow(s, at);
    StartsFollow(s, s.turn + 1, at);
    var r := Judge(s, impostorGone, holderGone, at);
    if r.players == s.players && (r.phase == s.phase || r.phase != EliminationReveal) { SameFollow(s, r); }
  }

  lemma RemovalFollow(s: State, gone: set<Id>, status: Status, at: Time)
    requires Live(s) && MayGo(s, gone, status)
    ensures var q := map id | id in s.players ::
        if id in gone then s.players[id].(status := status) else s.players[id];
      forall version :: Follow(q, s.phase, RemoveAll(s, gone, status, at).(version := version))
  {
    hide Judge, PlayersMove, ValidSetup, Actives, Changes, Drop;
    WithoutKeepsShape(s, gone, status);
    JudgeFollow(Without(s, gone, status), s.setup.impostor in gone, s.phase == Hints && Holder(s) in gone, at);
  }

  lemma ExpireFollow(s: State, at: Time)
    requires Live(s)
    ensures forall version :: Follow(s.players, s.phase, Expire(s, at).(version := version))
  {
    hide StartTurn, StartRound, Tally, PlayersMove, ValidSetup, Actives, Changes, ActiveIds, End;
    StartsFollow(s, 0, at);
    match s.phase
    case Hints => StartsFollow(s.(hints := s.hints + [MissingHint(s)], pending := map[]), s.turn + 1, at);
    case HintBreak => StartsFollow(s, s.turn + 1, at);
    case Voting => TallyFollow(s, at);
    case RunoffVoting => TallyFollow(s, at);
    case RoleReveal =>
    case PreVoting =>
    case EliminationReveal =>
    case ImpostorGuess =>
  }

  // ----- timers -----

  /** The strikes of the moment: each counts for its player, and a third removes them. */
  ghost function Struck(players: map<Id, Player>, at: Time): map<Id, Player> {
    map id | id in players ::
      var p := players[id];
      if p.status == Active && p.strikeAt == Some(at)
      then p.(strikeAt := None, disconnects := p.disconnects + 1,
              status := if p.disconnects + 1 >= MAX_DISCONNECTS then Removed else Active)
      else p
  }

  lemma StrikesFollow(s: State, at: Time)
    requires Live(s)
    ensures forall version :: Follow(Struck(s.players, at), s.phase, CountStrikes(s, at).(version := version))
  {
    hide RemoveAll, ValidSetup, Elements, Actives, Changes, PlayersMove;
    StrikeKeepsShape(s, at);
    var t := Strike(s, at);
    if OutAt(s, at) != {} { RemovalFollow(t, OutAt(s, at), Removed, at); }
  }

  /** A strike moment does to the players what the strikes do, and a phase timer nothing but what may follow. */
  lemma TimersTouchPlayers(s: State)
    requires Live(s)
    ensures match NextTimer(s)
      case StrikeDue(at) => Follow(Struck(s.players, at), s.phase, Step(s))
      case PhaseDue(_) => Follow(s.players, s.phase, Step(s))
      case Idle => false
  {
    hide CountStrikes, Expire, ValidSetup, Elements, Actives, EarliestStrike, Follow, Changes, PlayersMove, Struck;
    match NextTimer(s)
    case StrikeDue(at) => StrikesFollow(s, at);
    case PhaseDue(at) => ExpireFollow(s, at);
  }

  // ----- commands -----

  /** What a command that is taken does to its player. */
  ghost function Touched(t: State, now: Time, c: Command): map<Id, Player> {
    if !Stays(t, c.id) then t.players
    else
      var p := t.players[c.id];
      match c
      case ConfirmRole(id) => t.players[id := p.(confirmed := true)]
      case ContinueAfterElimination(id) => t.players[id := p.(confirmed := true)]
      case Disconnect(id) =>
        if !p.connected then t.players
        else t.players[id := p.(connected := false, strikeAt :=
          if t.phase != Ended && p.status == Active then Some(now + t.setup.cfg.reconnect) else p.strikeAt)]
      case Reconnect(id) =>
        if p.connected then t.players else t.players[id := p.(connected := true, strikeAt := None)]
      case Leave(id) => if t.phase == Ended then t.players else t.players[id := p.(status := Left)]
      case _ => t.players
  }

  /** A command does that to its player and nothing to anybody else, but for what may follow; refused, nothing. */
  lemma CommandsTouchPlayers(s: State, now: Time, c: Command)
    requires Wf(s)
    ensures var t, r := Tick(s, now), Apply(s, now, c);
      Follow(if r.1 == Ok then Touched(t, now, c) else t.players, t.phase, r.0)
  {
    hide Act, Tick, Wf, Follow, Touched;
    ActTouches(Tick(s, now), now, c);
  }

  lemma ActTouches(s: State, now: Time, c: Command)
    requires Wf(s)
    ensures var r := Act(s, now, c); Follow(if r.1 == Ok then Touched(s, now, c) else s.players, s.phase, r.0)
  {
    hide ActConfirmRole, ActSubmitHint, ActReact, ActVote, ActSubmitGuess, ActContinueAfterElimination, ActDisconnect,
      ActReconnect, ActLeave, Wf, Follow;
    match c
    case ConfirmRole(id) => ConfirmationsTouch(s, id, now);
    case ContinueAfterElimination(id) => ConfirmationsTouch(s, id, now);
    case SubmitHint(id, text) => HintTouches(s, id, text, now);
    case React(id, k, reaction) => ReactionTouches(s, id, k, reaction);
    case Vote(id, target) => VoteTouches(s, id, target, now);
    case SubmitGuess(id, guess) => GuessTouches(s, id, guess);
    case Disconnect(id) => DropTouches(s, id, now);
    case Reconnect(id) => ReturnTouches(s, id, now);
    case Leave(id) => ExitTouches(s, id, now);
  }

  lemma OnePlayerFollow(s: State, id: Id, p: Player, now: Time)
    requires Live(s) && id in s.players && p.status == s.players[id].status
    ensures var t := s.(players := s.players[id := p]);
      Wf(t) && forall version :: Follow(t.players, s.phase, MaybeAdvance(t, now).(version := version))
  {
    hide MaybeAdvance, ValidSetup, Elements, Actives;
    var t := s.(players := s.players[id := p]);
    SameActives(s.players, id, p);
    MaybeAdvanceFollow(t, now);
  }

  lemma ConfirmationsTouch(s: State, id: Id, now: Time)
    requires Wf(s)
    ensures var r := ActConfirmRole(s, id, now);
      Follow(if r.1 == Ok then Touched(s, now, ConfirmRole(id)) else s.players, s.phase, r.0)
    ensures var r := ActContinueAfterElimination(s, id, now);
      Follow(if r.1 == Ok then Touched(s, now, ContinueAfterElimination(id)) else s.players, s.phase, r.0)
  {
    hide MaybeAdvance, ValidSetup, Actives, Shape, Follow;
    SameFollow(s, s);
    if id in s.players {
      if s.phase != Ended { OnePlayerFollow(s, id, Confirm(s, id).players[id], now); }
      assert s.players[id].confirmed ==> s.players[id := s.players[id].(confirmed := true)] == s.players;
    }
  }

  lemma HintTouches(s: State, id: Id, text: string, now: Time)
    requires Wf(s)
    ensures Follow(s.players, s.phase, ActSubmitHint(s, id, text, now).0)
  {
    hide ValidSetup, Actives, Elements, Tidy, HintVerdict;
  }

  lemma ReactionTouches(s: State, id: Id, k: int, reaction: string)
    requires Wf(s)
    ensures Follow(s.players, s.phase, ActReact(s, id, k, reaction).0)
  {
    hide ValidSetup, Actives, Elements, Land, Added, Shape;
  }

  lemma VoteTouches(s: State, id: Id, target: Id, now: Time)
    requires Wf(s)
    ensures Follow(s.players, s.phase, ActVote(s, id, target, now).0)
  {
    hide MaybeAdvance, ValidSetup, Actives;
    SameFollow(s, s);
    if InVote(s.phase) { MaybeAdvanceFollow(s.(votes := s.votes[id := target], voteCast := true), now); }
  }

  lemma GuessTouches(s: State, id: Id, guess: string)
    requires Wf(s)
    ensures Follow(s.players, s.phase, ActSubmitGuess(s, id, guess).0)
  {
    hide ValidSetup, Actives, Elements, Words.Accepts, Aliases, End;
  }

  lemma LinesAreTouched(s: State, id: Id, now: Time)
    requires Wf(s) && Stays(s, id)
    ensures s.players[id].connected ==> Dropped(s, id, now).players == Touched(s, now, Disconnect(id))
    ensures !s.players[id].connected ==> Returned(s, id).players == Touched(s, now, Reconnect(id))
  {
    hide ValidSetup, Actives, Elements;
  }

  lemma SameOrAdvanced(t: State, r: State, now: Time)
    requires Wf(t) && r.players == t.players && r.phase == t.phase
    ensures Follow(t.players, t.phase, r)
    ensures Live(t) ==> forall version :: Follow(t.players, t.phase, MaybeAdvance(t, now).(version := version))
  {
    hide MaybeAdvance, ValidSetup, Actives, Elements;
    SameFollow(t, r);
    if Live(t) { MaybeAdvanceFollow(t, now); }
  }

  lemma DropTouches(s: State, id: Id, now: Time)
    requires Wf(s)
    ensures var r := ActDisconnect(s, id, now);
      Follow(if r.1 == Ok then Touched(s, now, Disconnect(id)) else s.players, s.phase, r.0)
  {
    hide MaybeAdvance, ValidSetup, Actives, Elements, Changes, Dropped, Follow;
    SameFollow(s, s);
    if Watcher(s, id) == Ok && s.players[id].connected {
      LinesAreTouched(s, id, now);
      var t, r := Dropped(s, id, now), ActDisconnect(s, id, now).0;
      SameOrAdvanced(t, if r.players == t.players && r.phase == t.phase then r else t, now);
    }
  }

  lemma ReturnTouches(s: State, id: Id, now: Time)
    requires Wf(s)
    ensures var r := ActReconnect(s, id, now);
      Follow(if r.1 == Ok then Touched(s, now, Reconnect(id)) else s.players, s.phase, r.0)
  {
    hide MaybeAdvance, ValidSetup, Actives, Elements, Changes, Returned, Follow;
    SameFollow(s, s);
    if Watcher(s, id) == Ok && !s.players[id].connected {
      LinesAreTouched(s, id, now);
      var t, r := Returned(s, id), ActReconnect(s, id, now).0;
      SameOrAdvanced(t, if r.players == t.players && r.phase == t.phase then r else t, now);
    }
  }

  lemma ExitTouches(s: State, id: Id, now: Time)
    requires Wf(s)
    ensures var r := ActLeave(s, id, now);
      Follow(if r.1 == Ok then Touched(s, now, Leave(id)) else s.players, s.phase, r.0)
  {
    hide RemoveAll, ValidSetup, Actives, Elements;
    if Stays(s, id) && s.phase != Ended {
      RemovalFollow(s, {id}, Left, now);
      assert (map i | i in s.players :: if i in {id} then s.players[i].(status := Left) else s.players[i]) ==
        s.players[id := s.players[id].(status := Left)];
    }
  }
}
