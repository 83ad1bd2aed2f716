/**
 * How the turn passes: what the timers of the hint phases, of the pause before a vote and of the guess do,
 * and what becomes of a turn when players are lost.
 */
module MatchPassing {
  import opened Basics
  import Words
  import opened MatchTypes
  import opened MatchRules
  import opened MatchClock
  import opened MatchCommands
  import opened MatchInvariant
  import opened MatchKeeps
  import opened MatchPolls
  import opened MatchEffects
  import opened MatchReveals

  /** The turn goes to the first player from seat `from` on, or the vote is near if there is none. */
  ghost predicate TurnPasses(t: State, r: State, from: nat) {
    && r.round == t.round
    && (FirstTurn(r, from) ||
          (r.phase == PreVoting && forall k :: from <= k < |r.setup.order| ==> r.setup.order[k] !in Actives(r.players)))
  }

  predicate Between(phase: Phase) {
    phase == Hints || phase == HintBreak || phase == PreVoting || phase == ImpostorGuess
  }

  /** After a loss that does not end the match: the turn passes if its holder is lost, and otherwise goes on. */
  ghost predicate LossFollows(t: State, r: State) {
    && r.hints == t.hints
    && if t.phase == Hints && t.turn < |t.setup.order| && t.setup.order[t.turn] !in Actives(r.players)
       then TurnPasses(t, r, t.turn + 1)
       else Stands(t, r)
  }

  ghost predicate Stands(t: State, r: State) { r.phase == t.phase && r.turn == t.turn && r.round == t.round }

  /** The players in seating order: each of them once, and nobody else. */
  ghost predicate InSeatingOrder(order: seq<Id>, players: map<Id, Player>, ids: seq<Id>) {
    && (forall id :: id in ids <==> id in order && id in Actives(players))
    && forall i, j :: 0 <= i < j < |ids| ==> Seat(order, ids[i]) < Seat(order, ids[j])
  }

  lemma SeatedLater(order: seq<Id>, id: Id)
    requires order != [] && id != order[0] && id in order
    ensures Seat(order, id) == Seat(order[1..], id) + 1
  {
  }

  lemma {:induction false} ActiveIdsInOrder(order: seq<Id>, players: map<Id, Player>)
    requires Distinct(order)
    ensures InSeatingOrder(order, players, ActiveIds(order, players))
  {
    ActiveIdsElements(order, players);
    forall id ensures id in ActiveIds(order, players) <==> id in order && id in Actives(players) {
      assert id in ActiveIds(order, players) <==> id in Elements(ActiveIds(order, players));
    }
    if order != [] {
      ActiveIdsInOrder(order[1..], players);
      var rest, ids := ActiveIds(order[1..], players), ActiveIds(order, players);
      forall k | 0 <= k < |rest| ensures Seat(order, rest[k]) == Seat(order[1..], rest[k]) + 1 {
        assert rest[k] in rest;
        SeatedLater(order, rest[k]);
      }
      forall i, j | 0 <= i < j < |ids| ensures Seat(order, ids[i]) < Seat(order, ids[j]) {
        if order[0] in Actives(players) {
          assert ids == [order[0]] + rest;
        }
      }
    }
  }

  // ----- rules -----

  lemma StartTurnPasses(s: State, from: nat, at: Time)
    requires Live(s) && from <= |s.setup.order|
    ensures var r := StartTurn(s, from, at);
      r.hints == s.hints && r.players == s.players && r.pending == s.pending && r.setup == s.setup
    ensures forall version :: TurnPasses(s, StartTurn(s, from, at).(version := version), from)
  {
    hide StartTurn, Changes, PlayersMove, ValidSetup, TurnClock, Actives, RunsPast;
    TurnFromFirst(s, from, at);
  }

  lemma PassesFrom(s: State, t: State, r: State, from: nat)
    requires TurnPasses(t, r, from) && t.round == s.round
    ensures TurnPasses(s, r, from)
  {
    hide Actives;
  }

  /** A judged loss that does not end the match. */
  lemma JudgePasses(s: State, impostorGone: bool, holderGone: bool, at: Time)
    requires Live(s) && Between(s.phase) && (holderGone ==> s.phase == Hints)
    ensures var r := Judge(s, impostorGone, holderGone, at);
      && (r.phase != Ended ==> r.hints == s.hints && r.players == s.players && r.setup == s.setup)
      && (r.phase != Ended && holderGone ==> forall version :: TurnPasses(s, r.(version := version), s.turn + 1))
      && (r.phase != Ended && !holderGone ==> Stands(s, r))
  {
    hide MaybeAdvance, StartTurn, End, PlayersMove, ValidSetup, Actives, Changes, ActiveCitizens, ActiveImpostors,
      TurnPasses;
    EndEnds(s);
    if s.phase == Hints { StartTurnPasses(s, s.turn + 1, at); }
  }

  lemma EndEnds(s: State)
    requires Live(s)
    ensures forall winner, reason :: End(s, winner, reason).phase == Ended
  {
    hide ValidSetup, Elements, Actives;
  }

  lemma LossPasses(s: State, gone: set<Id>, status: Status, at: Time)
    requires Live(s) && Between(s.phase) && MayGo(s, gone, status)
    requires s.phase == Hints ==> Holder(s) in Actives(s.players)
    ensures var r := RemoveAll(s, gone, status, at);
      r.phase != Ended ==> forall version :: LossFollows(s, r.(version := version))
  {
    hide Judge, PlayersMove, ValidSetup, Elements, Changes, Drop, FirstTurn, Actives;
    WithoutKeepsShape(s, gone, status);
    var t := Without(s, gone, status);
    JudgePasses(t, s.setup.impostor in gone, s.phase == Hints && Holder(s) in gone, at);
  }

  // ----- main results -----

  /**
   * What the timers do between reveals and votes: a turn that ran out leaves a missing hint, with the
   * reactions that waited, and passes; a held hint is followed by the next turn; the pause opens the vote
   * on all players, in seating order; and a guess not made loses the match.
   */
  lemma TimersPassTheTurn(s: State)
    requires Live(s) && Between(s.phase) && NextTimer(s).PhaseDue?
    ensures var r := Step(s);
      match s.phase
      case Hints =>
        && TurnPasses(s, r, s.turn + 1) && r.pending == map[]
        && r.hints == s.hints + [Hint(s.setup.order[s.turn], "", s.round, true, s.pending)]
      case HintBreak => TurnPasses(s, r, s.turn + 1) && r.pending == s.pending && r.hints == s.hints
      case PreVoting =>
        && r.phase == Voting && r.round == s.round && r.votes == map[] && !r.voteCast && r.hints == s.hints
        && InSeatingOrder(s.setup.order, s.players, r.candidates)
      case ImpostorGuess =>
        && r.phase == Ended && r.result.Some?
        && r.result.value.winner == Citizens && r.result.value.reason == ImpostorGuessTimeout
      case _ => true
  {
    hide StartTurn, Changes, PlayersMove, ValidSetup, TurnClock, Actives, RunsPast, Tally, StartRound, EarliestStrike,
      Elements, TurnPasses, ActiveIds, InSeatingOrder;
    var at := NextTimer(s).at;
    match s.phase
    case Hints =>
      var t := s.(hints := s.hints + [MissingHint(s)], pending := map[]);
      StartTurnPasses(t, s.turn + 1, at);
      PassesFrom(s, t, Step(s), s.turn + 1);
    case HintBreak => StartTurnPasses(s, s.turn + 1, at);
    case PreVoting =>
      OrderIsDistinct(s);
      ActiveIdsInOrder(s.setup.order, s.players);
    case ImpostorGuess =>
    case _ =>
  }

  lemma OrderIsDistinct(s: State)
    requires Wf(s)
    ensures Distinct(s.setup.order)
  {
  }

  /** Strikes between reveals and votes touch the turn only by the loss of its holder. */
  lemma StrikesPassTheTurn(s: State)
    requires Live(s) && Inv(s) && Between(s.phase) && NextTimer(s).StrikeDue?
    ensures var r := Step(s); r.phase == Ended || LossFollows(s, r)
  {
    hide CountStrikes, Inv, Wf, Actives, EarliestStrike, OutAt, LossFollows;
    HolderIn(s);
    StrikesLose(s, NextTimer(s).at);
  }

  lemma HolderIn(s: State)
    requires Inv(s)
    ensures Wf(s) && (s.phase == Hints ==> Holder(s) in Actives(s.players))
  {
    hide Board, Strikes, Filed, TurnsDone, Ballot, Verdict, Teams, ValidSetup, Elements;
  }

  lemma StrikesLose(s: State, at: Time)
    requires Live(s) && Between(s.phase) && (s.phase == Hints ==> Holder(s) in Actives(s.players))
    ensures var r := CountStrikes(s, at);
      r.phase == Ended || forall version :: LossFollows(s, r.(version := version))
  {
    hide RemoveAll, ValidSetup, Elements, OutAt, StruckAt, Changes, PlayersMove, FirstTurn;
    StrikeKeepsShape(s, at);
    var t := Strike(s, at);
    assert Actives(t.players) == Actives(s.players);
    if OutAt(s, at) != {} {
      LossPasses(t, OutAt(s, at), Removed, at);
      if CountStrikes(s, at).phase != Ended { LossFrom(s, t, CountStrikes(s, at)); }
    }
  }

  lemma LossFrom(s: State, t: State, r: State)
    requires forall version :: LossFollows(t, r.(version := version))
    requires t == s.(players := t.players)
    ensures forall version :: LossFollows(s, r.(version := version))
  {
    hide Actives, FirstTurn;
    forall version ensures LossFollows(s, r.(version := version)) {
      assert LossFollows(t, r.(version := version));
    }
  }

  // ----- commands -----

  /** The commands that need the phase they are for, or only move a line, leave the turn where it is. */
  ghost predicate Passive(c: Command) { !c.Leave? && !c.SubmitHint? && !c.SubmitGuess? }

  /** Between reveals and votes no command passes the turn but a hint, a guess, or the exit of its holder. */
  lemma CommandsPassTheTurn(s: State, now: Time, c: Command)
    requires Wf(s) && Inv(s)
    ensures var t, r := Tick(s, now), Apply(s, now, c);
      Between(t.phase) ==>
        && (Passive(c) || r.1 != Ok ==> Stands(t, r.0) && |r.0.hints| == |t.hints|)
        && (c.Leave? ==> r.0.phase == Ended || LossFollows(t, r.0))
  {
    hide Act, Tick, Inv, Wf, LossFollows, Stands;
    TickInv(s, now);
    if Between(Tick(s, now).phase) { ActPasses(Tick(s, now), now, c); }
  }

  lemma ActPasses(s: State, now: Time, c: Command)
    requires Live(s) && Inv(s) && Between(s.phase)
    ensures var r := Act(s, now, c);
      && (Passive(c) || r.1 != Ok ==> Stands(s, r.0) && |r.0.hints| == |s.hints|)
      && (c.Leave? ==> r.0.phase == Ended || LossFollows(s, r.0))
  {
    hide ActLeave, ActSubmitHint, ActSubmitGuess, ActVote, ActReact, ActDisconnect, ActReconnect, ActConfirmRole,
      ActContinueAfterElimination, Inv, Wf, LossFollows, Actives;
    HolderIn(s);
    if c.Leave? { ExitPasses(s, c.id, now); }
    if Act(s, now, c).1 != Ok { RefusedStands(s, now, c); }
    if Passive(c) { PassiveStands(s, now, c); }
  }

  lemma ExitPasses(s: State, id: Id, now: Time)
    requires Live(s) && Between(s.phase) && (s.phase == Hints ==> Holder(s) in Actives(s.players))
    ensures var r := ActLeave(s, id, now).0; r.phase == Ended || LossFollows(s, r)
  {
    hide RemoveAll, ValidSetup, Elements, FirstTurn;
    if Stays(s, id) { LossPasses(s, {id}, Left, now); }
  }

  lemma RefusedStands(s: State, now: Time, c: Command)
    requires Wf(s) && Act(s, now, c).1 != Ok
    ensures Act(s, now, c).0 == s
  {
    hide ValidSetup, Elements, Actives, MaybeAdvance, End, RemoveAll, HintVerdict, Land, Words.Accepts, Tidy, Changes;
  }

  lemma PassiveStands(s: State, now: Time, c: Command)
    requires Live(s) && Between(s.phase) && Passive(c)
    ensures Stands(s, Act(s, now, c).0) && |Act(s, now, c).0.hints| == |s.hints|
  {
    hide ActReact, ActDisconnect, ActReconnect, Wf, Actives, MaybeAdvance;
    match c
    case React(id, k, reaction) => ReactionStands(s, id, k, reaction);
    case Disconnect(id) => DropStands(s, now, id);
    case Reconnect(id) => ReturnStands(s, now, id);
    case ConfirmRole(_) =>
    case ContinueAfterElimination(_) =>
    case Vote(_, _) =>
  }

  lemma DropStands(s: State, now: Time, id: Id)
    requires Live(s) && Between(s.phase)
    ensures var r := ActDisconnect(s, id, now).0; Stands(s, r) && |r.hints| == |s.hints|
  {
    hide ValidSetup, Elements, Actives, MaybeAdvance, Changes;
  }

  lemma ReturnStands(s: State, now: Time, id: Id)
    requires Live(s) && Between(s.phase)
    ensures var r := ActReconnect(s, id, now).0; Stands(s, r) && |r.hints| == |s.hints|
  {
    hide ValidSetup, Elements, Actives, MaybeAdvance, Changes;
  }

  lemma ReactionStands(s: State, id: Id, k: int, reaction: string)
    requires Wf(s)
    ensures var r := ActReact(s, id, k, reaction).0; Stands(s, r) && |r.hints| == |s.hints|
  {
    hide ValidSetup, Elements, Actives, Land, Added, Wf;
  }

  // ----- when a loss ends the match -----

  /** Outside a vote a loss ends a match exactly when the impostor is among them or at most one citizen is left. */
  ghost predicate LossEnds(t: State, r: State, gone: set<Id>) {
    r.phase == Ended <==>
      t.setup.impostor in gone || (t.phase != ImpostorGuess && |ActiveCitizens(t) - gone| <= 1)
  }

  lemma JudgeEnds(s: State, impostorGone: bool, holderGone: bool, at: Time)
    requires Live(s) && !InVote(s.phase) && (holderGone ==> s.phase == Hints)
    requires !impostorGone ==> s.setup.impostor in Actives(s.players)
    ensures Judge(s, impostorGone, holderGone, at).phase == Ended <==>
      impostorGone || (s.phase != ImpostorGuess && |ActiveCitizens(s)| <= 1)
  {
    hide MaybeAdvance, StartTurn, End, PlayersMove, ValidSetup, Changes, Elements, RevealFollows;
    EndEnds(s);
    if s.setup.impostor in Actives(s.players) { ActivesSplit(s); }
    if s.phase == Hints { StartTurnPasses(s, s.turn + 1, at); }
    if Reveal(s.phase) && Actives(s.players) != {} {
      AdvanceFollows(s, at);
      FollowsIsLive(s, MaybeAdvance(s, at));
    }
  }

  lemma RemovalEnds(s: State, gone: set<Id>, status: Status, at: Time)
    requires Live(s) && !InVote(s.phase) && MayGo(s, gone, status) && s.setup.impostor in Actives(s.players)
    ensures LossEnds(s, RemoveAll(s, gone, status, at), gone)
  {
    hide Judge, PlayersMove, ValidSetup, Elements, Changes, Drop, ActiveCitizens;
    WithoutKeepsShape(s, gone, status);
    CitizensLeft(s, gone, status);
    JudgeEnds(Without(s, gone, status), s.setup.impostor in gone, s.phase == Hints && Holder(s) in gone, at);
  }

  /** An exit ends a match outside a vote exactly when it decides it. */
  lemma ExitsEndDecidedMatches(s: State, now: Time, id: Id)
    requires Wf(s) && Inv(s)
    ensures var t, r := Tick(s, now), Apply(s, now, Leave(id)).0;
      t.phase != Ended && !VoteOpen(t.phase) && Stays(t, id) ==> LossEnds(t, r, {id})
  {
    hide ActLeave, Tick, Inv, Wf, LossEnds, Stays;
    TickInv(s, now);
    var t := Tick(s, now);
    if t.phase != Ended && !VoteOpen(t.phase) && Stays(t, id) { ExitDecides(t, id, now); }
  }

  lemma ExitDecides(s: State, id: Id, now: Time)
    requires Live(s) && Inv(s) && !VoteOpen(s.phase) && Stays(s, id)
    ensures LossEnds(s, ActLeave(s, id, now).0, {id})
  {
    hide ActLeave, Inv, Wf, LossEnds, Stays, Actives;
    InvIsConsistent(s);
    ImpostorPlays(s);
    ExitEnds(s, id, now);
  }

  lemma ExitEnds(s: State, id: Id, now: Time)
    requires Live(s) && !InVote(s.phase) && s.setup.impostor in Actives(s.players) && Stays(s, id)
    ensures LossEnds(s, ActLeave(s, id, now).0, {id})
  {
    hide RemoveAll, ValidSetup, Elements, ActiveCitizens;
    RemovalEnds(s, {id}, Left, now);
  }

  /** ... and so do the third strikes of a moment. */
  lemma StrikesEndDecidedMatches(s: State)
    requires Live(s) && Inv(s) && !VoteOpen(s.phase) && NextTimer(s).StrikeDue?
    ensures var out := OutAt(s, NextTimer(s).at);
      if out == {} then Step(s).phase == s.phase else LossEnds(s, Step(s), out)
  {
    hide CountStrikes, Inv, Wf, Actives, EarliestStrike, OutAt, LossEnds;
    InvIsConsistent(s);
    ImpostorPlays(s);
    StrikesEnd(s, NextTimer(s).at);
  }

  lemma StrikesEnd(s: State, at: Time)
    requires Live(s) && !InVote(s.phase) && s.setup.impostor in Actives(s.players)
    ensures var r, out := CountStrikes(s, at), OutAt(s, at);
      if out == {} then r.phase == s.phase else forall version :: LossEnds(s, r.(version := version), out)
  {
    hide RemoveAll, ValidSetup, Elements, OutAt, StruckAt, Changes, PlayersMove;
    StrikeKeepsShape(s, at);
    var t := Strike(s, at);
    assert Actives(t.players) == Actives(s.players) && ActiveCitizens(t) == ActiveCitizens(s);
    if OutAt(s, at) != {} { RemovalEnds(t, OutAt(s, at), Removed, at); }
  }
}
