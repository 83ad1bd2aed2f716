/** Votes and endings of a reachable match: who is chosen, what follows, and who wins. */
module MatchVotes {
  import opened Basics
  import opened MatchTypes
  import opened MatchRules
  import opened MatchClock
  import opened MatchCommands
  import opened MatchInvariant
  import opened MatchOpening

  // ----- votes in hand -----

  /** Every vote in hand is by an active player for another player still in the running. */
  lemma VotesAreHonest(s: State, v: Id)
    requires Reachable(s) && InVote(s.phase) && v in s.votes
    ensures v in Actives(s.players) && s.votes[v] in Actives(s.players)
    ensures s.votes[v] in s.candidates && s.votes[v] != v
  {
    hide Reachable, Board, Strikes, Filed, TurnsDone, Verdict, Distinct, ActiveIds;
    ReachableInv(s);
    assert VoteOk(s, v);
    assert s.votes[v] in Elements(s.candidates);
  }

  /** `VotesCast` of a view never exceeds its `Voters`. */
  lemma VotesCastAtMostVoters(s: State)
    requires Reachable(s) && InVote(s.phase)
    ensures |s.votes| <= |Voters(s)|
  {
    hide Reachable, Board, Strikes, Filed, TurnsDone, Verdict, Distinct, ActiveIds;
    ReachableInv(s);
    forall v | v in s.votes ensures v in Voters(s) {
      assert VoteOk(s, v);
    }
    SubsetSize(s.votes.Keys, Voters(s));
  }

  /** While a vote is open, either no connected player can vote, or one of them still has to. */
  lemma VoteNeverLingers(s: State)
    requires Reachable(s) && InVote(s.phase)
    ensures ConnectedVoters(s) == {} || exists id :: id in ConnectedVoters(s) && id !in s.votes
  {
    hide Reachable, Consistent, ConnectedVoters;
    ReachableInv(s);
  }

  // ----- the tally -----

  /** The candidates with a vote that nobody beats. */
  ghost function Leaders(candidates: seq<Id>, votes: map<Id, Id>): set<Id> {
    set c | c in Elements(candidates) && 0 < VotesFor(votes, c) &&
      forall d :: d in candidates ==> VotesFor(votes, d) <= VotesFor(votes, c)
  }

  lemma {:induction false} MostIsMost(candidates: seq<Id>, votes: map<Id, Id>)
    ensures forall c :: c in candidates ==> VotesFor(votes, c) <= Most(candidates, votes)
    ensures 0 < Most(candidates, votes) ==> exists c :: c in candidates && VotesFor(votes, c) == Most(candidates, votes)
  {
    hide VotesFor;
    if candidates != [] { MostIsMost(candidates[1..], votes); }
  }

  lemma TopIsLeaders(candidates: seq<Id>, votes: map<Id, Id>)
    requires Distinct(candidates)
    ensures Elements(Top(candidates, votes)) == Leaders(candidates, votes)
    ensures Distinct(Top(candidates, votes)) && |Top(candidates, votes)| == |Leaders(candidates, votes)|
    ensures forall c <- Leaders(candidates, votes) :: VotesFor(votes, c) == Most(candidates, votes)
  {
    hide VotesFor, Most, WithCount;
    var top, most := Top(candidates, votes), Most(candidates, votes);
    MostIsMost(candidates, votes);
    WithCountSubset(candidates, votes, most);
    forall c ensures c in Elements(top) <==> c in Leaders(candidates, votes) {
    }
    TopDistinct(candidates, votes);
    DistinctSize(top);
  }

  ghost predicate SameFates(s: State, r: State) {
    r.players.Keys == s.players.Keys && forall id <- s.players :: r.players[id].status == s.players[id].status
  }

  /** What the table has decided by its votes. */
  datatype Choice = Deserted | Caught | Out(id: Id) | Tie(tied: set<Id>) | Nobody

  ghost function ChoiceOf(s: State): Choice {
    var leaders := Leaders(s.candidates, s.votes);
    if s.votes == map[] && !s.voteCast && s.silentVotes + 1 >= MAX_SILENT_VOTES then Deserted
    else if leaders == {s.setup.impostor} then Caught
    else if |leaders| == 1 then var id :| id in leaders; Out(id)
    else if |leaders| > 1 then Tie(leaders)
    else Nobody
  }

  ghost predicate EndedBecause(r: State, reason: EndReason) {
    r.phase == Ended && r.result.Some? && r.result.value.reason == reason
  }

  /** Only `id` changes status: voted out. */
  ghost predicate OnlyOut(s: State, r: State, id: Id) {
    && id in s.players && r.players.Keys == s.players.Keys
    && forall i <- s.players :: r.players[i].status == if i == id then Eliminated else s.players[i].status
  }

  /** A tie is voted on again, once, among exactly those tied; a second one puts nobody out. */
  ghost predicate TieFollows(s: State, r: State, tied: set<Id>) {
    if s.phase == Voting then
      && r.phase == RunoffVoting && Elements(r.candidates) == tied && Distinct(r.candidates)
      && r.votes == map[] && !r.voteCast
    else
      && r.phase == EliminationReveal && r.lastEliminated == ""
      && Elements(r.tied) == tied && Distinct(r.tied)
      && forall c <- tied :: r.tiedVotes == VotesFor(s.votes, c)
  }

  /** What a round starts from. */
  ghost predicate RoundOpens(s: State, r: State) {
    && r.round == s.round + 1 && r.votes == map[] && r.candidates == [] && r.pending == map[]
    && r.lastEliminated == "" && r.tied == []
  }

  /** What must follow from a choice. */
  ghost predicate Follows(s: State, r: State) {
    match ChoiceOf(s)
    case Deserted => EndedBecause(r, Abandoned) && SameFates(s, r)
    case Caught => r.phase == ImpostorGuess && SameFates(s, r)
    case Out(id) =>
      && id != s.setup.impostor && OnlyOut(s, r, id)
      && if |ActiveCitizens(s)| <= 2 then EndedBecause(r, ImpostorParity)
         else r.phase == EliminationReveal && r.lastEliminated == id
    case Tie(tied) => SameFates(s, r) && TieFollows(s, r, tied)
    case Nobody => RoundOpens(s, r) && (r.phase == Hints || r.phase == PreVoting) && SameFates(s, r)
  }

  lemma SingletonSet<T>(xs: seq<T>, a: set<T>)
    requires |xs| == 1 && Elements(xs) == a
    ensures a == {xs[0]}
  {
  }

  lemma OutCounts(s: State, id: Id)
    requires Live(s) && id in Actives(s.players) && id != s.setup.impostor && s.setup.impostor in Actives(s.players)
    ensures var t := VotedOut(s, id); ActiveImpostors(t) == 1 && |ActiveCitizens(t)| == |ActiveCitizens(s)| - 1
    ensures OnlyOut(s, VotedOut(s, id), id)
  {
    hide ValidSetup, Elements, PlayersMove, InVote;
    var t := VotedOut(s, id);
    assert Actives(t.players) == Actives(s.players) - {id};
    assert ActiveCitizens(s) == ActiveCitizens(t) + {id};
  }

  lemma EliminateFollows(s: State, id: Id, at: Time)
    requires Live(s) && id in Actives(s.players) && id != s.setup.impostor && s.setup.impostor in Actives(s.players)
    ensures var r := Eliminate(s, id, at);
      && OnlyOut(s, r, id) && r.voteRounds == s.voteRounds && r.abstentions == s.abstentions
      && r.silentVotes == s.silentVotes
      && if |ActiveCitizens(s)| <= 2 then EndedBecause(r, ImpostorParity)
         else r.phase == EliminationReveal && r.lastEliminated == id
  {
    hide ValidSetup, Elements, Actives, Changes, PlayersMove, VotedOut, ActiveCitizens, ActiveImpostors;
    OutCounts(s, id);
  }

  /** What every case of the tally does with the votes, and what follows. */
  ghost predicate TallyDone(s: State, r: State) {
    && r.voteRounds == s.voteRounds + [s.votes]
    && r.abstentions == s.abstentions + [|Actives(s.players)| - |s.votes|]
    && r.silentVotes == (if s.votes == map[] && !s.voteCast then s.silentVotes + 1 else 0)
    && Follows(s, r)
  }

  lemma TallyOutFollows(s: State, at: Time)
    requires Consistent(s) && InVote(s.phase) && ChoiceOf(s).Out?
    ensures TallyDone(s, Tally(s, at))
  {
    hide Board, Strikes, TurnsDone, Verdict, ActiveIds, Changes, PlayersMove, ValidSetup, Top, Most, VotesFor,
      Eliminate, Leaders, StartRound, StartVoting, ShowElimination, End, Elements, Distinct, Filed, CanVote,
      TurnClock, VoteOk, OnlyOut, ActiveCitizens;
    var t := FileVotes(s);
    var top := Top(s.candidates, s.votes);
    TopIsLeaders(s.candidates, s.votes);
    SingletonSet(top, Leaders(s.candidates, s.votes));
    TopIsCandidate(s.candidates, s.votes);
    EliminateFollows(t, top[0], at);
    SameCount(s, t);
  }

  lemma TallyTieFollows(s: State, at: Time)
    requires Consistent(s) && InVote(s.phase) && ChoiceOf(s).Tie?
    ensures TallyDone(s, Tally(s, at))
  {
    hide Board, Strikes, TurnsDone, Verdict, ActiveIds, Changes, PlayersMove, ValidSetup, Top, Most, VotesFor,
      Eliminate, Leaders, StartRound, End, Elements, Distinct, Filed, CanVote, TurnClock, VoteOk, OnlyOut,
      ActiveCitizens, Teams;
    TopIsLeaders(s.candidates, s.votes);
  }

  lemma TallyElseFollows(s: State, at: Time)
    requires Consistent(s) && InVote(s.phase) && (ChoiceOf(s).Deserted? || ChoiceOf(s).Caught? || ChoiceOf(s).Nobody?)
    ensures TallyDone(s, Tally(s, at))
  {
    hide Board, Strikes, TurnsDone, Verdict, ActiveIds, Changes, PlayersMove, ValidSetup, Top, Most, VotesFor,
      Eliminate, Leaders, StartTurn, StartVoting, ShowElimination, Elements, Distinct, Filed, CanVote, TurnClock,
      VoteOk, OnlyOut, ActiveCitizens, Teams;
    var top := Top(s.candidates, s.votes);
    TopIsLeaders(s.candidates, s.votes);
    if |top| == 1 { SingletonSet(top, Leaders(s.candidates, s.votes)); }
  }

  lemma TallyFollows(s: State, at: Time)
    requires Consistent(s) && InVote(s.phase)
    ensures TallyDone(s, Tally(s, at))
  {
    hide Consistent, Tally, Follows, ChoiceOf;
    match ChoiceOf(s)
    case Out(_) => TallyOutFollows(s, at);
    case Tie(_) => TallyTieFollows(s, at);
    case Deserted => TallyElseFollows(s, at);
    case Caught => TallyElseFollows(s, at);
    case Nobody => TallyElseFollows(s, at);
  }

  /**
   * A tally files the votes, accounts for every active player, and does exactly what the table chose:
   * in every consistent vote, so whenever a reachable match, or a call on one, comes to count.
   */
  lemma TallyFollowsTheTable(s: State, at: Time)
    requires Consistent(s) && InVote(s.phase)
    ensures Live(s)
    ensures var r := Tally(s, at);
      && r.voteRounds == s.voteRounds + [s.votes]
      && r.silentVotes == (if s.votes == map[] && !s.voteCast then s.silentVotes + 1 else 0)
      && |r.abstentions| == |r.voteRounds| && |s.votes| + r.abstentions[|r.abstentions| - 1] == |Actives(s.players)|
      && Follows(s, r)
  {
    hide Board, Strikes, TurnsDone, Verdict, ActiveIds, Changes, PlayersMove, ValidSetup, Tally, Follows;
    TallyFollows(s, at);
  }

  lemma SameCount(s: State, t: State)
    requires s.setup == t.setup && s.players == t.players
    ensures ActiveCitizens(s) == ActiveCitizens(t)
    ensures forall r: State, id: Id :: OnlyOut(t, r, id) ==> OnlyOut(s, r, id)
  {
  }

  // ----- endings -----

  /** A running match always has its impostor and, until the impostor is caught, two citizens. */
  lemma LiveMatchHasTwoSides(s: State)
    requires Reachable(s) && s.phase != Ended
    ensures s.result.None? && s.setup.impostor in Actives(s.players)
    ensures s.phase != ImpostorGuess ==> 2 <= |ActiveCitizens(s)|
  {
    hide Reachable, Board, Strikes, Filed, TurnsDone, Ballot;
    ReachableInv(s);
  }

  /**
   * An ended match explains itself: it is never "not enough players"; only an abandoned match
   * has no winner, after two empty votes; the impostor is gone exactly when it ended for that.
   */
  lemma ResultExplainsTheEnding(s: State)
    requires Reachable(s) && s.phase == Ended
    ensures s.result.Some? && s.setup.impostor in s.players
    ensures var r, impostor := s.result.value, s.players[s.setup.impostor];
      && r.reason != NotEnoughPlayers && r.winner == WinnerOf(r.reason)
      && (r.winner == NoTeam <==> r.reason == Abandoned)
      && (r.reason == ImpostorGone <==> impostor.status == Left || impostor.status == Removed)
      && (r.reason != ImpostorGone ==> impostor.status == Active)
      && (r.reason == ImpostorParity ==> |ActiveCitizens(s)| <= 1)
    ensures var r := s.result.value;
      && r.impostor == s.setup.impostor && r.secret == s.setup.secret
      && r.voteRounds == s.voteRounds && r.abstentions == s.abstentions
    ensures var r := s.result.value; r.reason == Abandoned ==>
      2 <= |r.voteRounds| && r.voteRounds[|r.voteRounds| - 1] == map[] && r.voteRounds[|r.voteRounds| - 2] == map[]
  {
    hide Reachable, Board, Strikes, TurnsDone, Ballot;
    ReachableInv(s);
  }

  /** Who wins: nobody, the impostor alone, or every citizen still in the match. */
  lemma OutcomesFollowTheWinner(s: State, id: Id)
    requires Reachable(s) && s.phase == Ended && id in s.players
    ensures s.result.Some? && id in s.result.value.outcomes
    ensures match s.result.value.winner
      case NoTeam => s.result.value.outcomes[id] == NoOutcome
      case Impostor => s.result.value.outcomes[id] == if id == s.setup.impostor then Win else Loss
      case Citizens =>
        s.result.value.outcomes[id] == if id != s.setup.impostor && s.players[id].Watching() then Win else Loss
  {
    hide Reachable, Board, Strikes, Filed, TurnsDone, Ballot;
    ReachableInv(s);
  }
}
