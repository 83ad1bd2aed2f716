/** What every reachable match keeps, stated in parts, and the rules that keep it. */
module MatchInvariant {
  import opened Basics
  import Words
  import opened MatchTypes
  import opened MatchRules
  import opened MatchClock
  import opened MatchCommands

  // ----- the board -----

  /** The seat of a player in the turn order. */
  ghost function Seat(order: seq<Id>, id: Id): (r: nat)
    requires id in order
    ensures r < |order| && order[r] == id
  {
    if order[0] == id then 0 else 1 + Seat(order[1..], id)
  }

  /** A submitted hint passed every check; a citizen's never gives the secret away. */
  ghost predicate HintAllowed(u: Setup, h: Hint)
    requires ValidSetup(u)
  {
    var ab := u.policy.alphabet;
    && Words.Normalize(ab, h.text) != ""
    && !(exists c :: c in h.text && ab.isSpace(c))
    && |h.text| <= MAX_HINT_RUNES
    && !u.policy.hintInappropriate.value(h.text)
    && (h.player != u.impostor ==> !Words.ContainsSecret(ab, h.text, u.secret))
  }

  ghost predicate EntryOk(u: Setup, h: Hint, round: nat)
    requires ValidSetup(u)
  {
    h.player in u.order && 1 <= h.round <= round && (!h.missing ==> HintAllowed(u, h))
  }

  /** Entry `a` stands before entry `b` on the board. */
  ghost predicate EntriesOrdered(u: Setup, a: Hint, b: Hint) {
    && a.player in u.order && b.player in u.order
    && a.round <= b.round
    && (a.round == b.round ==> Seat(u.order, a.player) < Seat(u.order, b.player))
    && (!a.missing && !b.missing ==> !Words.SameHint(u.policy.alphabet, b.text, a.text))
  }

  ghost predicate Board(u: Setup, hints: seq<Hint>, round: nat)
    requires ValidSetup(u)
  {
    && 1 <= round
    && (forall k :: 0 <= k < |hints| ==> EntryOk(u, hints[k], round))
    && (forall i, j :: 0 <= i < j < |hints| ==> EntriesOrdered(u, hints[i], hints[j]))
  }

  ghost predicate HasEntry(hints: seq<Hint>, round: nat, id: Id) {
    exists k :: 0 <= k < |hints| && hints[k].player == id && hints[k].round == round
  }

  /** In this round the active seats before `reach` had their turn, and no seat from `reach` on. */
  ghost predicate TurnsDone(order: seq<Id>, players: map<Id, Player>, hints: seq<Hint>, round: nat, reach: nat) {
    && (forall k :: 0 <= k < reach && k < |order| && order[k] in Actives(players) ==> HasEntry(hints, round, order[k]))
    && (forall k :: 0 <= k < |hints| && hints[k].round == round && hints[k].player in order
          ==> Seat(order, hints[k].player) < reach)
  }

  ghost function Reach(s: State): nat
    requires Wf(s)
  {
    match s.phase
    case RoleReveal => 0
    case Hints => s.turn
    case HintBreak => s.turn + 1
    case _ => |s.setup.order|
  }

  // ----- players -----

  ghost predicate TwoSides(u: Setup, players: map<Id, Player>) {
    u.impostor in Actives(players) && 2 <= |Actives(players) - {u.impostor}|
  }

  /** The impostor is still in; and outside the guess, so are two citizens. */
  ghost predicate Teams(s: State)
    requires Wf(s)
  {
    && s.players[s.setup.impostor].status != Eliminated
    && (s.phase != Ended ==> s.setup.impostor in Actives(s.players))
    && (s.phase != Ended && s.phase != ImpostorGuess ==> TwoSides(s.setup, s.players))
  }

  ghost predicate StrikesOk(p: Player) {
    && p.disconnects <= MAX_DISCONNECTS
    && (p.status == Removed <==> p.disconnects == MAX_DISCONNECTS)
    && (p.status == Active && p.strikeAt.Some? ==> !p.connected)
  }

  ghost predicate Strikes(players: map<Id, Player>) { forall id <- players :: StrikesOk(players[id]) }

  // ----- votes -----

  ghost predicate VoteOk(s: State, v: Id) {
    && v in s.votes && v in Actives(s.players) && s.votes[v] in s.candidates && s.votes[v] != v
  }

  ghost predicate Ballot(s: State) {
    InVote(s.phase) ==>
      && Distinct(s.candidates)
      && (forall v <- s.votes :: VoteOk(s, v))
      && (s.votes != map[] ==> s.voteCast)
      && (s.phase == Voting ==> s.candidates == ActiveIds(s.setup.order, s.players))
  }

  /** The filed rounds; the last `silent` of them were empty. */
  ghost predicate Filed(voteRounds: seq<map<Id, Id>>, abstentions: seq<int>, silent: nat) {
    && |voteRounds| == |abstentions|
    && silent <= |voteRounds|
    && (forall k :: |voteRounds| - silent <= k < |voteRounds| ==> voteRounds[k] == map[])
    && (forall k :: 0 <= k < |abstentions| ==> 0 <= abstentions[k])
  }

  // ----- the result -----

  function WinnerOf(reason: EndReason): Team {
    match reason
    case ImpostorParity => Impostor
    case ImpostorGuessedWord => Impostor
    case ImpostorGuessWrong => Citizens
    case ImpostorGuessTimeout => Citizens
    case ImpostorGone => Citizens
    case Abandoned => NoTeam
    case NotEnoughPlayers => NoTeam
  }

  /** A result agrees with the match it ended. */
  ghost predicate Verdict(s: State)
    requires Wf(s)
  {
    s.phase == Ended ==>
      var r, impostor := s.result.value, s.players[s.setup.impostor];
      && r.impostor == s.setup.impostor && r.secret == s.setup.secret
      && r.voteRounds == s.voteRounds && r.abstentions == s.abstentions
      && r.reason != NotEnoughPlayers && r.winner == WinnerOf(r.reason)
      && (r.reason == ImpostorGone <==> impostor.status != Active)
      && (r.reason == ImpostorParity ==> |ActiveCitizens(s)| <= 1)
      && (r.reason == Abandoned ==> MAX_SILENT_VOTES <= s.silentVotes)
      && r.outcomes.Keys == s.players.Keys
      && forall id <- s.players ::
           r.outcomes[id] == OutcomeOf(s.players[id], id == s.setup.impostor, r.winner, r.reason)
  }

  // ----- together -----

  /** What does not depend on the phase. */
  ghost predicate Core(s: State)
    requires Shape(s)
  {
    && Board(s.setup, s.hints, s.round) && Strikes(s.players) && Filed(s.voteRounds, s.abstentions, s.silentVotes)
  }

  ghost predicate OnTurn(s: State, reach: nat)
    requires Shape(s)
  {
    TurnsDone(s.setup.order, s.players, s.hints, s.round, reach)
  }

  /** Everything but the strike counts. */
  ghost predicate Steady(s: State) {
    && Wf(s) && Board(s.setup, s.hints, s.round) && Filed(s.voteRounds, s.abstentions, s.silentVotes)
    && Teams(s) && Ballot(s) && Verdict(s)
    && (s.phase == Hints ==> TurnClock(s))
    && (s.phase != Ended ==> OnTurn(s, Reach(s)) && s.silentVotes < MAX_SILENT_VOTES)
  }

  /** Everything but "the vote is not lingering". */
  ghost predicate Consistent(s: State) { Steady(s) && Strikes(s.players) }

  /** A vote closes as soon as every connected voter has voted. */
  ghost predicate NotLingering(s: State) { InVote(s.phase) ==> !AllConnectedVoted(s) }

  ghost predicate Inv(s: State) { Consistent(s) && NotLingering(s) }

  // ----- phase rules -----

  /** What a rule that opens a round, a turn or a reveal starts from. */
  ghost predicate Playing(s: State) {
    Shape(s) && s.phase != Ended && Core(s) && TwoSides(s.setup, s.players) && s.silentVotes < MAX_SILENT_VOTES
  }

  /** Seats without an active player may be skipped. */
  lemma SkipSeats(order: seq<Id>, players: map<Id, Player>, hints: seq<Hint>, round: nat, from: nat, to: nat)
    requires from <= to && TurnsDone(order, players, hints, round, from)
    requires forall k :: from <= k < to && k < |order| ==> order[k] !in Actives(players)
    ensures TurnsDone(order, players, hints, round, to)
  {
    hide Actives, HasEntry, Seat;
  }

  lemma StartTurnInv(s: State, from: nat, at: Time)
    requires Live(s) && from <= |s.setup.order|
    requires Playing(s) && OnTurn(s, from)
    ensures Inv(StartTurn(s, from, at))
  {
    hide StartTurn, Board, Strikes, Filed, TurnsDone, PlayersMove;
    var r := StartTurn(s, from, at);
    SkipSeats(s.setup.order, s.players, s.hints, s.round, from, NextActive(s.setup.order, s.players, from));
  }

  lemma NewRound(u: Setup, players: map<Id, Player>, hints: seq<Hint>, round: nat)
    requires ValidSetup(u) && Board(u, hints, round)
    ensures Board(u, hints, round + 1) && TurnsDone(u.order, players, hints, round + 1, 0)
  {
    hide EntriesOrdered, HintAllowed, ValidSetup;
  }

  lemma StartRoundInv(s: State, at: Time)
    requires Live(s) && Playing(s)
    ensures Inv(StartRound(s, at))
  {
    hide StartTurn, Board, Strikes, Filed, TurnsDone, Inv, TwoSides;
    NewRound(s.setup, s.players, s.hints, s.round);
    StartTurnInv(s.(lastEliminated := "", tied := [], pending := map[], round := s.round + 1,
      candidates := [], votes := map[]), 0, at);
  }

  /** What `end` needs for its result to agree with the match. */
  ghost predicate MayEnd(s: State, winner: Team, reason: EndReason)
    requires Shape(s)
  {
    && Core(s) && s.phase != Ended
    && s.players[s.setup.impostor].status != Eliminated
    && reason != NotEnoughPlayers && winner == WinnerOf(reason)
    && (reason == ImpostorGone <==> s.players[s.setup.impostor].status != Active)
    && (reason == ImpostorParity ==> |ActiveCitizens(s)| <= 1)
    && (reason == Abandoned ==> MAX_SILENT_VOTES <= s.silentVotes)
  }

  lemma EndInv(s: State, winner: Team, reason: EndReason)
    requires Shape(s) && MayEnd(s, winner, reason)
    ensures Inv(End(s, winner, reason))
  {
    hide Board, Strikes, Filed;
  }

  lemma UnconfirmedKeeps(p: map<Id, Player>)
    ensures Actives(Unconfirmed(p)) == Actives(p)
    ensures Strikes(p) ==> Strikes(Unconfirmed(p))
  {
  }

  /** Board coverage depends on the players only through who is active. */
  lemma TurnsDoneFewer(order: seq<Id>, p: map<Id, Player>, q: map<Id, Player>, hints: seq<Hint>, round: nat, reach: nat)
    requires TurnsDone(order, p, hints, round, reach) && Actives(q) <= Actives(p)
    ensures TurnsDone(order, q, hints, round, reach)
  {
    hide Actives, HasEntry, Seat;
  }

  lemma ShowEliminationInv(s: State, id: Id, at: Time)
    requires Playing(s) && OnTurn(s, |s.setup.order|)
    ensures Inv(ShowElimination(s, id, at))
  {
    hide Board, Strikes, Filed, TurnsDone, PlayersMove, Unconfirmed;
    var r := ShowElimination(s, id, at);
    UnconfirmedKeeps(s.players);
    TurnsDoneFewer(s.setup.order, s.players, r.players, s.hints, s.round, |s.setup.order|);
  }

  lemma EliminateInv(s: State, id: Id, at: Time)
    requires Live(s) && Playing(s) && OnTurn(s, |s.setup.order|)
    requires id in Actives(s.players) && id != s.setup.impostor
    ensures Inv(Eliminate(s, id, at))
  {
    hide Board, Filed, TurnsDone, PlayersMove, Inv, ShowElimination, End;
    var t := VotedOut(s, id);
    assert Actives(t.players) == Actives(s.players) - {id};
    TurnsDoneFewer(s.setup.order, s.players, t.players, s.hints, s.round, |s.setup.order|);
    if ActiveImpostors(t) >= |ActiveCitizens(t)| {
      EndInv(t, Impostor, ImpostorParity);
    } else {
      ShowEliminationInv(t, id, at);
    }
  }

  lemma StartVotingInv(s: State, phase: Phase, candidates: seq<Id>, at: Time, d: int)
    requires Live(s) && InVote(phase) && 0 < d && Elements(candidates) <= Actives(s.players)
    requires Playing(s) && OnTurn(s, |s.setup.order|)
    requires Distinct(candidates) && (phase == Voting ==> candidates == ActiveIds(s.setup.order, s.players))
    ensures Inv(StartVoting(s, phase, candidates, at, d))
  {
    hide Board, Strikes, Filed, TurnsDone, PlayersMove, ActiveIds, CanVote;
  }

  // ----- tally -----

  lemma SubsetSize<T>(a: set<T>, b: set<T>)
    requires a <= b
    ensures |a| <= |b|
  {
    assert b == a + (b - a);
  }

  lemma FileVotesKeeps(s: State)
    requires Wf(s) && Filed(s.voteRounds, s.abstentions, s.silentVotes) && s.votes.Keys <= Actives(s.players)
    ensures var t := FileVotes(s); Filed(t.voteRounds, t.abstentions, t.silentVotes)
  {
    SubsetSize(s.votes.Keys, Actives(s.players));
  }

  lemma {:induction false} WithCountDistinct(candidates: seq<Id>, votes: map<Id, Id>, n: nat)
    requires Distinct(candidates)
    ensures Distinct(WithCount(candidates, votes, n))
  {
    if candidates != [] {
      WithCountDistinct(candidates[1..], votes, n);
      WithCountSubset(candidates[1..], votes, n);
    }
  }

  lemma TallyInv(s: State, at: Time)
    requires Consistent(s) && InVote(s.phase)
    ensures Inv(Tally(s, at))
  {
    hide Board, Strikes, Filed, TurnsDone, PlayersMove, Inv, Eliminate, StartVoting, ShowElimination, StartRound, End,
      ActiveIds, Top, Most;
    FileVotesKeeps(s);
    var t := FileVotes(s);
    var top := Top(t.candidates, t.votes);
    if t.votes == map[] && !t.voteCast && t.silentVotes >= MAX_SILENT_VOTES {
      EndInv(t, NoTeam, Abandoned);
    } else if |top| == 1 && top[0] == t.setup.impostor {
      GuessInv(t, at);
    } else if |top| == 1 {
      assert top[0] in Elements(top);
      EliminateInv(t, top[0], at);
    } else if |top| > 1 && t.phase == Voting {
      TopDistinct(t.candidates, t.votes);
      StartVotingInv(t, RunoffVoting, top, at, t.setup.cfg.runoffVote);
    } else if |top| > 1 {
      ShowEliminationInv(t.(tied := top, tiedVotes := Most(t.candidates, t.votes)), "", at);
    } else {
      StartRoundInv(t, at);
    }
  }

  lemma TopDistinct(candidates: seq<Id>, votes: map<Id, Id>)
    requires Distinct(candidates)
    ensures Distinct(Top(candidates, votes))
  {
    WithCountDistinct(candidates, votes, Most(candidates, votes));
  }

  lemma GuessInv(s: State, at: Time)
    requires Live(s) && Playing(s) && OnTurn(s, |s.setup.order|)
    ensures Inv(SetPhase(s, ImpostorGuess, at, s.setup.cfg.guess))
  {
    hide Board, Strikes, Filed, TurnsDone;
  }

  lemma MaybeAdvanceInv(s: State, at: Time)
    requires Live(s) && Consistent(s)
    ensures Inv(MaybeAdvance(s, at))
  {
    hide Board, Strikes, Filed, TurnsDone, StartTurn, StartRound, Tally, AllConnectedVoted, AllConnectedAcked, Ballot,
      Verdict;
    if InVote(s.phase) {
      if AllConnectedVoted(s) { TallyInv(s, at); }
    } else if s.phase == RoleReveal {
      if AllConnectedAcked(s, false) { StartTurnInv(s, 0, at); }
    } else if s.phase == EliminationReveal {
      if AllConnectedAcked(s, true) { StartRoundInv(s, at); }
    }
  }
}
