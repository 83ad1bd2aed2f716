/**
 * The phase rules of a match as functions on `State`: what each unexported method of
 * server/internal/game/game.go makes of a match.  `Match.Game` runs them in place.
 */
module MatchRules {
  import opened Basics
  import opened MatchTypes

  // ----- who is playing -----

  ghost predicate Distinct<T>(xs: seq<T>) { forall i, j :: 0 <= i < j < |xs| ==> xs[i] != xs[j] }

  ghost function Elements<T>(xs: seq<T>): set<T> { set x | x in xs }

  ghost predicate ValidSetup(u: Setup) {
    && u.cfg.Positive()
    && u.policy.Complete()
    && u.category != "" && u.secret != ""
    && MIN_PLAYERS_TO_START <= |u.order| <= MAX_PLAYERS
    && Distinct(u.order)
    && "" !in u.order
    && u.impostor in u.order
  }

  ghost function Actives(players: map<Id, Player>): set<Id> {
    set id | id in players && players[id].status == Active
  }

  ghost function ActiveCitizens(s: State): set<Id> { Actives(s.players) - {s.setup.impostor} }

  ghost function ActiveImpostors(s: State): nat { if s.setup.impostor in Actives(s.players) then 1 else 0 }

  /** `activeIDs`: the players still active, in turn order. */
  ghost function ActiveIds(order: seq<Id>, players: map<Id, Player>): seq<Id> {
    if order == [] then []
    else (if order[0] in Actives(players) then [order[0]] else []) + ActiveIds(order[1..], players)
  }

  predicate InVote(p: Phase) { p == Voting || p == RunoffVoting }

  /** The shape every match keeps even in the middle of a change. */
  ghost predicate Shape(s: State) {
    && ValidSetup(s.setup)
    && s.players.Keys == Elements(s.setup.order)
    && s.turn < |s.setup.order|
    && (s.phase == Ended <==> s.result.Some?)
    && (s.phase == Ended <==> s.deadline.None?)
    && (s.phase == Hints ==> s.turnDeadline.Some?)
  }

  /** ... and between changes: in a vote, only active players are candidates. */
  ghost predicate Wf(s: State) {
    Shape(s) && (InVote(s.phase) ==> Elements(s.candidates) <= Actives(s.players))
  }

  ghost predicate Live(s: State) { Wf(s) && s.phase != Ended }

  ghost function Holder(s: State): Id
    requires Wf(s)
  {
    s.setup.order[s.turn]
  }

  // ----- what one change at a moment may touch -----

  /** Statuses only move forward: out of active, or from voted out to left. */
  predicate StatusMove(a: Status, b: Status) {
    a == b || a == Active || (a == Eliminated && b == Left)
  }

  ghost predicate SamePresence(p: Player, q: Player) {
    p.connected == q.connected && p.disconnects == q.disconnects && p.strikeAt == q.strikeAt
  }

  ghost predicate PlayersMove(p: map<Id, Player>, q: map<Id, Player>) {
    p.Keys == q.Keys && forall id <- p :: SamePresence(p[id], q[id]) && StatusMove(p[id].status, q[id].status)
  }

  /** The running deadline lies after `at`, unless the match is over. */
  ghost predicate RunsPast(s: State, at: Time) {
    s.phase == Ended || (s.deadline.Some? && at < s.deadline.value)
  }

  lemma PlayersStay(p: map<Id, Player>)
    ensures PlayersMove(p, p)
  {
  }

  lemma DurationsPositive(u: Setup)
    requires ValidSetup(u)
    ensures u.cfg.Positive()
  {
  }

  /** Every phase rule, from `s` to `r` at moment `at`, keeps to this. */
  ghost predicate Changes(s: State, r: State, at: Time) {
    && Wf(r)
    && r.setup == s.setup && r.version == s.version && r.hints == s.hints
    && PlayersMove(s.players, r.players)
    && ((r.round == s.round && r.pending == s.pending) || (r.round == s.round + 1 && r.pending == map[]))
    && (r.deadline == s.deadline || RunsPast(r, at))
  }

  // ----- phases -----

  /** `setPhase` */
  ghost function SetPhase(s: State, phase: Phase, from: Time, d: int): State {
    s.(phase := phase, deadline := if d > 0 then Some(from + d) else None)
  }

  /** What `end` records for one player. */
  function OutcomeOf(p: Player, isImpostor: bool, winner: Team, reason: EndReason): Outcome {
    if reason == Abandoned then NoOutcome
    else if p.Watching() && (winner == NoTeam || (winner == Impostor) == isImpostor) then Win
    else Loss
  }

  /** `end` */
  ghost function End(s: State, winner: Team, reason: EndReason): (r: State)
    requires Shape(s)
    ensures Wf(r) && r.phase == Ended && r.players == s.players
    ensures r.setup == s.setup && r.version == s.version && r.hints == s.hints
    ensures r.round == s.round && r.pending == s.pending
  {
    if s.result.Some? then s
    else
      var outcomes := map id | id in s.players ::
        OutcomeOf(s.players[id], id == s.setup.impostor, winner, reason);
      s.(result := Some(Result(winner, reason, s.setup.impostor, s.setup.secret, s.voteRounds, s.abstentions,
        outcomes)),
         reconnecting := false, phase := Ended, deadline := None)
  }

  /** `nextActive` */
  ghost function NextActive(order: seq<Id>, players: map<Id, Player>, i: nat): (r: nat)
    requires i <= |order|
    ensures i <= r <= |order|
    ensures forall k :: i <= k < r ==> order[k] !in Actives(players)
    ensures r < |order| ==> order[r] in Actives(players)
    decreases |order| - i
  {
    if i < |order| && order[i] !in Actives(players) then NextActive(order, players, i + 1) else i
  }

  /** `awaitReconnect` */
  ghost function AwaitReconnect(s: State, at: Time): State
    requires Wf(s) && s.turnDeadline.Some?
  {
    var d := at + s.setup.cfg.reconnect;
    s.(reconnecting := true, deadline := Some(if s.turnDeadline.value < d then s.turnDeadline.value else d))
  }

  /** While the holder of the turn is away the turn waits, never past its own clock. */
  ghost predicate TurnClock(s: State)
    requires Wf(s) && s.phase == Hints
  {
    && Holder(s) in Actives(s.players)
    && (s.reconnecting <==> !s.players[Holder(s)].connected)
    && s.deadline.value <= s.turnDeadline.value
    && (!s.reconnecting ==> s.deadline == s.turnDeadline)
  }

  /** The part of `startTurn` that gives the turn to seat `i`. */
  ghost function OpenTurn(s: State, i: nat, at: Time): (r: State)
    requires Live(s) && i < |s.setup.order| && s.setup.order[i] in Actives(s.players)
    ensures Changes(s, r, at) && RunsPast(r, at)
    ensures r == s.(phase := Hints, deadline := r.deadline, turn := i,
      turnDeadline := Some(at + s.setup.cfg.hint), reconnecting := r.reconnecting)
    ensures TurnClock(r)
  {
    hide Elements, Distinct, Actives, PlayersMove, ValidSetup;
    PlayersStay(s.players);
    DurationsPositive(s.setup);
    var t := SetPhase(s.(turn := i, reconnecting := false), Hints, at, s.setup.cfg.hint);
    var u := t.(turnDeadline := t.deadline);
    if u.players[u.setup.order[i]].connected then u else AwaitReconnect(u, at)
  }

  /** `startTurn` */
  ghost function StartTurn(s: State, from: nat, at: Time): (r: State)
    requires Live(s) && from <= |s.setup.order|
    ensures Changes(s, r, at) && RunsPast(r, at)
    ensures r == s.(phase := r.phase, deadline := r.deadline, turn := r.turn,
      turnDeadline := r.turnDeadline, reconnecting := r.reconnecting)
    ensures var i := NextActive(s.setup.order, s.players, from);
      if i == |s.setup.order| then r.phase == PreVoting && r.deadline == Some(at + s.setup.cfg.preVoting)
      else r.phase == Hints && r.turn == i && TurnClock(r) && r.turnDeadline == Some(at + s.setup.cfg.hint)
  {
    hide Elements, Distinct, Actives, PlayersMove, ValidSetup, TurnClock, OpenTurn;
    PlayersStay(s.players);
    DurationsPositive(s.setup);
    var i := NextActive(s.setup.order, s.players, from);
    if i == |s.setup.order| then SetPhase(s, PreVoting, at, s.setup.cfg.preVoting) else OpenTurn(s, i, at)
  }

  /** `startRound` */
  ghost function StartRound(s: State, at: Time): (r: State)
    requires Live(s)
    ensures Changes(s, r, at) && RunsPast(r, at)
    ensures r.round == s.round + 1
  {
    StartTurn(s.(lastEliminated := "", tied := [], pending := map[], round := s.round + 1,
      candidates := [], votes := map[]), 0, at)
  }

  /** `resetAcks` */
  ghost function Unconfirmed(players: map<Id, Player>): map<Id, Player> {
    map i | i in players :: players[i].(confirmed := false)
  }

  /** `showElimination` */
  ghost function ShowElimination(s: State, id: Id, at: Time): (r: State)
    requires Shape(s) && s.phase != Ended
    ensures Changes(s, r, at) && RunsPast(r, at)
    ensures r.phase == EliminationReveal && r.players == Unconfirmed(s.players)
  {
    SetPhase(s.(lastEliminated := id, players := Unconfirmed(s.players)), EliminationReveal, at,
      s.setup.cfg.eliminationReveal)
  }

  /** `eliminate` */
  ghost function Eliminate(s: State, id: Id, at: Time): (r: State)
    requires Live(s) && id in Actives(s.players)
    ensures Changes(s, r, at) && RunsPast(r, at)
    ensures r.phase == EliminationReveal || r.phase == Ended
  {
    var t := VotedOut(s, id);
    if ActiveImpostors(t) >= |ActiveCitizens(t)| then End(t, Impostor, ImpostorParity)
    else if |ActiveCitizens(t)| + ActiveImpostors(t) < MIN_PLAYERS_TO_CONTINUE then End(t, NoTeam, NotEnoughPlayers)
    else
      var r := ShowElimination(t, id, at);
      MoveThenSameStatus(s.players, t.players, r.players);
      r
  }

  /** The status change of `eliminate`. */
  ghost function VotedOut(s: State, id: Id): (r: State)
    requires Live(s) && id in Actives(s.players)
    ensures Shape(r) && PlayersMove(s.players, r.players)
    ensures r == s.(players := r.players)
  {
    s.(players := s.players[id := s.players[id].(status := Eliminated)])
  }

  lemma MoveThenSameStatus(p: map<Id, Player>, q: map<Id, Player>, r: map<Id, Player>)
    requires PlayersMove(p, q) && PlayersMove(q, r) && forall id <- q :: r[id].status == q[id].status
    ensures PlayersMove(p, r)
  {
  }

  /** `startVoting` */
  ghost function StartVoting(s: State, phase: Phase, candidates: seq<Id>, at: Time, d: int): (r: State)
    requires Live(s) && InVote(phase) && 0 < d && Elements(candidates) <= Actives(s.players)
    ensures Changes(s, r, at) && RunsPast(r, at)
    ensures r.phase == phase
  {
    SetPhase(s.(reconnecting := false, candidates := candidates, votes := map[], voteCast := false), phase, at, d)
  }

  // ----- votes -----

  ghost function VotersFor(votes: map<Id, Id>, c: Id): set<Id> { set v | v in votes && votes[v] == c }

  /** The number of votes for one candidate. */
  ghost function VotesFor(votes: map<Id, Id>, c: Id): nat { |VotersFor(votes, c)| }

  ghost function Most(candidates: seq<Id>, votes: map<Id, Id>): nat {
    if candidates == [] then 0
    else
      var n, rest := VotesFor(votes, candidates[0]), Most(candidates[1..], votes);
      if n > rest then n else rest
  }

  ghost function WithCount(candidates: seq<Id>, votes: map<Id, Id>, n: nat): seq<Id> {
    if candidates == [] then []
    else (if VotesFor(votes, candidates[0]) == n then [candidates[0]] else []) + WithCount(candidates[1..], votes, n)
  }

  /** The candidates with the most votes, in order; nobody when there is no vote for a candidate. */
  ghost function Top(candidates: seq<Id>, votes: map<Id, Id>): (top: seq<Id>)
    ensures Elements(top) <= Elements(candidates)
  {
    var most := Most(candidates, votes);
    WithCountSubset(candidates, votes, most);
    if most == 0 then [] else WithCount(candidates, votes, most)
  }

  lemma WithCountSubset(candidates: seq<Id>, votes: map<Id, Id>, n: nat)
    ensures Elements(WithCount(candidates, votes, n)) <= Elements(candidates)
    ensures forall c :: c in WithCount(candidates, votes, n) <==> c in candidates && VotesFor(votes, c) == n
  {
  }

  lemma TopIsCandidate(candidates: seq<Id>, votes: map<Id, Id>)
    requires |Top(candidates, votes)| == 1
    ensures Top(candidates, votes)[0] in Elements(candidates)
  {
    assert Top(candidates, votes)[0] in Elements(Top(candidates, votes));
  }

  predicate CanVote(candidates: seq<Id>, id: Id) { exists c | c in candidates :: c != id }

  /** The active players with somebody to vote for. */
  ghost function Voters(s: State): set<Id> {
    set id | id in Actives(s.players) && CanVote(s.candidates, id)
  }

  ghost function ConnectedVoters(s: State): set<Id> {
    set id | id in Voters(s) && id in s.players && s.players[id].connected
  }

  /** `allConnectedVoted` */
  ghost predicate AllConnectedVoted(s: State) {
    ConnectedVoters(s) != {} && ConnectedVoters(s) <= s.votes.Keys
  }

  /** `allConnectedAcked` */
  ghost predicate AllConnectedAcked(s: State, watchers: bool) {
    forall id :: id in s.players && s.players[id].connected &&
      (if watchers then s.players[id].Watching() else s.players[id].status == Active)
      ==> s.players[id].confirmed
  }

  /** The bookkeeping at the head of `tally`: the votes and abstentions are filed, silence is counted. */
  ghost function FileVotes(s: State): State {
    s.(voteRounds := s.voteRounds + [s.votes],
       abstentions := s.abstentions + [|Actives(s.players)| - |s.votes|],
       silentVotes := if s.votes == map[] && !s.voteCast then s.silentVotes + 1 else 0)
  }

  /** `tally` */
  ghost function Tally(s: State, at: Time): (r: State)
    requires Live(s) && InVote(s.phase)
    ensures Changes(s, r, at) && RunsPast(r, at)
  {
    hide Elements, Distinct, Actives, PlayersMove, ValidSetup, Eliminate, StartVoting, ShowElimination, StartRound,
      End, Most;
    PlayersStay(s.players);
    DurationsPositive(s.setup);
    var t := FileVotes(s);
    var top := Top(t.candidates, t.votes);
    if t.votes == map[] && !t.voteCast && t.silentVotes >= MAX_SILENT_VOTES then End(t, NoTeam, Abandoned)
    else if |top| == 1 && top[0] == t.setup.impostor then
      SetPhase(t, ImpostorGuess, at, t.setup.cfg.guess)
    else if |top| == 1 then
      TopIsCandidate(t.candidates, t.votes);
      Eliminate(t, top[0], at)
    else if |top| > 1 && t.phase == Voting then
      StartVoting(t, RunoffVoting, top, at, t.setup.cfg.runoffVote)
    else if |top| > 1 then
      ShowElimination(t.(tied := top, tiedVotes := Most(t.candidates, t.votes)), "", at)
    else StartRound(t, at)
  }

  /** `maybeAdvanceTransition` */
  ghost function MaybeAdvance(s: State, at: Time): (r: State)
    requires Live(s)
    ensures Changes(s, r, at)
  {
    if InVote(s.phase) then (if AllConnectedVoted(s) then Tally(s, at) else s)
    else if s.phase == RoleReveal then (if AllConnectedAcked(s, false) then StartTurn(s, 0, at) else s)
    else if s.phase == EliminationReveal then (if AllConnectedAcked(s, true) then StartRound(s, at) else s)
    else s
  }

  // ----- leaving and being removed -----

  /** `slices.DeleteFunc` on the candidates. */
  function Drop(xs: seq<Id>, gone: set<Id>): (r: seq<Id>)
    ensures Elements(r) == Elements(xs) - gone
  {
    if xs == [] then [] else
      assert Elements(xs) == {xs[0]} + Elements(xs[1..]);
      var rest := Drop(xs[1..], gone);
      assert xs[0] !in gone ==> Elements([xs[0]] + rest) == {xs[0]} + Elements(rest);
      if xs[0] in gone then rest else [xs[0]] + rest
  }

  /** The loop of `removeAll`: statuses, votes by or for those gone, and candidates. */
  ghost function Without(s: State, gone: set<Id>, status: Status): State {
    s.(players := map id | id in s.players :: if id in gone then s.players[id].(status := status) else s.players[id],
       votes := map v | v in s.votes && v !in gone && s.votes[v] !in gone :: s.votes[v],
       candidates := Drop(s.candidates, gone))
  }

  /** Those who may go: anyone active, or a voted-out player who leaves. */
  ghost predicate MayGo(s: State, gone: set<Id>, status: Status) {
    && (status == Left || status == Removed)
    && forall id <- gone :: id in s.players && StatusMove(s.players[id].status, status)
  }

  lemma WithoutKeepsShape(s: State, gone: set<Id>, status: Status)
    requires Wf(s) && MayGo(s, gone, status)
    ensures Wf(Without(s, gone, status))
    ensures PlayersMove(s.players, Without(s, gone, status).players)
    ensures Actives(Without(s, gone, status).players) == Actives(s.players) - gone
  {
  }

  /** The switch at the end of `removeAll`. */
  ghost function Judge(s: State, impostorGone: bool, holderGone: bool, at: Time): (r: State)
    requires Live(s)
    ensures Changes(s, r, at)
  {
    if impostorGone then End(s, Citizens, ImpostorGone)
    else if s.phase == ImpostorGuess then s
    else if ActiveImpostors(s) > 0 && ActiveImpostors(s) >= |ActiveCitizens(s)| then End(s, Impostor, ImpostorParity)
    else if |Actives(s.players)| < MIN_PLAYERS_TO_CONTINUE then End(s, NoTeam, NotEnoughPlayers)
    else if s.phase == RoleReveal || s.phase == EliminationReveal || InVote(s.phase) then MaybeAdvance(s, at)
    else if holderGone then StartTurn(s, s.turn + 1, at)
    else s
  }

  /** `removeAll` */
  ghost function RemoveAll(s: State, gone: set<Id>, status: Status, at: Time): (r: State)
    requires Live(s) && MayGo(s, gone, status)
    ensures Changes(s, r, at)
  {
    WithoutKeepsShape(s, gone, status);
    var t := Without(s, gone, status);
    var r := Judge(t, s.setup.impostor in gone, s.phase == Hints && Holder(s) in gone, at);
    MoveAfterRemoval(s.players, gone, status, t.players, r.players);
    r
  }

  /** Leaving and then being voted out cannot happen to the same player at once, so moves compose. */
  lemma MoveAfterRemoval(p: map<Id, Player>, gone: set<Id>, status: Status, q: map<Id, Player>, r: map<Id, Player>)
    requires PlayersMove(p, q) && PlayersMove(q, r)
    requires status != Active && status != Eliminated && forall id <- p :: q[id].status == if id in gone then status
      else p[id].status
    ensures PlayersMove(p, r)
  {
  }

  // ----- timers -----

  /** The hint `expire` files for a turn that ran out. */
  ghost function MissingHint(s: State): Hint
    requires Wf(s)
  {
    Hint(Holder(s), "", s.round, true, s.pending)
  }

  /** `expire` */
  ghost function Expire(s: State, at: Time): (r: State)
    requires Live(s)
    ensures Wf(r) && r.setup == s.setup && r.version == s.version
    ensures PlayersMove(s.players, r.players) && RunsPast(r, at)
  {
    match s.phase
    case RoleReveal => StartTurn(s, 0, at)
    case Hints => StartTurn(s.(hints := s.hints + [MissingHint(s)], pending := map[]), s.turn + 1, at)
    case HintBreak => StartTurn(s, s.turn + 1, at)
    case PreVoting =>
      ActiveIdsElements(s.setup.order, s.players);
      StartVoting(s, Voting, ActiveIds(s.setup.order, s.players), at, s.setup.cfg.vote)
    case Voting => Tally(s, at)
    case RunoffVoting => Tally(s, at)
    case EliminationReveal => StartRound(s, at)
    case ImpostorGuess => End(s, Citizens, ImpostorGuessTimeout)
  }

  lemma {:induction false} ActiveIdsElements(order: seq<Id>, players: map<Id, Player>)
    ensures Elements(ActiveIds(order, players)) == Elements(order) * Actives(players)
  {
    if order != [] {
      ActiveIdsElements(order[1..], players);
      var head, rest := [order[0]], ActiveIds(order[1..], players);
      assert order == head + order[1..];
      ElementsAppend(head, order[1..]);
      ElementsAppend(head, rest);
      ElementsAppend([], rest);
      assert Elements(head) == {order[0]};
    }
  }

  lemma ElementsAppend<T>(a: seq<T>, b: seq<T>)
    ensures Elements(a + b) == Elements(a) + Elements(b)
  {
    forall x ensures x in Elements(a + b) <==> x in Elements(a) + Elements(b) {
    }
  }
}
