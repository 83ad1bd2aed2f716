/**
 * A match that nobody plays any more ends by itself.  `Bound` is the last moment a match
 * can still be running if no further command comes; no timer moves it later.
 */
module MatchLiveness {
  import opened Basics
  import opened MatchTypes
  import opened MatchRules
  import opened MatchClock
  import opened MatchCommands
  import opened MatchInvariant
  import opened MatchKeeps

  /** The time of `k` hint turns. */
  ghost function Turns(hint: int, k: nat): (r: int)
    ensures 0 <= hint ==> 0 <= r
  {
    if k == 0 then 0 else hint + Turns(hint, k - 1)
  }

  lemma {:induction false} TurnsMonotone(hint: int, j: nat, k: nat)
    requires 0 <= hint && j <= k
    ensures Turns(hint, j) <= Turns(hint, k)
    decreases k
  {
    if j < k { TurnsMonotone(hint, j, k - 1); }
  }

  /** The turns from seat `from` on, the pause before the vote and the vote. */
  ghost function RestOfRound(u: Setup, from: nat): int
    requires from <= |u.order|
  {
    Turns(u.cfg.hint, |u.order| - from) + u.cfg.preVoting + u.cfg.vote
  }

  ghost function WholeRound(u: Setup): int { RestOfRound(u, 0) }

  /** What may still follow a silent vote. */
  ghost function Tail(s: State): int { if s.silentVotes == 0 then WholeRound(s.setup) else 0 }

  function Max(a: int, b: int): int { if a < b then b else a }

  /**
   * The longest a match can outlast its phase timer unattended: a guess, a reveal and two
   * silent rounds, or a runoff and one silent round after it.
   */
  ghost function Longest(u: Setup): int {
    Max(u.cfg.guess, Max(u.cfg.eliminationReveal + 2 * WholeRound(u), u.cfg.runoffVote + WholeRound(u)))
  }

  /** How long the match may still run after the running phase timer, if nobody does anything. */
  ghost function Rank(s: State): int
    requires Wf(s)
  {
    var c, whole := s.setup.cfg, WholeRound(s.setup);
    match s.phase
    case RoleReveal => whole + Tail(s)
    case Hints => RestOfRound(s.setup, s.turn + 1) + Tail(s)
    case HintBreak => RestOfRound(s.setup, s.turn + 1) + Tail(s)
    case PreVoting => c.vote + Tail(s)
    case Voting => if s.voteCast then Longest(s.setup) else Tail(s)
    case RunoffVoting => if s.voteCast then Max(c.guess, c.eliminationReveal + 2 * whole) else Tail(s)
    case EliminationReveal => whole + Tail(s)
    case ImpostorGuess => 0
    case Ended => 0
  }

  lemma RankRange(s: State)
    requires Wf(s)
    ensures 0 <= Rank(s) <= Longest(s.setup)
  {
    TurnsMonotone(s.setup.cfg.hint, |s.setup.order| - s.turn - 1, |s.setup.order|);
  }

  /** The match is over, or will be by `limit` if nobody does anything. */
  ghost predicate EndsBy(s: State, limit: Time)
    requires Wf(s)
  {
    s.phase == Ended || s.deadline.value + Rank(s) <= limit
  }

  // ----- phase rules -----

  lemma StartTurnBound(s: State, from: nat, at: Time)
    requires Live(s) && from <= |s.setup.order|
    ensures EndsBy(StartTurn(s, from, at), at + RestOfRound(s.setup, from) + Tail(s))
  {
    hide StartTurn, Changes, PlayersMove, Actives;
    var i, n := NextActive(s.setup.order, s.players, from), |s.setup.order|;
    TurnsMonotone(s.setup.cfg.hint, n - i, n - from);
  }

  lemma StartRoundBound(s: State, at: Time)
    requires Live(s)
    ensures EndsBy(StartRound(s, at), at + WholeRound(s.setup) + Tail(s))
  {
    hide StartTurn, Changes, PlayersMove, Actives, Rank, Turns, RestOfRound;
    StartTurnBound(s.(lastEliminated := "", tied := [], pending := map[], round := s.round + 1,
      candidates := [], votes := map[]), 0, at);
  }

  lemma {:induction false} NoVotesNoMost(candidates: seq<Id>)
    ensures Most(candidates, map[]) == 0
  {
    if candidates != [] {
      NoVotesNoMost(candidates[1..]);
      assert VotersFor(map[], candidates[0]) == {};
    }
  }

  lemma EliminateBound(s: State, id: Id, at: Time)
    requires Live(s) && id in Actives(s.players)
    ensures EndsBy(Eliminate(s, id, at), at + s.setup.cfg.eliminationReveal + WholeRound(s.setup) + Tail(s))
  {
    hide Changes, PlayersMove, Actives, Turns, RestOfRound, ValidSetup, ActiveCitizens, ActiveImpostors, Unconfirmed;
    DurationsPositive(s.setup);
  }

  lemma TallyBound(s: State, at: Time)
    requires Consistent(s) && InVote(s.phase)
    ensures EndsBy(Tally(s, at), at + Rank(s))
  {
    hide StartRound, Eliminate, Changes, PlayersMove, Actives, Turns, RestOfRound, Most, Board, Filed, Strikes,
      Verdict, TurnsDone, Teams, ActiveIds, Elements, Distinct, Unconfirmed, WithCount;
    var t := FileVotes(s);
    WholeRoundPositive(s.setup);
    DurationsPositive(s.setup);
    StartRoundBound(t, at);
    var top := Top(t.candidates, t.votes);
    if |top| == 1 {
      TopIsCandidate(t.candidates, t.votes);
      EliminateBound(t, top[0], at);
    }
    if s.votes == map[] { NoVotesNoMost(s.candidates); }
  }

  lemma WholeRoundPositive(u: Setup)
    requires ValidSetup(u)
    ensures 0 <= WholeRound(u)
  {
  }

  lemma MaybeAdvanceBound(s: State, at: Time)
    requires Live(s) && Consistent(s) && at <= s.deadline.value
    ensures EndsBy(MaybeAdvance(s, at), s.deadline.value + Rank(s))
  {
    hide StartRound, StartTurn, Tally, Changes, PlayersMove, Actives, Turns, RestOfRound, Steady, Strikes,
      AllConnectedVoted, AllConnectedAcked;
    if InVote(s.phase) {
      TallyBound(s, at);
    } else if s.phase == RoleReveal {
      StartTurnBound(s, 0, at);
    } else if s.phase == EliminationReveal {
      StartRoundBound(s, at);
    }
  }

  lemma JudgeBound(s: State, impostorGone: bool, holderGone: bool, at: Time)
    requires Bereft(s, impostorGone, holderGone) && at <= s.deadline.value
    ensures EndsBy(Judge(s, impostorGone, holderGone, at), s.deadline.value + Rank(s))
  {
    hide MaybeAdvance, StartTurn, End, Changes, PlayersMove, Turns, RestOfRound, Core, Ballot, OnTurn, TurnClock,
      Elements, ValidSetup, ActiveCitizens, ActiveImpostors, Consistent, Tail;
    if !impostorGone && (s.phase == ImpostorGuess || TwoSides(s.setup, s.players)) {
      BereftIsConsistent(s, impostorGone, holderGone);
    }
    SeatsArePlayers(s);
    SplitActives(s);
    if holderGone {
      StartTurnBound(s, s.turn + 1, at);
    } else if Consistent(s) {
      MaybeAdvanceBound(s, at);
    }
  }

  lemma SplitActives(s: State)
    ensures s.setup.impostor in Actives(s.players) && 1 < |ActiveCitizens(s)| ==> TwoSides(s.setup, s.players)
    ensures s.setup.impostor !in Actives(s.players) ==> ActiveImpostors(s) == 0
  {
  }

  lemma RemoveAllBound(s: State, gone: set<Id>, status: Status, at: Time)
    requires Live(s) && MayGo(s, gone, status) && Steady(s) && at <= s.deadline.value
    requires Strikes(Without(s, gone, status).players)
    ensures EndsBy(RemoveAll(s, gone, status, at), s.deadline.value + Rank(s))
  {
    hide Bereft, Judge, Steady, Strikes, Changes, PlayersMove, Drop;
    WithoutKeepsShape(s, gone, status);
    BereftAfter(s, gone, status);
    JudgeBound(Without(s, gone, status), s.setup.impostor in gone, s.phase == Hints && Holder(s) in gone, at);
  }

  lemma ExpireBound(s: State)
    requires Live(s) && Consistent(s)
    ensures EndsBy(Expire(s, s.deadline.value), s.deadline.value + Rank(s))
  {
    hide StartTurn, StartRound, Tally, End, Changes, PlayersMove, Actives, Turns, RestOfRound, Consistent, ActiveIds,
      Elements;
    var at := s.deadline.value;
    match s.phase
    case RoleReveal => StartTurnBound(s, 0, at);
    case Hints => StartTurnBound(s.(hints := s.hints + [MissingHint(s)], pending := map[]), s.turn + 1, at);
    case HintBreak => StartTurnBound(s, s.turn + 1, at);
    case PreVoting => DurationsPositive(s.setup);
    case Voting => TallyBound(s, at);
    case RunoffVoting => TallyBound(s, at);
    case EliminationReveal => StartRoundBound(s, at);
    case ImpostorGuess =>
  }

  lemma CountStrikesBound(s: State, at: Time)
    requires Live(s) && Steady(s) && Strikes(s.players) && at <= s.deadline.value
    ensures EndsBy(CountStrikes(s, at), s.deadline.value + Rank(s))
  {
    hide RemoveAll, Steady, Changes, PlayersMove, Strikes, OutAt, Strike, ValidSetup, Elements, Actives;
    StrikeKeepsShape(s, at);
    StrikesAfter(s, at);
    StrikeTouches(s, at);
    SeatsArePlayers(s);
    PlayersTouched(s, Strike(s, at).players);
    if OutAt(s, at) != {} {
      RemoveAllBound(Strike(s, at), OutAt(s, at), Removed, at);
    }
  }

  lemma VersionBound(s: State, version: nat, limit: Time)
    requires Wf(s) && EndsBy(s, limit)
    ensures EndsBy(s.(version := version), limit)
  {
    hide ValidSetup, Actives, Elements, RestOfRound;
  }

  lemma StepBound(s: State)
    requires Live(s) && Inv(s)
    ensures EndsBy(Step(s), s.deadline.value + Rank(s))
  {
    hide Expire, CountStrikes, Consistent, Steady, Strikes, NotLingering, Changes, PlayersMove, Inv, EarliestStrike,
      Rank, EndsBy;
    InvIsConsistent(s);
    var limit := s.deadline.value + Rank(s);
    match NextTimer(s)
    case StrikeDue(at) =>
      CountStrikesBound(s, at);
      VersionBound(CountStrikes(s, at), s.version + 1, limit);
    case PhaseDue(at) =>
      ExpireBound(s);
      VersionBound(Expire(s, at), s.version + 1, limit);
  }

  /** No timer moves the bound later. */
  lemma {:induction false} TickBound(s: State, now: Time, limit: Time)
    requires Wf(s) && Inv(s) && EndsBy(s, limit)
    ensures EndsBy(Tick(s, now), limit)
    decreases PendingStrikes(s.players), Overdue(s, now)
  {
    hide Inv, Step, Rank;
    if Due(s, now) {
      StepProgress(s, now);
      StepBound(s);
      StepInv(s);
      TickBound(Step(s), now, limit);
    }
  }

  /**
   * Bounded liveness: a running match left alone has ended once `Longest` has passed after
   * its phase timer, whatever its state; the bound depends only on the durations and the
   * number of players.
   */
  lemma UnattendedMatchEnds(s: State, now: Time)
    requires Live(s) && Inv(s) && s.deadline.value + Longest(s.setup) <= now
    ensures Tick(s, now).phase == Ended
  {
    RankRange(s);
    var limit := s.deadline.value + Rank(s);
    TickBound(s, now, limit);
    var r := Tick(s, now);
    if r.phase != Ended {
      RankRange(r);
      assert Due(r, now);
    }
  }

  /** ... so whatever has been played, `Longest` after the timer left running the match is over. */
  lemma EveryRunCanBeLeftToEnd(s: State, events: seq<Event>, now: Time)
    requires Wf(s) && Inv(s)
    requires var r := Run(s, events).0; r.phase != Ended ==> r.deadline.value + Longest(s.setup) <= now
    ensures Tick(Run(s, events).0, now).phase == Ended
  {
    RunInv(s, events);
    var r := Run(s, events).0;
    if r.phase != Ended {
      UnattendedMatchEnds(r, now);
    }
  }
}
