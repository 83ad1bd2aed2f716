/** Who leaves the table: rules and timers only ever vote players out or remove them for their third strike. */
module MatchFates {
  import opened Basics
  import opened MatchTypes
  import opened MatchRules
  import opened MatchClock
  import opened MatchCommands
  import opened MatchProgress

  /** The status stays, or an active player has been voted out. */
  predicate Spared(a: Status, b: Status) { a == b || (a == Active && b == Eliminated) }

  ghost predicate OnlyVotesOut(p: map<Id, Player>, q: map<Id, Player>) {
    p.Keys == q.Keys && forall id <- p :: Spared(p[id].status, q[id].status)
  }

  lemma EliminateSpares(s: State, id: Id, at: Time)
    requires Live(s) && id in Actives(s.players)
    ensures OnlyVotesOut(s.players, Eliminate(s, id, at).players)
  {
    hide ValidSetup, Elements, ActiveCitizens, ActiveImpostors, Changes;
  }

  lemma StartRoundSpares(s: State, at: Time)
    requires Live(s)
    ensures StartRound(s, at).players == s.players
  {
    hide ValidSetup, Elements, Actives, Changes;
  }

  lemma TallySpares(s: State, at: Time)
    requires Live(s) && InVote(s.phase)
    ensures OnlyVotesOut(s.players, Tally(s, at).players)
  {
    hide Eliminate, StartRound, ValidSetup, Elements, Actives, Changes, Top, Most;
    var t := FileVotes(s);
    var top := Top(t.candidates, t.votes);
    StartRoundSpares(t, at);
    if |top| == 1 {
      TopIsCandidate(t.candidates, t.votes);
      EliminateSpares(t, top[0], at);
    }
  }

  lemma MaybeAdvanceSpares(s: State, at: Time)
    requires Live(s)
    ensures OnlyVotesOut(s.players, MaybeAdvance(s, at).players)
  {
    hide Tally, StartRound, ValidSetup, Elements, Actives, Changes, AllConnectedVoted, AllConnectedAcked;
    StartRoundSpares(s, at);
    if InVote(s.phase) { TallySpares(s, at); }
  }

  /** Judging the loss of some players only ever votes out others. */
  lemma JudgeSpares(s: State, impostorGone: bool, holderGone: bool, at: Time)
    requires Live(s)
    ensures OnlyVotesOut(s.players, Judge(s, impostorGone, holderGone, at).players)
  {
    hide MaybeAdvance, ValidSetup, Elements, Actives, ActiveCitizens, ActiveImpostors, Changes;
    MaybeAdvanceSpares(s, at);
  }

  lemma RemovalSpares(s: State, gone: set<Id>, status: Status, at: Time, id: Id)
    requires Live(s) && MayGo(s, gone, status) && id in s.players && id !in gone
    ensures id in RemoveAll(s, gone, status, at).players
    ensures Spared(s.players[id].status, RemoveAll(s, gone, status, at).players[id].status)
  {
    hide Judge, ValidSetup, Elements, Actives, Changes, Drop, PlayersMove;
    WithoutKeepsShape(s, gone, status);
    JudgeSpares(Without(s, gone, status), s.setup.impostor in gone, s.phase == Hints && Holder(s) in gone, at);
  }

  lemma ExpireSpares(s: State, at: Time)
    requires Live(s)
    ensures OnlyVotesOut(s.players, Expire(s, at).players)
  {
    hide Tally, StartRound, ValidSetup, Elements, Actives, Changes, ActiveIds;
    StartRoundSpares(s, at);
    if InVote(s.phase) { TallySpares(s, at); }
  }

  lemma StepSpares(s: State, id: Id)
    requires Live(s) && id in s.players
    ensures id in Step(s).players
    ensures Spared(s.players[id].status, Step(s).players[id].status) || Step(s).players[id].status == Removed
  {
    hide CountStrikes, Expire, ValidSetup, Elements, Actives, Changes, EarliestStrike, OutAt;
    match NextTimer(s)
    case StrikeDue(at) => StruckSpares(s, at, id);
    case PhaseDue(at) => ExpireSpares(s, at);
  }

  lemma StruckSpares(s: State, at: Time, id: Id)
    requires Live(s) && id in s.players
    ensures id in CountStrikes(s, at).players
    ensures id in OutAt(s, at) ==> CountStrikes(s, at).players[id].status == Removed
    ensures id !in OutAt(s, at) ==> Spared(s.players[id].status, CountStrikes(s, at).players[id].status)
  {
    hide RemoveAll, ValidSetup, Elements, Actives, Changes, OutAt;
    StrikeKeepsShape(s, at);
    if OutAt(s, at) != {} && id !in OutAt(s, at) { RemovalSpares(Strike(s, at), OutAt(s, at), Removed, at, id); }
  }

  /** Timers take nobody out of a match but by vote, or by removal. */
  lemma {:induction false} TickSpares(s: State, now: Time, id: Id)
    requires Wf(s) && id in s.players
    ensures id in Tick(s, now).players
    ensures Spared(s.players[id].status, Tick(s, now).players[id].status) || Tick(s, now).players[id].status == Removed
    decreases PendingStrikes(s.players), Overdue(s, now)
  {
    hide Step, ValidSetup, Elements, Forward;
    if Due(s, now) {
      StepProgress(s, now);
      StepSpares(s, id);
      TickAdvances(Step(s), now);
      TickSpares(Step(s), now, id);
    }
  }

  /** A player's exit takes nobody else out of the match. */
  lemma LeaveSpares(s: State, now: Time, leaver: Id, id: Id)
    requires Wf(s) && id in s.players && id != leaver
    ensures id in ActLeave(s, leaver, now).0.players
    ensures Spared(s.players[id].status, ActLeave(s, leaver, now).0.players[id].status)
  {
    hide RemoveAll, ValidSetup, Elements, Actives, Changes;
    if leaver in s.players && s.phase != Ended && s.players[leaver].Watching() {
      RemovalSpares(s, {leaver}, Left, now, id);
    }
  }

  /** Nor does a player's return. */
  lemma ReturnSpares(s: State, now: Time, back: Id, id: Id)
    requires Wf(s) && id in s.players
    ensures id in ActReconnect(s, back, now).0.players
    ensures Spared(s.players[id].status, ActReconnect(s, back, now).0.players[id].status)
  {
    hide MaybeAdvance, ValidSetup, Elements, Actives, Changes, Shape;
    if Watcher(s, back) == Ok && InVote(s.phase) { MaybeAdvanceSpares(Returned(s, back), now); }
  }
}
